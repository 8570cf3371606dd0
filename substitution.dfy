/** The deflation rule of the P2 tiling: each kite becomes two darts and two
    kites, each dart a kite and two darts, all smaller by the golden ratio. */
module Substitution {
  import opened Vec
  import opened Tiles

  /** The outcome of the rule: the children, or the error raised for a tile
      whose template is neither the kite nor the dart. */
  datatype Result<T> = Ok(value: T) | Unsupported

  /** Add two angles, reducing the sum into [0, 360). */
  function AddAngles(a0: int, a1: int): (r: int)
    ensures 0 <= r < 360
  {
    (a0 + a1) % 360
  }

  /** The heading plus the first n corner angles of the tile's template,
      reduced into [0, 360). */
  function An(t: Tile, n: nat): (r: int)
    requires n <= |t.shape|
    ensures 0 <= r < 360
  {
    (t.heading + SumAngles(t.shape[..n])) % 360
  }

  /** `Tile.inflate`: the children of one tile, each anchored at a corner of
      the parent, in the order the rule lists them; any other template is
      refused. */
  function Inflate(offset: Offset, t: Tile): (r: Result<seq<Tile>>)
    ensures r.Ok? <==> Inflatable(t)
    ensures r.Ok? ==> |r.value| == if t.shape == KITE then 4 else 3
    ensures r.Ok? ==> forall c :: c in r.value ==> Inflatable(c) && c.scale == t.scale / PHI
  {
    if Inflatable(t) then Ok(Children(t, Points(offset, t))) else Unsupported
  }

  /** The substitution rule itself, given the parent's corner points `p`
      (its location first). */
  function Children(t: Tile, p: seq<Vec2>): (cs: seq<Tile>)
    requires Inflatable(t) && |p| == |t.shape| + 1
    ensures |cs| == if t.shape == KITE then 4 else 3
    ensures forall c :: c in cs ==> Inflatable(c) && c.scale == t.scale / PHI
  {
    var h := t.heading;
    var s := t.scale / PHI;
    if t.shape == KITE then
      [Dart(p[0], AddAngles(h, -36), s),
       Dart(p[0], AddAngles(h, 36), s),
       Kite(p[1], AddAngles(An(t, 1), 36), s),
       Kite(p[3], AddAngles(An(t, 3), -36), s)]
    else
      [Kite(p[0], h, s),
       Dart(p[1], AddAngles(An(t, 1), 72), s),
       Dart(p[3], AddAngles(An(t, 3), -108), s)]
  }

  /** A kite becomes a dart on either side of its pointy corner, turned 36
      degrees each way, and a kite at its second and at its fourth corner. */
  lemma KiteRule(t: Tile, p: seq<Vec2>)
    requires t.shape == KITE && |p| == 5
    ensures var h := t.heading;
      var s := t.scale / PHI;
      Children(t, p) == [Dart(p[0], (h + 324) % 360, s),
                         Dart(p[0], (h + 36) % 360, s),
                         Kite(p[1], (h + 108) % 360, s),
                         Kite(p[3], (h + 252) % 360, s)]
  {
    TemplateAngles();
    var h := t.heading;
    ModAdd(h + 72, 36);
    ModAdd(h + 288, -36);
    assert (h - 36) % 360 == (h + 324) % 360;
  }

  /** A dart becomes a kite at its pointy corner facing the same way, and a
      dart at its second and at its fourth corner. */
  lemma DartRule(t: Tile, p: seq<Vec2>)
    requires t.shape == DART && |p| == 5
    ensures var h := t.heading;
      var s := t.scale / PHI;
      Children(t, p) == [Kite(p[0], h, s),
                         Dart(p[1], (h + 144) % 360, s),
                         Dart(p[3], (h + 216) % 360, s)]
  {
    TemplateAngles();
    var h := t.heading;
    ModAdd(h + 72, 72);
    ModAdd(h + 324, -108);
  }

  /** The kite rule, at the corners the walk gives. */
  lemma InflateKite(offset: Offset, t: Tile)
    requires t.shape == KITE
    ensures var p := Points(offset, t);
      var h := t.heading;
      var s := t.scale / PHI;
      Inflate(offset, t) == Ok([Dart(p[0], (h + 324) % 360, s),
                                Dart(p[0], (h + 36) % 360, s),
                                Kite(p[1], (h + 108) % 360, s),
                                Kite(p[3], (h + 252) % 360, s)])
  {
    KiteRule(t, Points(offset, t));
  }

  /** The dart rule, at the corners the walk gives. */
  lemma InflateDart(offset: Offset, t: Tile)
    requires t.shape == DART
    ensures var p := Points(offset, t);
      var h := t.heading;
      var s := t.scale / PHI;
      Inflate(offset, t) == Ok([Kite(p[0], h, s),
                                Dart(p[1], (h + 144) % 360, s),
                                Dart(p[3], (h + 216) % 360, s)])
  {
    DartRule(t, Points(offset, t));
  }

  /** A parent heading in [0, 360) that is a multiple of 36 gives children
      headings with the same two properties. */
  lemma ChildHeadings(offset: Offset, t: Tile)
    requires Inflatable(t)
    requires 0 <= t.heading < 360 && t.heading % 36 == 0
    ensures forall c :: c in Inflate(offset, t).value ==> 0 <= c.heading < 360 && c.heading % 36 == 0
  {
    RuleHeadings(t, Points(offset, t));
  }

  lemma RuleHeadings(t: Tile, p: seq<Vec2>)
    requires Inflatable(t) && |p| == |t.shape| + 1
    requires 0 <= t.heading < 360 && t.heading % 36 == 0
    ensures forall c :: c in Children(t, p) ==> 0 <= c.heading < 360 && c.heading % 36 == 0
  {
    var h := t.heading;
    var hs: seq<int>;
    if t.shape == KITE {
      hs := [(h + 324) % 360, (h + 36) % 360, (h + 108) % 360, (h + 252) % 360];
      Reduced36(h + 324);
      Reduced36(h + 36);
      Reduced36(h + 108);
      Reduced36(h + 252);
      KiteRule(t, p);
    } else {
      hs := [h, (h + 144) % 360, (h + 216) % 360];
      Reduced36(h + 144);
      Reduced36(h + 216);
      DartRule(t, p);
    }
    var cs := Children(t, p);
    assert |cs| == |hs| && forall i :: 0 <= i < |cs| ==> cs[i].heading == hs[i];
    assert forall i :: 0 <= i < |hs| ==> 0 <= hs[i] < 360 && hs[i] % 36 == 0;
    forall c | c in cs
      ensures 0 <= c.heading < 360 && c.heading % 36 == 0
    {
      var i :| 0 <= i < |cs| && cs[i] == c;
    }
  }

  /** Reducing modulo 360 keeps a multiple of 36 a multiple of 36. */
  lemma Reduced36(a: int)
    requires a % 36 == 0
    ensures (a % 360) % 36 == 0
  {
  }

  /** The children of one tile are pairwise distinct: no two of them share
      template, heading and corner. */
  lemma ChildrenDistinct(offset: Offset, t: Tile)
    requires Inflatable(t)
    ensures var cs := Inflate(offset, t).value;
      forall i, j :: 0 <= i < j < |cs| ==> cs[i] != cs[j]
  {
    RuleDistinct(t, Points(offset, t));
  }

  lemma RuleDistinct(t: Tile, p: seq<Vec2>)
    requires Inflatable(t) && |p| == |t.shape| + 1
    ensures var cs := Children(t, p);
      forall i, j :: 0 <= i < j < |cs| ==> cs[i] != cs[j]
  {
    assert KITE != DART by {
      assert KITE[1] != DART[1];
    }
    if t.shape == KITE {
      KiteRule(t, p);
    } else {
      DartRule(t, p);
    }
  }

  /** Moving a tile moves each of its children by the same vector. */
  lemma InflateTranslate(offset: Offset, t: Tile, d: Vec2)
    requires TranslationInvariant(offset)
    requires Inflatable(t)
    ensures var cs := Inflate(offset, t).value;
      var ds := Inflate(offset, Translate(t, d)).value;
      |ds| == |cs| && forall i :: 0 <= i < |cs| ==> ds[i] == Translate(cs[i], d)
  {
    TranslatePoints(offset, t, d);
    RuleTranslate(t, Points(offset, t), Points(offset, Translate(t, d)), d);
  }

  /** The rule follows the corners: corners moved by `d` give children moved
      by `d`. */
  lemma RuleTranslate(t: Tile, p: seq<Vec2>, q: seq<Vec2>, d: Vec2)
    requires Inflatable(t) && |p| == |q| == |t.shape| + 1
    requires forall i :: 0 <= i < |p| ==> q[i] == Add(p[i], d)
    ensures var cs, ds := Children(t, p), Children(Translate(t, d), q);
      |ds| == |cs| && forall i :: 0 <= i < |cs| ==> ds[i] == Translate(cs[i], d)
  {
    var u := Translate(t, d);
    if t.shape == KITE {
      KiteRule(t, p);
      KiteRule(u, q);
    } else {
      DartRule(t, p);
      DartRule(u, q);
    }
  }
}
