/** The tiling driver: one round replaces every tile of a set by its children,
    keeping each distinct child once; `Iterate` runs a counted number of
    rounds from a seed such as SUN or STAR. */
module Tiling {
  import opened Vec
  import opened Tiles
  import opened Substitution

  /** Five tiles of one template meeting at the origin, turned by 72 degrees
      from each other, with short sides of length 150. */
  function Seed(shape: Template): set<Tile>
  {
    set i | 0 <= i < 5 :: Tile(shape, ZERO, 72 * i, 150.0)
  }

  /** Five kites around a point. */
  const SUN: set<Tile> := Seed(KITE)

  /** Five darts around a point. */
  const STAR: set<Tile> := Seed(DART)

  lemma SeedTiles(shape: Template)
    ensures Seed(shape) == {Tile(shape, ZERO, 0, 150.0), Tile(shape, ZERO, 72, 150.0), Tile(shape, ZERO, 144, 150.0),
                            Tile(shape, ZERO, 216, 150.0), Tile(shape, ZERO, 288, 150.0)}
    ensures |Seed(shape)| == 5
  {
    var s := {Tile(shape, ZERO, 0, 150.0), Tile(shape, ZERO, 72, 150.0), Tile(shape, ZERO, 144, 150.0),
              Tile(shape, ZERO, 216, 150.0), Tile(shape, ZERO, 288, 150.0)};
    forall t | t in s ensures t in Seed(shape) {
      var i := t.heading / 72;
      assert t == Tile(shape, ZERO, 72 * i, 150.0);
    }
  }

  /** Every child of every inflatable tile of `tiles`, each distinct tile once. */
  function ChildrenOf(offset: Offset, tiles: set<Tile>): set<Tile>
  {
    set t, c | t in tiles && Inflatable(t) && c in Inflate(offset, t).value :: c
  }

  /** The module-level `inflate`: the union of the children of every tile, or
      the error if some tile is neither a kite nor a dart. */
  function InflatedSet(offset: Offset, tiles: set<Tile>): (r: Result<set<Tile>>)
    ensures r.Ok? <==> forall t :: t in tiles ==> Inflatable(t)
  {
    if forall t :: t in tiles ==> Inflatable(t) then Ok(ChildrenOf(offset, tiles)) else Unsupported
  }

  /** A round's result is exactly the union of the children: every child of
      every tile is in it, and everything in it is a child of some tile. */
  lemma InflatedSetMembers(offset: Offset, tiles: set<Tile>)
    requires forall t :: t in tiles ==> Inflatable(t)
    ensures forall t, c :: t in tiles && c in Inflate(offset, t).value ==> c in InflatedSet(offset, tiles).value
    ensures forall c :: c in InflatedSet(offset, tiles).value ==> exists t :: t in tiles && c in Inflate(offset, t).value
  {
  }

  /** The distinct elements of a sequence are no more than its length. */
  lemma {:induction false} ElementsBound<T>(s: seq<T>)
    ensures |set x | x in s| <= |s|
    decreases |s|
  {
    if s != [] {
      ElementsBound(s[1..]);
      assert (set x | x in s) == (set x | x in s[1..]) + {s[0]};
    }
  }

  /** Each tile contributes at most four children. */
  lemma {:induction false} ChildrenOfBound(offset: Offset, tiles: set<Tile>)
    ensures |ChildrenOf(offset, tiles)| <= 4 * |tiles|
    decreases |tiles|
  {
    if tiles != {} {
      var t :| t in tiles;
      var rest := tiles - {t};
      ChildrenOfBound(offset, rest);
      var mine: set<Tile> := if Inflatable(t) then (set c | c in Inflate(offset, t).value) else {};
      if Inflatable(t) {
        ElementsBound(Inflate(offset, t).value);
      }
      assert ChildrenOf(offset, tiles) == ChildrenOf(offset, rest) + mine;
    }
  }

  /** One round at most quadruples the number of tiles. */
  lemma InflatedSetBound(offset: Offset, tiles: set<Tile>)
    requires forall t :: t in tiles ==> Inflatable(t)
    ensures |InflatedSet(offset, tiles).value| <= 4 * |tiles|
  {
    ChildrenOfBound(offset, tiles);
  }

  /** Taking one more tile adds exactly its children. */
  lemma ChildrenOfInsert(offset: Offset, done: set<Tile>, t: Tile)
    requires Inflatable(t)
    ensures ChildrenOf(offset, done + {t}) == ChildrenOf(offset, done) + set c | c in Inflate(offset, t).value
  {
  }

  /** The inner loop of the module-level `inflate`: add each child of one
      tile to the result set. */
  method AddChildren(res: set<Tile>, kids: seq<Tile>) returns (r: set<Tile>)
    ensures r == res + set c | c in kids
  {
    r := res;
    var j := 0;
    while j < |kids|
      invariant 0 <= j <= |kids|
      invariant r == res + set c | c in kids[..j]
    {
      assert kids[..j + 1] == kids[..j] + [kids[j]];
      r := r + {kids[j]};
      j := j + 1;
    }
    assert kids[..j] == kids;
  }

  /** The outer loop of the module-level `inflate`: take each tile in turn and
      add its children to the result set; the first tile that is neither a kite
      nor a dart raises the error. */
  method InflateAll(offset: Offset, tiles: set<Tile>) returns (r: Result<set<Tile>>)
    ensures r == InflatedSet(offset, tiles)
  {
    var res: set<Tile> := {};
    var todo := tiles;
    while todo != {}
      invariant todo <= tiles
      invariant forall t :: t in tiles - todo ==> Inflatable(t)
      invariant res == ChildrenOf(offset, tiles - todo)
      decreases todo
    {
      var tile :| tile in todo;
      var children := Inflate(offset, tile);
      if children.Unsupported? {
        return Unsupported;
      }
      ghost var done := tiles - todo;
      res := AddChildren(res, children.value);
      ChildrenOfInsert(offset, done, tile);
      assert tiles - (todo - {tile}) == done + {tile};
      todo := todo - {tile};
    }
    assert tiles - todo == tiles;
    return Ok(res);
  }

  /** One round maps kites and darts with scale s to kites and darts with
      scale s / PHI. */
  lemma InflatedSetScale(offset: Offset, tiles: set<Tile>, s: real)
    requires forall t :: t in tiles ==> Inflatable(t) && t.scale == s
    ensures forall c :: c in InflatedSet(offset, tiles).value ==> Inflatable(c) && c.scale == s / PHI
  {
  }

  /** One round keeps headings in [0, 360) and multiples of 36. */
  lemma InflatedSetHeadings(offset: Offset, tiles: set<Tile>)
    requires forall t :: t in tiles ==> Inflatable(t) && 0 <= t.heading < 360 && t.heading % 36 == 0
    ensures forall c :: c in InflatedSet(offset, tiles).value ==> Inflatable(c) && 0 <= c.heading < 360 && c.heading % 36 == 0
  {
    InflatedSetMembers(offset, tiles);
    forall c | c in InflatedSet(offset, tiles).value
      ensures Inflatable(c) && 0 <= c.heading < 360 && c.heading % 36 == 0
    {
      var t :| t in tiles && c in Inflate(offset, t).value;
      ChildHeadings(offset, t);
    }
  }

  /** The tiles after n rounds from `seed`, or the error if a round fails. */
  function Iterated(offset: Offset, seed: set<Tile>, n: nat): Result<set<Tile>>
  {
    if n == 0 then Ok(seed)
    else match Iterated(offset, seed, n - 1)
      case Ok(tiles) => InflatedSet(offset, tiles)
      case Unsupported => Unsupported
  }

  /** Once a round has failed, every later round has failed too. */
  lemma {:induction false} FailureSticks(offset: Offset, seed: set<Tile>, m: nat, n: nat)
    requires m <= n && Iterated(offset, seed, m).Unsupported?
    ensures Iterated(offset, seed, n).Unsupported?
    decreases n - m
  {
    if m < n {
      FailureSticks(offset, seed, m + 1, n);
    }
  }

  /** `iterate`: run the set-level round `iters` times (no round when `iters`
      is zero or negative). */
  method Iterate(offset: Offset, seed: set<Tile>, iters: int) returns (r: Result<set<Tile>>)
    ensures r == Iterated(offset, seed, if iters < 0 then 0 else iters)
  {
    var tiles := seed;
    var i := 0;
    while i < iters
      invariant 0 <= i <= if iters < 0 then 0 else iters
      invariant Iterated(offset, seed, i) == Ok(tiles)
    {
      var next := InflateAll(offset, tiles);
      if next.Unsupported? {
        FailureSticks(offset, seed, i + 1, iters);
        return Unsupported;
      }
      tiles := next.value;
      i := i + 1;
    }
    return Ok(tiles);
  }

  /** Seeds made only of kites and darts never fail, and every round again
      holds only kites and darts. */
  lemma {:induction false} IteratedInflatable(offset: Offset, seed: set<Tile>, n: nat)
    requires forall t :: t in seed ==> Inflatable(t)
    ensures Iterated(offset, seed, n).Ok?
    ensures forall t :: t in Iterated(offset, seed, n).value ==> Inflatable(t)
  {
    if n > 0 {
      IteratedInflatable(offset, seed, n - 1);
    }
  }

  /** The scale after n rounds from scale s: divided by PHI once per round. */
  function ScaleAfter(s: real, n: nat): real
  {
    if n == 0 then s else ScaleAfter(s, n - 1) / PHI
  }

  /** PHI to the power n. */
  function PhiPow(n: nat): (r: real)
    ensures r >= 1.0
  {
    if n == 0 then 1.0 else PHI * PhiPow(n - 1)
  }

  /** n rounds divide the scale by PHI^n. */
  lemma {:induction false} ScaleAfterPow(s: real, n: nat)
    ensures ScaleAfter(s, n) == s / PhiPow(n)
  {
    if n > 0 {
      ScaleAfterPow(s, n - 1);
      var before := s / PhiPow(n - 1);
      var after := before / PHI;
      assert after * PHI == before;
      assert before * PhiPow(n - 1) == s;
      assert after * PhiPow(n) == (after * PHI) * PhiPow(n - 1);
    }
  }

  /** A seed whose tiles are all kites and darts of scale s gives, after n
      rounds, tiles that all have scale s / PHI^n. */
  lemma {:induction false} IteratedScale(offset: Offset, seed: set<Tile>, s: real, n: nat)
    requires forall t :: t in seed ==> Inflatable(t) && t.scale == s
    ensures Iterated(offset, seed, n).Ok?
    ensures forall t :: t in Iterated(offset, seed, n).value ==> Inflatable(t) && t.scale == ScaleAfter(s, n)
  {
    if n > 0 {
      IteratedScale(offset, seed, s, n - 1);
      var prev := Iterated(offset, seed, n - 1).value;
      assert Iterated(offset, seed, n) == InflatedSet(offset, prev);
      InflatedSetScale(offset, prev, ScaleAfter(s, n - 1));
    }
  }

  /** Headings that start in [0, 360) as multiples of 36 stay so in every round. */
  lemma {:induction false} IteratedHeadings(offset: Offset, seed: set<Tile>, n: nat)
    requires forall t :: t in seed ==> Inflatable(t) && 0 <= t.heading < 360 && t.heading % 36 == 0
    ensures Iterated(offset, seed, n).Ok?
    ensures forall t :: t in Iterated(offset, seed, n).value ==> Inflatable(t) && 0 <= t.heading < 360 && t.heading % 36 == 0
  {
    if n > 0 {
      IteratedHeadings(offset, seed, n - 1);
      InflatedSetHeadings(offset, Iterated(offset, seed, n - 1).value);
    }
  }

  /** k times 4^n: the most tiles n rounds can make from k. */
  function Quadrupled(k: nat, n: nat): nat
  {
    if n == 0 then k else 4 * Quadrupled(k, n - 1)
  }

  /** After n rounds there are at most 4^n times as many tiles as in the seed. */
  lemma {:induction false} IteratedBound(offset: Offset, seed: set<Tile>, n: nat)
    requires forall t :: t in seed ==> Inflatable(t)
    ensures Iterated(offset, seed, n).Ok?
    ensures |Iterated(offset, seed, n).value| <= Quadrupled(|seed|, n)
  {
    if n > 0 {
      IteratedBound(offset, seed, n - 1);
      IteratedInflatable(offset, seed, n - 1);
      var tiles := Iterated(offset, seed, n - 1).value;
      var next := InflatedSet(offset, tiles);
      assert Iterated(offset, seed, n) == next;
      InflatedSetBound(offset, tiles);
      assert Quadrupled(|seed|, n) == 4 * Quadrupled(|seed|, n - 1);
    }
  }

  /** Every tile of a set, moved by `d`. */
  function Moved(tiles: set<Tile>, d: Vec2): set<Tile>
  {
    set t | t in tiles :: Translate(t, d)
  }

  /** A child of a moved tile is a moved child of the tile. */
  lemma MovedChild(offset: Offset, t: Tile, d: Vec2, c: Tile)
    requires TranslationInvariant(offset)
    requires Inflatable(t) && c in Inflate(offset, Translate(t, d)).value
    ensures exists k :: k in Inflate(offset, t).value && c == Translate(k, d)
  {
    InflateTranslate(offset, t, d);
    var ds := Inflate(offset, Translate(t, d)).value;
    var i :| 0 <= i < |ds| && ds[i] == c;
    assert Inflate(offset, t).value[i] in Inflate(offset, t).value;
  }

  /** A moved child of a tile is a child of the moved tile. */
  lemma ChildMoved(offset: Offset, t: Tile, d: Vec2, k: Tile)
    requires TranslationInvariant(offset)
    requires Inflatable(t) && k in Inflate(offset, t).value
    ensures Translate(k, d) in Inflate(offset, Translate(t, d)).value
  {
    InflateTranslate(offset, t, d);
    var cs := Inflate(offset, t).value;
    var i :| 0 <= i < |cs| && cs[i] == k;
    assert Inflate(offset, Translate(t, d)).value[i] == Translate(k, d);
  }

  /** One round of a moved set is the moved round of the set. */
  lemma InflatedSetTranslate(offset: Offset, tiles: set<Tile>, d: Vec2)
    requires TranslationInvariant(offset)
    requires forall t :: t in tiles ==> Inflatable(t)
    ensures InflatedSet(offset, Moved(tiles, d)).Ok?
    ensures InflatedSet(offset, Moved(tiles, d)).value == Moved(InflatedSet(offset, tiles).value, d)
  {
    var moved := Moved(tiles, d);
    assert forall u :: u in moved ==> Inflatable(u);
    var lhs := InflatedSet(offset, moved).value;
    var rhs := Moved(InflatedSet(offset, tiles).value, d);
    InflatedSetMembers(offset, tiles);
    InflatedSetMembers(offset, moved);
    forall c | c in lhs
      ensures c in rhs
    {
      var u :| u in moved && c in Inflate(offset, u).value;
      var t :| t in tiles && u == Translate(t, d);
      MovedChild(offset, t, d, c);
      var k :| k in Inflate(offset, t).value && c == Translate(k, d);
    }
    forall c | c in rhs
      ensures c in lhs
    {
      var k :| k in InflatedSet(offset, tiles).value && c == Translate(k, d);
      var t :| t in tiles && k in Inflate(offset, t).value;
      ChildMoved(offset, t, d, k);
      assert Translate(t, d) in moved;
    }
  }

  /** Moving the seed moves every later round by the same vector: the tiling
      grown from a moved seed is the moved tiling. */
  lemma {:induction false} IteratedTranslate(offset: Offset, seed: set<Tile>, d: Vec2, n: nat)
    requires TranslationInvariant(offset)
    requires forall t :: t in seed ==> Inflatable(t)
    ensures Iterated(offset, seed, n).Ok? && Iterated(offset, Moved(seed, d), n).Ok?
    ensures Iterated(offset, Moved(seed, d), n).value == Moved(Iterated(offset, seed, n).value, d)
  {
    if n > 0 {
      IteratedTranslate(offset, seed, d, n - 1);
      IteratedInflatable(offset, seed, n - 1);
      var prev := Iterated(offset, seed, n - 1).value;
      InflatedSetTranslate(offset, prev, d);
      assert Iterated(offset, seed, n) == InflatedSet(offset, prev);
      assert Iterated(offset, Moved(seed, d), n) == InflatedSet(offset, Moved(prev, d));
    }
  }

  /** The two kites a kite parent produces (none for any other tile). */
  function KiteChildren(offset: Offset, t: Tile): seq<Tile>
  {
    if t.shape == KITE then Inflate(offset, t).value[2..] else []
  }

  /** The SUN's tiles are kites at the origin with scale 150, facing a
      multiple of 72 degrees. */
  lemma SunTiles()
    ensures |SUN| == 5
    ensures forall t :: t in SUN ==>
      t.shape == KITE && t.location == ZERO && t.scale == 150.0 && t.heading in {0, 72, 144, 216, 288}
  {
    SeedTiles(KITE);
  }

  /** The five darts at the centre of the SUN after one round. */
  function SunDartSet(): set<Tile>
  {
    var s := 150.0 / PHI;
    {Dart(ZERO, 36, s), Dart(ZERO, 108, s), Dart(ZERO, 180, s), Dart(ZERO, 252, s), Dart(ZERO, 324, s)}
  }

  /** A dart produced from a kite of the SUN is one of the five centre darts. */
  lemma SunDartChild(offset: Offset, t: Tile, c: Tile)
    requires t in SUN && c in Inflate(offset, t).value && c.shape == DART
    ensures c in SunDartSet()
  {
  }

  /** Each of the five centre darts is a child of a kite of the SUN. */
  lemma SunDartParent(offset: Offset, c: Tile)
    requires c in SunDartSet()
    ensures InflatedSet(offset, SUN).Ok? && c in InflatedSet(offset, SUN).value
  {
    SunTiles();
    var t := Tile(KITE, ZERO, c.heading - 36, 150.0);
    assert t == Tile(KITE, ZERO, 72 * ((c.heading - 36) / 72), 150.0);
    InflateKite(offset, t);
    assert c == Inflate(offset, t).value[1];
    InflatedSetMembers(offset, SUN);
  }

  /** One round of the SUN: the ten darts its five kites produce at the centre
      coincide in pairs, leaving exactly five. */
  lemma SunDarts(offset: Offset)
    ensures InflatedSet(offset, SUN).Ok?
    ensures (set c | c in InflatedSet(offset, SUN).value && c.shape == DART) == SunDartSet()
  {
    SunTiles();
    var r := InflatedSet(offset, SUN).value;
    assert KITE != DART by {
      assert KITE[1] != DART[1];
    }
    forall c | c in r && c.shape == DART
      ensures c in SunDartSet()
    {
      InflatedSetMembers(offset, SUN);
      var t :| t in SUN && c in Inflate(offset, t).value;
      SunDartChild(offset, t, c);
    }
    forall c | c in SunDartSet()
      ensures c in r && c.shape == DART
    {
      SunDartParent(offset, c);
    }
  }

  /** Each kite parent contributes at most two kites. */
  lemma {:induction false} KiteChildrenBound(offset: Offset, tiles: set<Tile>)
    ensures |set t, c | t in tiles && c in KiteChildren(offset, t) :: c| <= 2 * |tiles|
    decreases |tiles|
  {
    if tiles != {} {
      var t :| t in tiles;
      var rest := tiles - {t};
      KiteChildrenBound(offset, rest);
      ElementsBound(KiteChildren(offset, t));
      var all := set u, c | u in tiles && c in KiteChildren(offset, u) :: c;
      var part := set u, c | u in rest && c in KiteChildren(offset, u) :: c;
      var mine := set c | c in KiteChildren(offset, t);
      forall c | c in all
        ensures c in part + mine
      {
        var u :| u in tiles && c in KiteChildren(offset, u);
        if u != t {
          assert u in rest;
        }
      }
      assert all <= part + mine;
      SubsetBound(all, part + mine);
    }
  }

  /** A child of a kite of the SUN that is not a dart is one of that kite's
      two kite children. */
  lemma SunKiteChild(offset: Offset, t: Tile, c: Tile)
    requires t in SUN && c in Inflate(offset, t).value && c.shape != DART
    ensures c in KiteChildren(offset, t)
  {
  }

  /** One round of the SUN yields at most ten kites: two per parent. */
  lemma SunKites(offset: Offset)
    ensures InflatedSet(offset, SUN).Ok?
    ensures |set c | c in InflatedSet(offset, SUN).value && c.shape != DART| <= 10
  {
    SunTiles();
    var r := InflatedSet(offset, SUN).value;
    var kites := set c | c in r && c.shape != DART;
    var fromKites := set t, c | t in SUN && c in KiteChildren(offset, t) :: c;
    KiteChildrenBound(offset, SUN);
    forall c | c in kites
      ensures c in fromKites
    {
      InflatedSetMembers(offset, SUN);
      var t :| t in SUN && c in Inflate(offset, t).value;
      SunKiteChild(offset, t, c);
    }
    SubsetBound(kites, fromKites);
  }

  /** One round of the SUN has at most 15 tiles, fewer than the 5 * 4 = 20
      children its kites produce: five darts and at most ten kites. */
  lemma SunFirstRound(offset: Offset)
    ensures InflatedSet(offset, SUN).Ok?
    ensures 10 <= |InflatedSet(offset, SUN).value| <= 15
  {
    SunDarts(offset);
    SunKites(offset);
    SunDartCount();
    ShapeSplit(InflatedSet(offset, SUN).value);
    SunAtLeastTen(offset);
  }

  /** The SUN kite of heading 72i anchors a kite at its second corner, facing
      108 degrees further round; any set holding every child of the SUN's
      kites holds it. */
  lemma SunCornerKite(offset: Offset, r: set<Tile>, i: int) returns (k: Tile)
    requires forall t, c :: t in SUN && c in Inflate(offset, t).value ==> c in r
    requires 0 <= i < 5
    ensures k in r && k.shape == KITE && k.heading == (72 * i + 108) % 360
  {
    var t := Kite(ZERO, 72 * i, 150.0);
    assert t in SUN;
    InflateKite(offset, t);
    k := Inflate(offset, t).value[2];
  }

  /** The five second-corner kites of the SUN are five distinct kites of any
      set holding every child of the SUN's kites. */
  lemma SunCornerKites(offset: Offset, r: set<Tile>) returns (ks: set<Tile>)
    requires forall t, c :: t in SUN && c in Inflate(offset, t).value ==> c in r
    ensures ks <= r && |ks| == 5
    ensures forall k :: k in ks ==> k.shape == KITE
  {
    var a := SunCornerKite(offset, r, 0);
    var b := SunCornerKite(offset, r, 1);
    var c := SunCornerKite(offset, r, 2);
    var d := SunCornerKite(offset, r, 3);
    var e := SunCornerKite(offset, r, 4);
    FiveHeadings(a, b, c, d, e);
    ks := {a, b, c, d, e};
  }

  /** The five centre darts and the five second-corner kites are ten distinct
      tiles of the first round. */
  lemma SunAtLeastTen(offset: Offset)
    ensures InflatedSet(offset, SUN).Ok?
    ensures 10 <= |InflatedSet(offset, SUN).value|
  {
    SunDarts(offset);
    SunDartCount();
    var r := InflatedSet(offset, SUN).value;
    InflatedSetMembers(offset, SUN);
    var ks := SunCornerKites(offset, r);
    assert SunDartSet() <= r;
    TwoShapesBound(r, SunDartSet(), ks);
  }

  /** Five tiles facing five different ways are five distinct tiles. */
  lemma FiveHeadings(a: Tile, b: Tile, c: Tile, d: Tile, e: Tile)
    requires a.heading == 108 && b.heading == 180 && c.heading == 252 && d.heading == 324 && e.heading == 36
    ensures |{a, b, c, d, e}| == 5
  {
  }

  /** A set holding five darts and five kites has at least ten tiles. */
  lemma TwoShapesBound(r: set<Tile>, darts: set<Tile>, kites: set<Tile>)
    requires darts <= r && kites <= r && |darts| == 5 && |kites| == 5
    requires forall t :: t in darts ==> t.shape == DART
    requires forall t :: t in kites ==> t.shape == KITE
    ensures 10 <= |r|
  {
    assert KITE != DART by {
      assert KITE[1] != DART[1];
    }
    assert darts * kites == {};
    SubsetBound(darts + kites, r);
  }

  /** A set of tiles is no larger than its darts plus its other tiles. */
  lemma ShapeSplit(r: set<Tile>)
    ensures |r| <= |set c | c in r && c.shape == DART| + |set c | c in r && c.shape != DART|
  {
    var darts := set c | c in r && c.shape == DART;
    var others := set c | c in r && c.shape != DART;
    assert r == darts + others;
  }

  /** The five centre darts are distinct. */
  lemma SunDartCount()
    ensures |SunDartSet()| == 5
  {
  }

  /** A subset is no larger than the set that holds it. */
  lemma SubsetBound<T>(a: set<T>, b: set<T>)
    requires a <= b
    ensures |a| <= |b|
  {
    assert b == a + (b - a);
  }
}
