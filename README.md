# P2 Penrose tiling: the substitution engine

A Dafny model of `penrose_p2.py`, the generator of P2 ("kite and dart")
Penrose tilings. It covers the part of the program that decides which tiles
exist. Each tile is a template of edges, walked like a turtle from the tile's
pointy corner. The substitution rule replaces a kite by two darts and two kites,
and a dart by a kite and two darts. Each child is anchored at a corner of its
parent, turned by a multiple of 36 degrees and smaller by the golden ratio.
The set-level driver takes the union of all children, so a child two parents
share is kept once. `iterate` runs a counted number of rounds from a seed such
as SUN (five kites) or STAR (five darts).

Files:

- `vec.dfy` (module `Vec`): points as pairs of reals, vector addition, and the
  polar `offset` as a function-typed parameter.
- `tiles.dfy` (module `Tiles`): the edge templates, the `Tile` record, and
  the turtle walk. The walk gives a tile's corner points (`Points`, with the
  loop `PointsOf`) and its closed outline (`Lines`, with the loop `LinesOf`).
  It also holds translation.
- `substitution.dfy` (module `Substitution`): `Tile.inflate` as `Inflate`,
  with the rule itself in `Children(t, p)`, given the parent's corners. It
  holds the closed-form headings of the children and the lemmas about them.
- `tiling.dfy` (module `Tiling`): the seeds, one round over a set
  (`InflatedSet`, with the loop `InflateAll`), and the rounds (`Iterated`,
  with the loop `Iterate`). It holds the invariants the rounds keep and the
  count for the SUN's first round.

Modelling choices:

- A tile is an immutable value, so `Tile` is a datatype. Two tiles are
  equal exactly when their template, location, heading and scale are equal.
  So `set<Tile>` collapses duplicates the way the source's `set` does.
- `Vec2.offset` uses cosine and sine, so it is a parameter
  `offset: (Vec2, int, real) -> Vec2`. Every operation that walks a tile
  receives it, so every property holds for every choice of it.
  The translation lemmas also require `TranslationInvariant(offset)`:
  moving the start point moves the end point by the same vector.
- Headings are unbounded `int`s. Python's `%` by 360 gives the same
  value in [0, 360) as Dafny's Euclidean `%`, including for negative sums
  such as `h - 36`.
- PHI is the real 1.618033988749895, the decimal Python prints for the
  double `(1 + sqrt(5)) / 2`. Scales are reals, and a division by PHI is an
  exact real division, not the source's rounded float division.
- The source raises `NotImplementedError` for a template that is neither
  KITE nor DART. This is modelled as the error value `Unsupported`, not as a
  precondition. The set-level round and `iterate` propagate it.
- `an(n)` is the parent's heading plus the sum of the first `n` interior
  angles of its template (`penrose_p2.py:183`). It is not the walk's heading
  at corner `n`. The source's comment at `penrose_p2.py:183` calls `an(n)`
  the angle of point n, but after one step the walk faces h+108, while
  `an(1)` is h+72.
- The dart's kite child keeps the parent's heading unreduced
  (`kite(p[0], h, s)`), so the heading invariant needs a parent heading
  already in [0, 360).
- A seed that is not a set (such as the list `main` builds) is modelled as
  the set of its tiles.
- A negative `iters` runs no round, as `range(iters)` does.

## Model

| member | source | states |
|---|---|---|
| Tiles.Turn | penrose_p2.py:122 | One turn of the walk lands in [0, 360) and differs from `heading + 180 - angle` by a multiple of 360 |
| Tiles.HeadingAfter | penrose_p2.py:121-122 | After at least one step the walk's heading lies in [0, 360) |
| Tiles.HeadingAfterFormula | penrose_p2.py:121-122 | After k >= 1 steps the heading is `(heading + 180k - sum of the k corner angles) % 360` |
| Tiles.PrefixAngles | penrose_p2.py:183 | The sum of the first one, first three and all four corner angles of a four-edge template, in closed form |
| Tiles.TemplateAngles | penrose_p2.py:14-15 | KITE's corner-angle prefix sums are 72, 288 and 360; DART's are 72, 324 and 360 |
| Tiles.WalkCloses | penrose_p2.py:14-15 | Both templates' angles sum to 360, so a walk all the way round either shape ends facing `heading % 360` |
| Tiles.Walk | penrose_p2.py:118-125 | The walk visits one point more than it has edges, and its first point is the start |
| Tiles.WalkStep | penrose_p2.py:121-124 | Point k+1 is the offset of point k, in the heading reached after k+1 turns, by `length * scale` of edge k |
| Tiles.Points | penrose_p2.py:116-125 | A tile has `len(shape) + 1` corner points (5 for KITE and DART), and the first is its location |
| Tiles.PointsOf | penrose_p2.py:116-125 | The generator loop yields exactly `Points`: it starts at the location and turns and steps once per edge |
| Tiles.Chain | penrose_p2.py:130-133 | One segment per consecutive pair of points, segment i running from point i to point i+1 |
| Tiles.Outline | penrose_p2.py:127-134 | The chain followed by a closing segment from the last point back to the first; as many segments as points |
| Tiles.Lines | penrose_p2.py:127-134 | A tile has `len(shape) + 1` segments; the first starts and the last ends at the tile's location |
| Tiles.OutlineCloses | penrose_p2.py:127-134 | Each segment ends where the next starts, and the last ends where the first starts: the outline is closed |
| Tiles.LinesOf | penrose_p2.py:127-134 | The generator loop yields exactly the closed outline of the tile's points |
| Tiles.WalkTranslate | penrose_p2.py:113-114 | Walking from a moved start moves every point of the walk by the same vector |
| Tiles.TranslatePoints | penrose_p2.py:113-114 | The corners of `t.translate(d)` are the corners of `t`, each moved by `d` |
| Substitution.AddAngles | penrose_p2.py:179-180 | The sum of two angles is reduced into [0, 360) |
| Substitution.An | penrose_p2.py:182-183 | The heading plus the first n corner angles, reduced into [0, 360) |
| Substitution.Inflate | penrose_p2.py:170-194 | Inflation succeeds exactly for KITE and DART; a kite has 4 children, a dart 3; every child is a kite or a dart with scale `scale / PHI` |
| Substitution.Children | penrose_p2.py:185-191 | Given the parent's corners, the rule gives 4 children for a kite and 3 for a dart, all kites or darts of scale `scale / PHI` |
| Substitution.KiteRule | penrose_p2.py:185-189 | A kite's children are darts at p[0] with headings h+324 and h+36, and kites at p[1] (h+108) and p[3] (h+252), all mod 360 |
| Substitution.DartRule | penrose_p2.py:190-191 | A dart's children are a kite at p[0] with heading h, and darts at p[1] (h+144) and p[3] (h+216), mod 360 |
| Substitution.InflateKite | penrose_p2.py:185-189 | `Inflate` of a kite is the kite rule applied at the corners of its walk |
| Substitution.InflateDart | penrose_p2.py:190-191 | `Inflate` of a dart is the dart rule applied at the corners of its walk |
| Substitution.RuleHeadings | penrose_p2.py:179-191 | If the parent heading is in [0, 360) and a multiple of 36, so is every child heading of the rule |
| Substitution.ChildHeadings | penrose_p2.py:179-191 | The same invariant for `Inflate` |
| Substitution.RuleDistinct | penrose_p2.py:185-191 | The children the rule gives for one parent are pairwise distinct |
| Substitution.ChildrenDistinct | penrose_p2.py:185-191 | The children `Inflate` gives for one parent are pairwise distinct, so one tile alone never loses a child to deduplication |
| Substitution.RuleTranslate | penrose_p2.py:185-191 | Corners moved by d give the same children, each moved by d |
| Substitution.InflateTranslate | penrose_p2.py:170-194 | The children of `t.translate(d)` are the children of `t`, each moved by d, in the same order |
| Tiling.SeedTiles | penrose_p2.py:218-219 | A seed is exactly the five tiles at the origin with headings 0, 72, 144, 216, 288 and scale 150, and they are five distinct tiles |
| Tiling.SunTiles | penrose_p2.py:218 | SUN has 5 tiles, all kites at the origin with scale 150 and headings multiples of 72 in [0, 360) |
| Tiling.InflatedSet | penrose_p2.py:222-227 | A round succeeds exactly when every tile is a kite or a dart |
| Tiling.InflatedSetMembers | penrose_p2.py:222-227 | Every child of every tile is in the result, and every tile of the result is a child of some tile |
| Tiling.ChildrenOfBound | penrose_p2.py:222-227 | The union of the children has at most 4 tiles per parent |
| Tiling.InflatedSetBound | penrose_p2.py:222-227 | One round's result has at most `4 * len(tiles)` tiles |
| Tiling.ChildrenOfInsert | penrose_p2.py:224-226 | Taking one more parent adds exactly that parent's children to the union |
| Tiling.AddChildren | penrose_p2.py:225-226 | The inner loop adds exactly the tile's children to the result set |
| Tiling.InflateAll | penrose_p2.py:222-227 | The nested loops compute exactly the round `InflatedSet`, including the error when some tile is not a kite or a dart |
| Tiling.InflatedSetScale | penrose_p2.py:177 | A round maps kites and darts of one scale s to kites and darts of scale s / PHI |
| Tiling.InflatedSetHeadings | penrose_p2.py:179-191 | A round keeps every heading in [0, 360) and a multiple of 36 |
| Tiling.FailureSticks | penrose_p2.py:237-238 | Once a round fails, every later round fails |
| Tiling.Iterate | penrose_p2.py:230-239 | The counted loop gives `Iterated` after `max(iters, 0)` rounds: the seed itself for 0, and one more round of the previous result for n+1 |
| Tiling.IteratedInflatable | penrose_p2.py:230-239 | A seed of kites and darts never fails, and every round again holds only kites and darts |
| Tiling.PhiPow | penrose_p2.py:177 | PHI to the power n is at least 1 |
| Tiling.ScaleAfterPow | penrose_p2.py:177 | Dividing by PHI n times is dividing by PHI^n |
| Tiling.IteratedScale | penrose_p2.py:230-239 | From a seed of scale s, every tile after n rounds has scale `ScaleAfter(s, n)`, which `ScaleAfterPow` shows is s / PHI^n |
| Tiling.IteratedHeadings | penrose_p2.py:230-239 | Headings in [0, 360) that are multiples of 36 stay so in every round |
| Tiling.IteratedBound | penrose_p2.py:230-239 | After n rounds there are at most `4^n * len(seed)` tiles |
| Tiling.MovedChild | penrose_p2.py:113-114 | Every child of a moved tile is a child of the tile, moved |
| Tiling.ChildMoved | penrose_p2.py:113-114 | Every child of a tile, moved, is a child of the moved tile |
| Tiling.InflatedSetTranslate | penrose_p2.py:222-227 | One round of a moved set is the moved round of the set |
| Tiling.IteratedTranslate | penrose_p2.py:253-254 | Iterating from a seed moved by d, as `main` does with SUN, gives the moved tiling of every round |
| Tiling.SunDartChild | penrose_p2.py:186-187 | Every dart a SUN kite produces is one of the five centre darts (headings 36, 108, 180, 252, 324) |
| Tiling.SunDartParent | penrose_p2.py:186-187 | Each of the five centre darts is produced by some SUN kite |
| Tiling.SunDarts | penrose_p2.py:218 | The darts after one round of SUN are exactly the five centre darts: the ten darts coincide in pairs |
| Tiling.SunDartCount | penrose_p2.py:218 | The five centre darts are distinct |
| Tiling.KiteChildrenBound | penrose_p2.py:188-189 | Each kite parent contributes at most two kites |
| Tiling.SunKiteChild | penrose_p2.py:188-189 | A non-dart child of a SUN kite is one of that kite's two kite children |
| Tiling.SunKites | penrose_p2.py:218 | One round of SUN has at most ten kites |
| Tiling.SunCornerKite | penrose_p2.py:188 | The SUN kite of heading 72i anchors a kite at its second corner with heading (72i + 108) % 360, and that kite is in every set holding all the SUN's children |
| Tiling.FiveHeadings | penrose_p2.py:188 | Five tiles with the five second-corner headings 108, 180, 252, 324, 36 are five distinct tiles |
| Tiling.TwoShapesBound | penrose_p2.py:222-227 | A set holding five darts and five kites has at least ten tiles, since no dart equals a kite |
| Tiling.SunCornerKites | penrose_p2.py:188 | The five second-corner kites of the SUN are five distinct kites of every set holding all the SUN's children |
| Tiling.SunAtLeastTen | penrose_p2.py:218 | One round of SUN keeps at least ten tiles: the five centre darts and the five second-corner kites |
| Tiling.SunFirstRound | penrose_p2.py:218 | One round of SUN succeeds and has between 10 and 15 tiles: the ten darts collapse to five, and at least the five second-corner kites stay distinct |

## Left out

- `Vec2.offset`: the cosine and sine of `penrose_p2.py:58-61` are not modelled. The offset is a parameter of every walk.
- Floating point: coordinates, scales and PHI are exact reals, so rounding is not modelled. With floats, two tiles that are equal here could differ in their last bit.
- `Tiles.WalkTranslate` assumes the offset commutes with translation exactly. That holds for the real cosine/sine formula, not for rounded floats.
- `Tiles.TranslatePoints`, `Substitution.InflateTranslate`, `Tiling.InflatedSetTranslate` and `Tiling.IteratedTranslate` rest on the same exact-translation assumption.
- `Vec2.__sub__`, `__mul__`, `dot`, `dist`, `length` and `norm` (`penrose_p2.py:29-44`, `63-78`) are not used by the substitution rule.
- `Tile.centroid` and `scale_by` (`penrose_p2.py:136-168`) use the shoelace formula with float division and are separate from the substitution.
- `Vec2.__repr__`, `Tile.svg`, `build_svg` and `main` (`penrose_p2.py:25-27`, `196-206`, `242-261`) are string formatting and file output.
- Hashing: `Tile.__hash__` hashes `id(shape)`, and `__eq__` compares shapes by value. The model uses datatype equality. The two agree here because every tile shares the one KITE or DART list.
- Laziness: `points()` and `lines()` are generators. The model produces the whole sequence at once.
- Iteration order: the source visits the set in hash order. `InflateAll` takes the tiles in an arbitrary order, and its contract shows the result does not depend on that order.
- A non-set seed: `iterate(list, 0)` returns the list object itself. `Tiling.Iterate` takes a set, so duplicates in a list seed are not modelled.
- STAR is defined as a seed, and the general invariants apply to it. No first-round count is proved for STAR.
