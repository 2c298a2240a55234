/** The choice among the candidate sweeps of a bot.

    Up to 81 patches around the bot, each entered from either end and approached along
    either axis first.  The planner starts from a promising patch and prunes by a lower
    bound; its choice is the exhaustive one: the best gain for its cost, and among
    equals the first in the canonical order. */
module Planning {
  import opened Basics
  import opened Grid
  import opened Rounds
  import opened Bots

  const PATCH_GRID: nat := 9
  const MAX_PATCHES: nat := 81

  /** Everything a plan depends on. */
  datatype Task = Task(g: Board, land: seq<bool>, owners: seq<nat>, country: nat, x: nat, y: nat, side: Positive,
                       rival: Option<nat>, reserved: seq<int>) {
    predicate Valid() {
      |land| == |owners| == g.Size() && x < g.width && y < g.height
    }

    function From(): (cell: nat)
      requires Valid()
      ensures cell < g.Size()
    {
      CellAt(g, x, y)
    }
  }

  // ----- the strongest rival -----

  datatype Standing = Standing(country: nat, count: nat)

  predicate IsRival(standings: seq<Standing>, own: nat, k: nat) {
    k < |standings| && standings[k].country != own &&
    (forall j :: 0 <= j < |standings| && standings[j].country != own ==> standings[j].count <= standings[k].count) &&
    forall j :: 0 <= j < k && standings[j].country != own ==> standings[j].count < standings[k].count
  }

  /** The first of the largest other countries. */
  method FindRival(standings: seq<Standing>, own: nat) returns (rival: Option<nat>)
    ensures rival.None? <==> forall k :: 0 <= k < |standings| ==> standings[k].country == own
    ensures rival.Some? ==> exists k: nat :: IsRival(standings, own, k) && rival.value == standings[k].country
  {
    rival := None;
    var rivalCount: int := -1;
    ghost var at: nat := 0;
    for i := 0 to |standings|
      invariant rival.None? <==> forall k :: 0 <= k < i ==> standings[k].country == own
      invariant rival.None? ==> rivalCount == -1
      invariant rival.Some? ==> IsRival(standings[..i], own, at) && rival.value == standings[at].country && rivalCount == standings[at].count
    {
      if standings[i].country != own && standings[i].count > rivalCount {
        rivalCount, rival, at := standings[i].count, Some(standings[i].country), i;
      }
    }
    assert standings[..|standings|] == standings;
  }

  // ----- gain -----

  function CellGain(t: Task, cell: nat): nat
    requires t.Valid() && cell < t.g.Size()
  {
    if !t.land[cell] || t.owners[cell] == t.country then 0
    else if t.rival == Some(t.owners[cell]) then 2 else 1
  }

  function SquareCellOf(t: Task, p: Patch, i: nat): (cell: nat)
    requires t.Valid() && p.Fits(t.g) && i < p.side * p.side
    ensures cell < t.g.Size()
  {
    RowsAreBounded(Board(p.side, p.side), i);
    CellAt(t.g, p.left + Col(p.side, i), p.top + Row(p.side, i))
  }

  /** What the first n cells of a square are worth. */
  function GainUpto(t: Task, p: Patch, n: nat): nat
    requires t.Valid() && p.Fits(t.g) && n <= p.side * p.side
  {
    if n == 0 then 0 else GainUpto(t, p, n - 1) + CellGain(t, SquareCellOf(t, p, n - 1))
  }

  function GainOf(t: Task, p: Patch): nat
    requires t.Valid() && p.Fits(t.g)
  {
    GainUpto(t, p, p.side * p.side)
  }

  // ----- what the gain counts -----

  /** The cells of a square, by their coordinates. */
  predicate InSquare(g: Board, p: Patch, cell: nat) {
    p.left <= Col(g.width, cell) < p.left + p.side && p.top <= Row(g.width, cell) < p.top + p.side
  }

  /** The land of a square that is not the bot's. */
  ghost function ForeignLand(t: Task, p: Patch): set<nat> {
    set c: nat | c < |t.land| && c < |t.owners| && InSquare(t.g, p, c) && t.land[c] && t.owners[c] != t.country
  }

  /** The part of it that is the rival's. */
  ghost function RivalLand(t: Task, p: Patch): set<nat> {
    set c: nat | c in ForeignLand(t, p) && c < |t.owners| && t.rival == Some(t.owners[c])
  }

  /** Foreign land counts once, and the rival's once more. */
  ghost function Worth(t: Task, p: Patch): nat {
    |ForeignLand(t, p)| + |RivalLand(t, p)|
  }

  /** Where a cell of a square comes in the scan of the square. */
  function PlaceIn(g: Board, p: Patch, cell: nat): int {
    At(p.side, Col(g.width, cell) - p.left, Row(g.width, cell) - p.top)
  }

  lemma PlaceOfSquareCell(t: Task, p: Patch, i: nat)
    requires t.Valid() && p.Fits(t.g) && i < p.side * p.side
    ensures InSquare(t.g, p, SquareCellOf(t, p, i)) && PlaceIn(t.g, p, SquareCellOf(t, p, i)) == i
  {
    hide Row, Col, At, CellAt;
    RowsAreBounded(Board(p.side, p.side), i);
    CoordinatesAreQuotients(p.side, i);
  }

  lemma SquareCellAtPlace(t: Task, p: Patch, cell: nat)
    requires t.Valid() && p.Fits(t.g) && cell < t.g.Size() && InSquare(t.g, p, cell)
    ensures 0 <= PlaceIn(t.g, p, cell) < p.side * p.side && SquareCellOf(t, p, PlaceIn(t.g, p, cell)) == cell
  {
    hide Row, Col, At, CellAt;
    SquareCell(p.side, Col(t.g.width, cell) - p.left, Row(t.g.width, cell) - p.top);
    var i := PlaceIn(t.g, p, cell);
    CellsAreRowMajor(t.g.width, SquareCellOf(t, p, i), cell);
  }

  /** The cells of a set that the scan has seen after n places. */
  ghost function Seen(t: Task, p: Patch, cells: set<nat>, n: nat): set<nat> {
    set c: nat | c in cells && PlaceIn(t.g, p, c) < n
  }

  lemma SeenStep(t: Task, p: Patch, cells: set<nat>, n: nat)
    requires t.Valid() && p.Fits(t.g) && n < p.side * p.side
    requires forall c :: c in cells ==> c < t.g.Size() && InSquare(t.g, p, c)
    ensures |Seen(t, p, cells, n + 1)| == |Seen(t, p, cells, n)| + if SquareCellOf(t, p, n) in cells then 1 else 0
  {
    hide SquareCellOf, InSquare, PlaceIn;
    var next := SquareCellOf(t, p, n);
    PlaceOfSquareCell(t, p, n);
    forall c | c in cells
      ensures PlaceIn(t.g, p, c) == n ==> c == next
    {
      SquareCellAtPlace(t, p, c);
    }
    assert Seen(t, p, cells, n + 1) == Seen(t, p, cells, n) + (if next in cells then {next} else {});
  }

  lemma {:induction false} GainCountsSeen(t: Task, p: Patch, n: nat)
    requires t.Valid() && p.Fits(t.g) && n <= p.side * p.side
    ensures GainUpto(t, p, n) == |Seen(t, p, ForeignLand(t, p), n)| + |Seen(t, p, RivalLand(t, p), n)|
  {
    hide SquareCellOf, InSquare, PlaceIn, Seen;
    if n == 0 {
      NothingSeen(t, p, ForeignLand(t, p));
      NothingSeen(t, p, RivalLand(t, p));
    } else {
      GainCountsSeen(t, p, n - 1);
      PlaceOfSquareCell(t, p, n - 1);
      SeenStep(t, p, ForeignLand(t, p), n - 1);
      SeenStep(t, p, RivalLand(t, p), n - 1);
    }
  }

  lemma NothingSeen(t: Task, p: Patch, cells: set<nat>)
    requires t.Valid() && p.Fits(t.g) && forall c :: c in cells ==> c < t.g.Size() && InSquare(t.g, p, c)
    ensures Seen(t, p, cells, 0) == {}
  {
    hide InSquare, PlaceIn;
    forall c | c in cells
      ensures PlaceIn(t.g, p, c) >= 0
    {
      SquareCellAtPlace(t, p, c);
    }
  }

  lemma AllSeen(t: Task, p: Patch, cells: set<nat>)
    requires t.Valid() && p.Fits(t.g) && forall c :: c in cells ==> c < t.g.Size() && InSquare(t.g, p, c)
    ensures Seen(t, p, cells, p.side * p.side) == cells
  {
    hide InSquare, PlaceIn;
    forall c | c in cells
      ensures PlaceIn(t.g, p, c) < p.side * p.side
    {
      SquareCellAtPlace(t, p, c);
    }
  }

  /** The gain of a square, straight from the map: its foreign land, the rival's twice. */
  lemma GainIsWorth(t: Task, p: Patch)
    requires t.Valid() && p.Fits(t.g)
    ensures GainOf(t, p) == |ForeignLand(t, p)| + |RivalLand(t, p)|
  {
    hide InSquare, GainUpto, Seen;
    GainCountsSeen(t, p, p.side * p.side);
    AllSeen(t, p, ForeignLand(t, p));
    AllSeen(t, p, RivalLand(t, p));
  }

  /** One more cell of the square. */
  lemma GainStep(t: Task, p: Patch, x: nat, y: nat)
    requires t.Valid() && p.Fits(t.g) && x < p.side && y < p.side
    ensures 0 <= At(p.side, x, y) && 0 <= At(p.side, x + 1, y) <= p.side * p.side
    ensures p.left + x < t.g.width && p.top + y < t.g.height
    ensures GainUpto(t, p, At(p.side, x + 1, y)) == GainUpto(t, p, At(p.side, x, y)) + CellGain(t, CellAt(t.g, p.left + x, p.top + y))
  {
    hide Row, Col, CellAt, At, CellGain;
    SquareCell(p.side, x, y);
    RowStarts(p.side, y);
  }

  method CountGain(t: Task, p: Patch) returns (gain: nat)
    requires t.Valid() && p.Fits(t.g)
    ensures gain == GainOf(t, p) == |ForeignLand(t, p)| + |RivalLand(t, p)|
  {
    GainIsWorth(t, p);
    var n: nat := p.side;
    gain := 0;
    RowStarts(p.side, 0);
    assert GainUpto(t, p, 0) == 0;
    hide CellAt, At, CellGain, GainUpto, ForeignLand, RivalLand;
    for y := 0 to n
      invariant 0 <= At(n, 0, y) <= n * n && gain == GainUpto(t, p, At(n, 0, y))
    {
      for x := 0 to n
        invariant 0 <= At(n, x, y) <= n * n && gain == GainUpto(t, p, At(n, x, y))
      {
        GainStep(t, p, x, y);
        gain := gain + CellGain(t, CellAt(t.g, p.left + x, p.top + y));
      }
      RowStarts(p.side, y);
    }
    RowStarts(p.side, n);
  }

  // ----- candidates -----

  /** The grid line d squares from the one at or below x. */
  function CornerAt(side: Positive, x: nat, d: int): int {
    x / side * side + d * side
  }

  /** The patch at place q of the 9x9 grid around the bot, if it is worth a visit. */
  function PatchAt(t: Task, q: nat): Option<Patch>
    requires t.Valid() && q < MAX_PATCHES
  {
    var left, top := CornerAt(t.side, t.x, q % PATCH_GRID - 4), CornerAt(t.side, t.y, q / PATCH_GRID - 4);
    if left < 0 || left + t.side > t.g.width || top < 0 || top + t.side > t.g.height then None
    else if CellAt(t.g, left, top) as int in t.reserved then None
    else if GainOf(t, Patch(left, top, t.side)) == 0 then None
    else Some(Patch(left, top, t.side))
  }

  predicate Loops(t: Task, p: Patch)
    requires t.Valid() && p.Fits(t.g)
  {
    AllLand(t.land, Perimeter(t.g, p))
  }

  function OrderOf(t: Task, p: Patch, reverse: bool): (order: seq<nat>)
    requires t.Valid() && p.Fits(t.g)
    ensures order != [] && Within(order, t.g.Size()) && |order| == RouteLength(p.side, Loops(t, p))
  {
    EntryOfSweep(t.g, p, Loops(t, p));
    var route := Sweep(t.g, p, Loops(t, p));
    if reverse then Reversed(route) else route
  }

  function CellsOf(t: Task, p: Patch, reverse: bool, horizontalFirst: bool): (cells: seq<nat>)
    requires t.Valid() && p.Fits(t.g)
    ensures Within(cells, t.g.Size())
  {
    PlanCells(t.g, t.From(), OrderOf(t, p, reverse), horizontalFirst, Loops(t, p))
  }

  function CostOf(t: Task, p: Patch, reverse: bool, horizontalFirst: bool): nat
    requires t.Valid() && p.Fits(t.g)
  {
    Walk(t.land, t.owners, t.country, t.From(), CellsOf(t, p, reverse, horizontalFirst))
  }

  datatype Choice = Choice(patch: Patch, gain: nat, cost: nat, cells: seq<nat>)

  const CANDIDATES: nat := 324

  /** The candidate at a place in the canonical order: patch, then entry, then axis. */
  function ChoiceAt(t: Task, o: nat): Option<Choice>
    requires t.Valid() && o < CANDIDATES
  {
    match PatchAt(t, o / 4)
    case None => None
    case Some(p) =>
      var reverse, horizontalFirst := o / 2 % 2 == 1, o % 2 == 0;
      Some(Choice(p, GainOf(t, p), CostOf(t, p, reverse, horizontalFirst), CellsOf(t, p, reverse, horizontalFirst)))
  }

  /** Strictly better, compared by cross-multiplication; ties go to the smaller order. */
  predicate Beats(a: Choice, oa: nat, b: Choice, ob: nat) {
    a.gain * b.cost > b.gain * a.cost || (a.gain * b.cost == b.gain * a.cost && oa < ob)
  }

  /** What an exhaustive search chooses. */
  ghost predicate Best(t: Task, o: nat)
    requires t.Valid()
  {
    o < CANDIDATES && ChoiceAt(t, o).Some? &&
    forall other: nat :: other < CANDIDATES && other != o && ChoiceAt(t, other).Some? ==>
      Beats(ChoiceAt(t, o).value, o, ChoiceAt(t, other).value, other)
  }

  lemma Products(x: nat, y: nat, z: nat)
    ensures x * y * z == x * z * y && x * y * z == y * z * x
  {
  }

  lemma SmallerProduct(x: int, y: int, c: int)
    requires c > 0
    ensures x < y <==> x * c < y * c
    ensures x <= y <==> x * c <= y * c
  {
    Distribute(y - x, x, c);
    if x < y {
      MultiplesAreApart(c, y - x);
    } else if y < x {
      MultiplesAreApart(c, y - x);
    }
  }

  lemma BeatsIsTransitive(a: Choice, oa: nat, b: Choice, ob: nat, c: Choice, oc: nat)
    requires a.cost > 0 && b.cost > 0 && c.cost > 0
    requires Beats(a, oa, b, ob) && Beats(b, ob, c, oc)
    ensures Beats(a, oa, c, oc)
  {
    SmallerProduct(b.gain * a.cost, a.gain * b.cost, c.cost);
    SmallerProduct(c.gain * b.cost, b.gain * c.cost, a.cost);
    Products(b.gain, a.cost, c.cost);
    Products(b.gain, c.cost, a.cost);
    Products(a.gain, b.cost, c.cost);
    Products(a.gain, c.cost, b.cost);
    Products(c.gain, b.cost, a.cost);
    Products(c.gain, a.cost, b.cost);
    SmallerProduct(c.gain * a.cost, a.gain * c.cost, b.cost);
  }

  // ----- the choice, straight from the map -----

  /** How many squares a coordinate is from another one. */
  function Squares(side: Positive, at: nat, x: nat): int {
    at / side - x / side
  }

  /** A line of the grid, at most four squares from another coordinate. */
  predicate Near(side: Positive, at: nat, x: nat) {
    at % side == 0 && -4 <= Squares(side, at, x) <= 4
  }

  /** A patch the bot may choose: a square of the map's grid, at most four squares away in
      each direction, that nobody else of its country has reserved and that has something
      to gain. */
  ghost predicate Eligible(t: Task, p: Patch)
    requires t.Valid()
  {
    p.side == t.side && p.Fits(t.g) && Near(p.side, p.left, t.x) && Near(p.side, p.top, t.y) &&
    CellAt(t.g, p.left, p.top) as int !in t.reserved && Worth(t, p) > 0
  }

  /** Where a patch comes in the canonical order of the squares around the bot. */
  function GridPlace(t: Task, p: Patch): int {
    (Squares(p.side, p.top, t.y) + 4) * PATCH_GRID + Squares(p.side, p.left, t.x) + 4
  }

  lemma CornerIsNear(side: Positive, x: nat, d: int)
    requires CornerAt(side, x, d) >= 0 && -4 <= d <= 4
    ensures Near(side, CornerAt(side, x, d), x) && Squares(side, CornerAt(side, x, d), x) == d
  {
    var base := x / side;
    Distribute(base, d, side);
    MultiplesAreApart(side, base + d);
    QuotientIsUnique(side, base + d, 0, (base + d) * side);
  }

  lemma NearIsCorner(side: Positive, at: nat, x: nat)
    requires Near(side, at, x)
    ensures at == CornerAt(side, x, Squares(side, at, x)) && -4 <= Squares(side, at, x) <= 4
  {
    Distribute(x / side, at / side - x / side, side);
    assert at == at / side * side + at % side;
  }

  lemma PatchIsEligible(t: Task, q: nat)
    requires t.Valid() && q < MAX_PATCHES && PatchAt(t, q).Some?
    ensures Eligible(t, PatchAt(t, q).value) && GridPlace(t, PatchAt(t, q).value) == q
  {
    hide Row, Col, At, CellAt, GainOf, Worth, CornerAt, Near, Squares;
    var p := PatchAt(t, q).value;
    CornerIsNear(t.side, t.x, q % PATCH_GRID - 4);
    CornerIsNear(t.side, t.y, q / PATCH_GRID - 4);
    WorthIsGain(t, p);
  }

  lemma WorthIsGain(t: Task, p: Patch)
    requires t.Valid() && p.Fits(t.g)
    ensures Worth(t, p) == GainOf(t, p)
  {
    hide ForeignLand, RivalLand, GainOf;
    GainIsWorth(t, p);
  }

  lemma PlaceParts(dx: int, dy: int)
    requires -4 <= dx <= 4 && -4 <= dy <= 4
    ensures
      var q := (dy + 4) * PATCH_GRID + dx + 4;
      0 <= q < MAX_PATCHES && q % PATCH_GRID == dx + 4 && q / PATCH_GRID == dy + 4
  {
  }

  lemma EligibleIsPatch(t: Task, p: Patch)
    requires t.Valid() && Eligible(t, p)
    ensures 0 <= GridPlace(t, p) < MAX_PATCHES && PatchAt(t, GridPlace(t, p)) == Some(p)
  {
    hide Row, Col, At, CellAt, GainOf, Worth, CornerAt, Near, Squares;
    NearIsCorner(t.side, p.left, t.x);
    NearIsCorner(t.side, p.top, t.y);
    PlaceParts(Squares(t.side, p.left, t.x), Squares(t.side, p.top, t.y));
    WorthIsGain(t, p);
  }

  /** The place of a candidate in the canonical order: patch, then entry, then axis. */
  function PlaceOf(t: Task, p: Patch, reverse: bool, horizontalFirst: bool): int {
    GridPlace(t, p) * 4 + (if reverse then 2 else 0) + if horizontalFirst then 0 else 1
  }

  /** One candidate is better for its cost than another, or as good and not behind it. */
  ghost predicate AsGood(t: Task, p: Patch, reverse: bool, horizontalFirst: bool, q: Patch, backwards: bool, acrossFirst: bool)
    requires t.Valid() && p.Fits(t.g) && q.Fits(t.g)
  {
    var mine, other := CostOf(t, p, reverse, horizontalFirst), CostOf(t, q, backwards, acrossFirst);
    Worth(t, p) * other > Worth(t, q) * mine ||
    (Worth(t, p) * other == Worth(t, q) * mine && PlaceOf(t, p, reverse, horizontalFirst) <= PlaceOf(t, q, backwards, acrossFirst))
  }

  /** No eligible patch, entered from either end and approached along either axis, is better. */
  ghost predicate Unbeaten(t: Task, p: Patch, reverse: bool, horizontalFirst: bool)
    requires t.Valid()
  {
    Eligible(t, p) &&
    forall q: Patch, backwards: bool, acrossFirst: bool :: Eligible(t, q) ==>
      AsGood(t, p, reverse, horizontalFirst, q, backwards, acrossFirst)
  }

  lemma EligibleIsChoice(t: Task, p: Patch, reverse: bool, horizontalFirst: bool)
    requires t.Valid() && Eligible(t, p)
    ensures
      var o := PlaceOf(t, p, reverse, horizontalFirst);
      0 <= o < CANDIDATES && p.Fits(t.g) && ChoiceAt(t, o).Some? &&
      ChoiceAt(t, o).value.patch == p && ChoiceAt(t, o).value.gain == Worth(t, p) &&
      ChoiceAt(t, o).value.cost == CostOf(t, p, reverse, horizontalFirst)
  {
    EligibleIsPatch(t, p);
    EligibleFits(t, p);
    WorthIsGain(t, p);
    hide PatchAt, CostOf, CellsOf, GainOf, Worth, Eligible, GridPlace;
    OrderParts(GridPlace(t, p), if reverse then 1 else 0, if horizontalFirst then 0 else 1);
  }

  lemma EligibleFits(t: Task, p: Patch)
    requires t.Valid() && Eligible(t, p)
    ensures p.Fits(t.g) && p.side == t.side
  {
  }

  lemma ChoiceIsEligible(t: Task, o: nat)
    requires t.Valid() && o < CANDIDATES && ChoiceAt(t, o).Some?
    ensures
      var p, reverse, horizontalFirst := ChoiceAt(t, o).value.patch, o / 2 % 2 == 1, o % 2 == 0;
      Eligible(t, p) && PlaceOf(t, p, reverse, horizontalFirst) == o &&
      ChoiceAt(t, o).value.cells == CellsOf(t, p, reverse, horizontalFirst)
  {
    PatchIsEligible(t, o / 4);
    EligibleFits(t, PatchAt(t, o / 4).value);
    OrderSplits(o);
    hide PatchAt, CostOf, CellsOf, GainOf, Worth, Eligible, GridPlace;
  }

  lemma OrderSplits(o: nat)
    ensures o == o / 4 * 4 + (if o / 2 % 2 == 1 then 2 else 0) + if o % 2 == 0 then 0 else 1
  {
  }

  /** What the exhaustive search over the listed candidates chooses is unbeaten among all
      that the map allows. */
  lemma BestIsUnbeaten(t: Task, o: nat)
    requires t.Valid() && Best(t, o)
    ensures Unbeaten(t, ChoiceAt(t, o).value.patch, o / 2 % 2 == 1, o % 2 == 0)
  {
    hide ChoiceAt, CostOf, CellsOf, Worth, Eligible, PlaceOf;
    var p, reverse, horizontalFirst := ChoiceAt(t, o).value.patch, o / 2 % 2 == 1, o % 2 == 0;
    ChoiceIsEligible(t, o);
    EligibleIsChoice(t, p, reverse, horizontalFirst);
    forall q: Patch, backwards: bool, acrossFirst: bool | Eligible(t, q)
      ensures p.Fits(t.g) && q.Fits(t.g) && AsGood(t, p, reverse, horizontalFirst, q, backwards, acrossFirst)
    {
      EligibleIsChoice(t, q, backwards, acrossFirst);
      var other: nat := PlaceOf(t, q, backwards, acrossFirst);
      assert other != o ==> Beats(ChoiceAt(t, o).value, o, ChoiceAt(t, other).value, other);
    }
  }

  // ----- the lower bound -----

  /** No candidate is cheaper than its distance and its length. */
  lemma CostIsBounded(t: Task, p: Patch, reverse: bool, horizontalFirst: bool)
    requires t.Valid() && p.Fits(t.g)
    ensures
      var entry := OrderOf(t, p, reverse)[0];
      CostOf(t, p, reverse, horizontalFirst) >=
        Apart(Col(t.g.width, entry), t.x) + Apart(Row(t.g.width, entry), t.y) + RouteLength(p.side, Loops(t, p)) - 1 + (if Loops(t, p) then 1 else 0)
  {
    hide Row, Col, Walk, AllLand;
    var order := OrderOf(t, p, reverse);
    CoordinatesOfAt(t.g.width, t.x, t.y);
    WalksCostTheirLength(t.land, t.owners, t.country, t.From(), CellsOf(t, p, reverse, horizontalFirst));
  }

  lemma PatchIsWorthIt(t: Task, q: nat)
    requires t.Valid() && q < MAX_PATCHES && PatchAt(t, q).Some?
    ensures PatchAt(t, q).value.Fits(t.g) && PatchAt(t, q).value.side == t.side && GainOf(t, PatchAt(t, q).value) > 0
  {
    hide GainOf, Row, Col;
  }

  lemma SweepsTakeSteps(side: Positive, loop: bool)
    requires side > 1 || loop
    ensures RouteLength(side, loop) - 1 + (if loop then 1 else 0) > 0
  {
    Distribute(1, side - 1, side);
    MultiplesAreApart(side, side - 1);
  }

  lemma CandidatesCost(t: Task, o: nat)
    requires t.Valid() && o < CANDIDATES && ChoiceAt(t, o).Some?
    ensures ChoiceAt(t, o).value.cost > 0 && ChoiceAt(t, o).value.gain > 0
  {
    hide Row, Col, CostOf, CellsOf, PatchAt, GainOf, Loops, OrderOf, RouteLength;
    PatchIsWorthIt(t, o / 4);
    var p := PatchAt(t, o / 4).value;
    CostIsBounded(t, p, o / 2 % 2 == 1, o % 2 == 0);
    if p.side == 1 {
      SingleCellLoops(t, p);
    }
    SweepsTakeSteps(p.side, Loops(t, p));
  }

  /** A single cell worth anything is land, so its sweep is a loop. */
  lemma SingleCellLoops(t: Task, p: Patch)
    requires t.Valid() && p.Fits(t.g) && p.side == 1 && GainOf(t, p) > 0
    ensures Loops(t, p)
  {
    assert GainUpto(t, p, 1) == GainUpto(t, p, 0) + CellGain(t, SquareCellOf(t, p, 0));
    assert SquareCellOf(t, p, 0) == CellAt(t.g, p.left, p.top);
  }

  // ----- listing the patches -----

  datatype Listed = Listed(q: nat, patch: Patch, gain: nat, loop: bool, reverseEntry: nat)

  predicate IsListed(t: Task, e: Listed)
    requires t.Valid()
  {
    e.q < MAX_PATCHES && PatchAt(t, e.q) == Some(e.patch) && e.patch.Fits(t.g) && e.patch.side == t.side &&
    e.gain == GainOf(t, e.patch) && e.loop == Loops(t, e.patch) && e.reverseEntry == OrderOf(t, e.patch, true)[0] < t.g.Size()
  }

  function EntryOf(t: Task, e: Listed, reverse: bool): nat
    requires t.Valid() && e.patch.Fits(t.g)
  {
    if reverse then e.reverseEntry else CellAt(t.g, e.patch.left, e.patch.top)
  }

  /** Distance to the entry, and the length of the sweep. */
  function LowerBound(t: Task, entry: nat, loop: bool): int
    requires t.Valid()
  {
    Apart(Col(t.g.width, entry), t.x) + Apart(Row(t.g.width, entry), t.y) + RouteLength(t.side, loop) - 1 + if loop then 1 else 0
  }

  lemma EntriesAreEnds(t: Task, p: Patch)
    requires t.Valid() && p.Fits(t.g)
    ensures OrderOf(t, p, false)[0] == CellAt(t.g, p.left, p.top)
    ensures
      var patch, n := CellAt(t.g, p.left, p.top), p.side;
      OrderOf(t, p, true)[0] == (if Loops(t, p) then (if n > 1 then patch + t.g.width else patch)
                                 else patch + (n - 1) * t.g.width + if (n - 1) % 2 != 0 then 0 else n - 1)
  {
    hide CellAt, Loops, Sweep;
    EntryOfSweep(t.g, p, Loops(t, p));
  }

  /** One place of the grid: left out off the map, when reserved, and when worthless. */
  method ConsiderPatch(t: Task, q: nat, dx: int, dy: int) returns (e: Option<Listed>)
    requires t.Valid() && q < MAX_PATCHES && dx == q % PATCH_GRID - 4 && dy == q / PATCH_GRID - 4
    ensures e.None? <==> PatchAt(t, q).None?
    ensures e.Some? ==> IsListed(t, e.value) && e.value.q == q
  {
    hide Row, Col, At, GainOf, AllLand, OrderOf;
    var top := t.y / t.side * t.side + dy * t.side;
    if top < 0 || top + t.side > t.g.height {
      return None;
    }
    var left := t.x / t.side * t.side + dx * t.side;
    if left < 0 || left + t.side > t.g.width {
      return None;
    }
    var patch := CellAt(t.g, left, top);
    if patch as int in t.reserved {
      return None;
    }
    var p := Patch(left, top, t.side);
    var gain := CountGain(t, p);
    if gain == 0 {
      return None;
    }
    var loop := IsAllLand(t.g, t.land, p);
    EntriesAreEnds(t, p);
    var n: nat := t.side;
    var reverseEntry := if loop then (if n > 1 then patch + t.g.width else patch)
                        else patch + (n - 1) * t.g.width + if (n - 1) % 2 != 0 then 0 else n - 1;
    return Some(Listed(q, p, gain, loop, reverseEntry));
  }

  ghost predicate AllListed(t: Task, patches: seq<Listed>, n: nat)
    requires t.Valid() && n <= MAX_PATCHES
  {
    (forall i :: 0 <= i < |patches| ==> IsListed(t, patches[i]) && patches[i].q < n) &&
    forall q: nat :: q < n && PatchAt(t, q).Some? ==> exists i :: 0 <= i < |patches| && patches[i].q == q
  }

  lemma ListedNext(t: Task, patches: seq<Listed>, n: nat, e: Option<Listed>)
    requires t.Valid() && n < MAX_PATCHES && AllListed(t, patches, n)
    requires e.None? <==> PatchAt(t, n).None?
    requires e.Some? ==> IsListed(t, e.value) && e.value.q == n
    ensures AllListed(t, if e.Some? then patches + [e.value] else patches, n + 1)
  {
    hide PatchAt, IsListed;
    var more := if e.Some? then patches + [e.value] else patches;
    forall q: nat | q < n + 1 && PatchAt(t, q).Some?
      ensures exists i :: 0 <= i < |more| && more[i].q == q
    {
      if q == n {
        assert more[|patches|].q == q;
      } else {
        var i :| 0 <= i < |patches| && patches[i].q == q;
        assert more[i].q == q;
      }
    }
  }

  /** All patches worth a visit, and one to start from. */
  method ListPatches(t: Task) returns (patches: seq<Listed>, seed: int)
    requires t.Valid()
    ensures AllListed(t, patches, MAX_PATCHES) && -1 <= seed < |patches| && (seed == -1 <==> patches == [])
  {
    hide PatchAt, IsListed, AllListed, LowerBound;
    patches, seed := [], -1;
    var seedGain, seedLower := 0, 1;
    NothingListed(t);
    ghost var q := 0;
    for dy := -4 to 5
      invariant q == (dy + 4) * 9 && AllListed(t, patches, q) && -1 <= seed < |patches| && (seed == -1 <==> patches == [])
    {
      for dx := -4 to 5
        invariant q == (dy + 4) * 9 + dx + 4 && AllListed(t, patches, q) && -1 <= seed < |patches| && (seed == -1 <==> patches == [])
      {
        var e := ConsiderPatch(t, (dy + 4) * 9 + dx + 4, dx, dy);
        ListedNext(t, patches, q, e);
        if e.Some? {
          ListedFits(t, e.value);
          var forward := LowerBound(t, EntryOf(t, e.value, false), e.value.loop);
          var backward := LowerBound(t, EntryOf(t, e.value, true), e.value.loop);
          var lower := if forward < backward then forward else backward;
          patches := patches + [e.value];
          if seed < 0 || e.value.gain * seedLower > seedGain * lower {
            seed, seedGain, seedLower := |patches| - 1, e.value.gain, lower;
          }
        }
        q := q + 1;
      }
    }
  }

  lemma NothingListed(t: Task)
    requires t.Valid()
    ensures AllListed(t, [], 0)
  {
  }

  lemma ListedFits(t: Task, e: Listed)
    requires t.Valid() && IsListed(t, e)
    ensures e.patch.Fits(t.g) && e.q < MAX_PATCHES
  {
  }

  // ----- evaluating them -----

  datatype Winner = Winner(order: nat, gain: nat, cost: nat, patch: Patch, sweep: seq<nat>, reverse: bool, horizontalFirst: bool, loop: bool)

  predicate IsWinner(t: Task, w: Winner)
    requires t.Valid()
  {
    w.order < CANDIDATES && w.reverse == (w.order / 2 % 2 == 1) && w.horizontalFirst == (w.order % 2 == 0) &&
    w.patch.Fits(t.g) && w.loop == Loops(t, w.patch) && w.sweep == Sweep(t.g, w.patch, w.loop) &&
    ChoiceAt(t, w.order) == Some(Choice(w.patch, w.gain, w.cost, CellsOf(t, w.patch, w.reverse, w.horizontalFirst)))
  }

  /** The best so far beats everything done so far. */
  ghost predicate Leads(t: Task, best: Option<Winner>, done: set<nat>)
    requires t.Valid()
  {
    (best.None? ==> done == {}) &&
    (best.Some? ==> IsWinner(t, best.value) && best.value.order in done) &&
    forall o :: o in done ==> best.Some? && Trails(t, best.value.order, o)
  }

  predicate Trails(t: Task, leader: nat, o: nat)
    requires t.Valid()
  {
    o < CANDIDATES && ChoiceAt(t, o).Some? && leader < CANDIDATES && ChoiceAt(t, leader).Some? &&
    (o == leader || Beats(ChoiceAt(t, leader).value, leader, ChoiceAt(t, o).value, o))
  }

  /** The new candidate stays behind. */
  lemma StillLeads(t: Task, best: Winner, done: set<nat>, o: nat)
    requires t.Valid() && Leads(t, Some(best), done) && Trails(t, best.order, o)
    ensures Leads(t, Some(best), done + {o})
  {
    hide ChoiceAt, IsWinner, Beats;
  }

  /** The new candidate takes the lead. */
  lemma TakesLead(t: Task, best: Option<Winner>, done: set<nat>, w: Winner)
    requires t.Valid() && Leads(t, best, done) && IsWinner(t, w)
    requires best.Some? ==> Beats(ChoiceAt(t, w.order).value, w.order, ChoiceAt(t, best.value.order).value, best.value.order)
    ensures Leads(t, Some(w), done + {w.order})
  {
    hide Beats, Loops, CellsOf, ChoiceAt;
    WinnerIsCandidate(t, w);
    CandidatesCost(t, w.order);
    forall o | o in done
      ensures Trails(t, w.order, o)
    {
      assert Trails(t, best.value.order, o);
      CandidatesCost(t, o);
      CandidatesCost(t, best.value.order);
      if o != best.value.order {
        BeatsIsTransitive(ChoiceAt(t, w.order).value, w.order, ChoiceAt(t, best.value.order).value, best.value.order, ChoiceAt(t, o).value, o);
      }
    }
  }

  lemma WinnerIsCandidate(t: Task, w: Winner)
    requires t.Valid() && IsWinner(t, w)
    ensures w.order < CANDIDATES && ChoiceAt(t, w.order).Some?
    ensures ChoiceAt(t, w.order).value.gain == w.gain && ChoiceAt(t, w.order).value.cost == w.cost
  {
  }

  /** The place in the canonical order of a patch, entry and axis. */
  function OrderAt(q: nat, r: nat, h: nat): nat {
    q * 4 + r * 2 + h
  }

  lemma OrderParts(q: nat, r: nat, h: nat)
    requires q < MAX_PATCHES && r < 2 && h < 2
    ensures
      var o := OrderAt(q, r, h);
      o < CANDIDATES && o / 4 == q && o / 2 % 2 == r && o % 2 == h
  {
  }

  /** The candidate of a listed patch, entry and axis. */
  lemma CandidateOf(t: Task, e: Listed, r: nat, h: nat)
    requires t.Valid() && IsListed(t, e) && r < 2 && h < 2
    ensures
      var o := OrderAt(e.q, r, h);
      o < CANDIDATES && o / 4 == e.q && o / 2 % 2 == r && o % 2 == h &&
      ChoiceAt(t, o) == Some(Choice(e.patch, e.gain, CostOf(t, e.patch, r == 1, h == 0), CellsOf(t, e.patch, r == 1, h == 0)))
  {
    hide PatchAt, CostOf, CellsOf, Loops, OrderOf, OrderAt;
    OrderParts(e.q, r, h);
  }

  /** Pruning never discards a winner or a tie. */
  lemma PruneIsSafe(t: Task, e: Listed, r: nat, h: nat, best: Winner)
    requires t.Valid() && e.patch.Fits(t.g) && IsListed(t, e) && r < 2 && h < 2 && IsWinner(t, best)
    requires e.gain * best.cost < best.gain * LowerBound(t, EntryOf(t, e, r == 1), e.loop)
    ensures Trails(t, best.order, OrderAt(e.q, r, h))
  {
    hide CostOf, CellsOf, Loops, OrderOf, PatchAt, Row, Col, OrderAt;
    CandidateOf(t, e, r, h);
    WinnerIsCandidate(t, best);
    CostIsBounded(t, e.patch, r == 1, h == 0);
    EntriesAreEnds(t, e.patch);
    CandidatesCost(t, best.order);
    var lower, cost := LowerBound(t, EntryOf(t, e, r == 1), e.loop), CostOf(t, e.patch, r == 1, h == 0);
    assert lower <= cost;
    SmallerProduct(lower, cost, best.gain);
    Products(best.gain, 1, cost);
  }


  lemma LeadsIsWinner(t: Task, best: Option<Winner>, done: set<nat>)
    requires t.Valid() && Leads(t, best, done)
    ensures best.Some? ==> IsWinner(t, best.value) && best.value.order in done && best.value.gain > 0
    ensures best.Some? ==> ChoiceAt(t, best.value.order).Some?
    ensures best.Some? ==> ChoiceAt(t, best.value.order).value.gain == best.value.gain
    ensures best.Some? ==> ChoiceAt(t, best.value.order).value.cost == best.value.cost
  {
    hide ChoiceAt, Loops, CellsOf;
    if best.Some? {
      WinnerIsCandidate(t, best.value);
      CandidatesCost(t, best.value.order);
    }
  }

  method MaterializeSweep(g: Board, p: Patch, loop: bool) returns (sweep: seq<nat>)
    requires p.Fits(g)
    ensures sweep == Sweep(g, p, loop)
  {
    var cells := new nat[RouteLength(p.side, loop)](_ => 0);
    if loop {
      FillPerimeter(g, p, cells);
    } else {
      FillSnake(g, p, cells);
    }
    assert cells[..] == cells[..cells.Length];
    return cells[..];
  }

  /** What the scorer returns is the cost of the candidate, and the candidate wins or not by it. */
  lemma ScoredIsCost(t: Task, e: Listed, sweep: seq<nat>, r: nat, h: nat, cost: nat)
    requires t.Valid() && IsListed(t, e) && e.patch.Fits(t.g) && r < 2 && h < 2 && sweep == Sweep(t.g, e.patch, e.loop) && sweep != []
    requires
      var order := if r == 1 then Reversed(sweep) else sweep;
      Within(order, t.g.Size()) && cost == Walk(t.land, t.owners, t.country, t.From(), PlanCells(t.g, t.From(), order, h == 0, e.loop))
    ensures cost == CostOf(t, e.patch, r == 1, h == 0)
    ensures IsWinner(t, Winner(OrderAt(e.q, r, h), e.gain, cost, e.patch, sweep, r == 1, h == 0, e.loop))
  {
    hide PatchAt, Loops, Sweep, PlanCells, Walk, GainOf, OrderAt, ChoiceAt;
    CandidateOf(t, e, r, h);
  }

  lemma SweepsAreNotEmpty(g: Board, p: Patch, loop: bool)
    requires p.Fits(g)
    ensures Sweep(g, p, loop) != []
  {
    EntryOfSweep(g, p, loop);
  }

  /** The comparison by products decides who leads. */
  lemma ComparisonDecides(t: Task, w: Winner, best: Winner)
    requires t.Valid() && IsWinner(t, w) && IsWinner(t, best)
    ensures w.order < CANDIDATES && best.order < CANDIDATES && ChoiceAt(t, w.order).Some? && ChoiceAt(t, best.order).Some?
    ensures
      var lhs, rhs := w.gain * best.cost, best.gain * w.cost;
      if lhs > rhs || (lhs == rhs && w.order < best.order)
      then Beats(ChoiceAt(t, w.order).value, w.order, ChoiceAt(t, best.order).value, best.order)
      else w.order == best.order || Beats(ChoiceAt(t, best.order).value, best.order, ChoiceAt(t, w.order).value, w.order)
  {
    hide ChoiceAt, Loops, CellsOf;
    WinnerIsCandidate(t, w);
    WinnerIsCandidate(t, best);
  }

  /** A scored candidate takes the lead or trails. */
  method Compare(t: Task, w: Winner, best: Option<Winner>, ghost done: set<nat>) returns (next: Option<Winner>)
    requires t.Valid() && IsWinner(t, w) && Leads(t, best, done)
    ensures next.Some? && Leads(t, next, done + {w.order})
  {
    hide ChoiceAt, Leads, IsWinner, Beats;
    LeadsIsWinner(t, best, done);
    if best.None? {
      TakesLead(t, best, done, w);
      return Some(w);
    }
    ComparisonDecides(t, w, best.value);
    var lhs, rhs := w.gain * best.value.cost, best.value.gain * w.cost;
    if lhs > rhs || (lhs == rhs && w.order < best.value.order) {
      TakesLead(t, best, done, w);
      return Some(w);
    }
    if w.order == best.value.order {
      assert done + {w.order} == done;
    } else {
      StillLeads(t, best.value, done, w.order);
    }
    return best;
  }

  ghost predicate Reads(scorer: Scorer, t: Task)
    reads scorer, scorer.owners, scorer.paintedFlags
  {
    scorer.Valid() && scorer.g == t.g && scorer.land == t.land && scorer.owners[..] == t.owners
  }

  /** One candidate: prune it, or score it and compare. */
  method Evaluate(scorer: Scorer, t: Task, e: Listed, r: nat, h: nat, best: Option<Winner>, ghost done: set<nat>) returns (next: Option<Winner>)
    requires t.Valid() && Reads(scorer, t) && IsListed(t, e) && r < 2 && h < 2 && Leads(t, best, done)
    modifies scorer, scorer.paintedFlags
    ensures Reads(scorer, t) && next.Some? && Leads(t, next, done + {OrderAt(e.q, r, h)})
  {
    hide ChoiceAt, PatchAt, CostOf, CellsOf, Loops, Leads, LowerBound, Beats, GainOf, IsListed, IsWinner, PlanCells, Walk, Sweep, CellAt, OrderAt;
    ListedFits(t, e);
    LeadsIsWinner(t, best, done);
    if best.Some? {
      var lower := LowerBound(t, EntryOf(t, e, r == 1), e.loop);
      if e.gain * best.value.cost < best.value.gain * lower {
        PruneIsSafe(t, e, r, h, best.value);
        StillLeads(t, best.value, done, OrderAt(e.q, r, h));
        return best;
      }
    }
    var sweep := MaterializeSweep(t.g, e.patch, e.loop);
    SweepsAreNotEmpty(t.g, e.patch, e.loop);
    var cost := scorer.ScoreCells(t.country, t.From(), sweep, r == 1, h == 0, e.loop);
    ScoredIsCost(t, e, sweep, r, h, cost);
    next := Compare(t, Winner(OrderAt(e.q, r, h), e.gain, cost, e.patch, sweep, r == 1, h == 0, e.loop), best, done);
  }

  /** The orders of the four candidates of a patch. */
  ghost function OrdersOf(q: nat): set<nat> {
    {q * 4, q * 4 + 1, q * 4 + 2, q * 4 + 3}
  }

  /** All four candidates of a patch. */
  method EvaluatePatch(scorer: Scorer, t: Task, e: Listed, best: Option<Winner>, ghost done: set<nat>) returns (next: Option<Winner>)
    requires t.Valid() && Reads(scorer, t) && IsListed(t, e) && Leads(t, best, done)
    modifies scorer, scorer.paintedFlags
    ensures Reads(scorer, t) && next.Some?
    ensures Leads(t, next, done + OrdersOf(e.q))
  {
    hide Leads, IsListed, Reads;
    next := Evaluate(scorer, t, e, 0, 0, best, done);
    next := Evaluate(scorer, t, e, 0, 1, next, done + {e.q * 4});
    next := Evaluate(scorer, t, e, 1, 0, next, done + {e.q * 4} + {e.q * 4 + 1});
    next := Evaluate(scorer, t, e, 1, 1, next, done + {e.q * 4} + {e.q * 4 + 1} + {e.q * 4 + 2});
    assert done + {e.q * 4} + {e.q * 4 + 1} + {e.q * 4 + 2} + {e.q * 4 + 3} == done + OrdersOf(e.q);
  }

  // ----- the plan -----

  datatype Plan = Plan(patch: nat, cells: seq<nat>)

  /** The orders of the listed patches up to n in the evaluation order. */
  ghost function DoneWith(patches: seq<Listed>, evaluated: set<int>): set<nat> {
    set o: nat | o < CANDIDATES && exists i :: i in evaluated && 0 <= i < |patches| && patches[i].q == o / 4
  }

  lemma DoneNext(t: Task, patches: seq<Listed>, evaluated: set<int>, i: int)
    requires t.Valid() && AllListed(t, patches, MAX_PATCHES) && 0 <= i < |patches|
    ensures
      var q := patches[i].q;
      DoneWith(patches, evaluated + {i}) == DoneWith(patches, evaluated) + OrdersOf(q)
  {
    hide PatchAt, GainOf, Loops, OrderOf;
    var q := patches[i].q;
    forall o: nat | o < CANDIDATES
      ensures o in DoneWith(patches, evaluated + {i}) <==> o in DoneWith(patches, evaluated) + OrdersOf(q)
    {
      if o in DoneWith(patches, evaluated) {
        var j :| j in evaluated && 0 <= j < |patches| && patches[j].q == o / 4;
        assert j in evaluated + {i};
      }
      if o / 4 == q {
        assert i in evaluated + {i};
      }
    }
  }

  /** With every patch evaluated, the leader is the exhaustive choice. */
  lemma LeaderIsBest(t: Task, patches: seq<Listed>, evaluated: set<int>, best: Winner)
    requires t.Valid() && AllListed(t, patches, MAX_PATCHES) && forall i :: 0 <= i < |patches| ==> i in evaluated
    requires Leads(t, Some(best), DoneWith(patches, evaluated))
    ensures Best(t, best.order)
  {
    hide Beats, IsWinner, PatchAt, IsListed;
    LeadsIsWinner(t, Some(best), DoneWith(patches, evaluated));
    forall other: nat | other < CANDIDATES && other != best.order && ChoiceAt(t, other).Some?
      ensures Beats(ChoiceAt(t, best.order).value, best.order, ChoiceAt(t, other).value, other)
    {
      var i :| 0 <= i < |patches| && patches[i].q == other / 4;
      assert other in DoneWith(patches, evaluated);
      assert Trails(t, best.order, other);
    }
  }

  /** The best is unique, so the plan is. */
  lemma BestIsUnique(t: Task, a: nat, b: nat)
    requires t.Valid() && Best(t, a) && Best(t, b)
    ensures a == b
  {
    hide ChoiceAt;
  }

  /** The seed comes first, then the others in canonical order. */
  function EvalAt(seed: int, k: nat): int {
    if k == 0 then seed else if k <= seed then k - 1 else k
  }

  ghost function Visited(seed: int, n: nat): set<int> {
    set k | 0 <= k < n :: EvalAt(seed, k)
  }

  /** Every patch is evaluated, whichever was the seed. */
  lemma AllVisited(seed: int, n: nat)
    requires 0 <= seed < n
    ensures forall i :: 0 <= i < n ==> i in Visited(seed, n)
  {
    forall i | 0 <= i < n
      ensures i in Visited(seed, n)
    {
      var k := if i == seed then 0 else if i < seed then i + 1 else i;
      assert EvalAt(seed, k) == i;
    }
  }

  lemma VisitedNext(seed: int, n: nat)
    ensures Visited(seed, 0) == {} && Visited(seed, n + 1) == Visited(seed, n) + {EvalAt(seed, n)}
  {
  }

  lemma NothingToChoose(t: Task, patches: seq<Listed>)
    requires t.Valid() && AllListed(t, patches, MAX_PATCHES) && patches == []
    ensures forall o: nat :: o < CANDIDATES ==> ChoiceAt(t, o).None?
  {
    hide PatchAt, IsListed;
  }

  lemma NobodyLeads(t: Task, patches: seq<Listed>)
    requires t.Valid()
    ensures Leads(t, None, DoneWith(patches, {}))
  {
    assert DoneWith(patches, {}) == {};
  }

  lemma ListedAt(t: Task, patches: seq<Listed>, i: int)
    requires t.Valid() && AllListed(t, patches, MAX_PATCHES) && 0 <= i < |patches|
    ensures IsListed(t, patches[i])
  {
    hide IsListed;
  }

  lemma BestIsChoice(t: Task, w: Winner)
    requires t.Valid() && IsWinner(t, w)
    ensures w.order < CANDIDATES && ChoiceAt(t, w.order).Some? && w.patch.Fits(t.g)
    ensures ChoiceAt(t, w.order).value.patch == w.patch
    ensures ChoiceAt(t, w.order).value.cells == CellsOf(t, w.patch, w.reverse, w.horizontalFirst)
  {
    hide CellsOf, Loops, Sweep;
  }

  /** Only the winner's cells are built. */
  method MaterializePlan(t: Task, w: Winner) returns (cells: seq<nat>)
    requires t.Valid() && IsWinner(t, w)
    ensures w.patch.Fits(t.g) && cells == CellsOf(t, w.patch, w.reverse, w.horizontalFirst)
  {
    hide ChoiceAt, Loops, Approach, Sweep;
    var from := t.From();
    SweepsAreNotEmpty(t.g, w.patch, w.loop);
    var order := if w.reverse then Reversed(w.sweep) else w.sweep;
    var there := MaterializeApproach(t.g, from, order[0], w.horizontalFirst);
    cells := there + order[1..];
    if w.loop {
      cells := cells + [order[0]];
    } else if from == order[0] {
      var back := MaterializeApproach(t.g, order[|order| - 1], from, w.horizontalFirst);
      cells := cells + back;
    } else {
      assert cells + [] == cells;
    }
  }

  function PlanOf(t: Task, c: Choice): Plan
    requires t.Valid()
  {
    Plan(c.patch.top * t.g.width + c.patch.left, c.cells)
  }

  /** The plan is for an unbeaten patch, entered and approached that way. */
  ghost predicate IsPlan(t: Task, plan: Plan, p: Patch, reverse: bool, horizontalFirst: bool)
    requires t.Valid()
  {
    Unbeaten(t, p, reverse, horizontalFirst) && p.Fits(t.g) &&
    plan == Plan(CellAt(t.g, p.left, p.top), CellsOf(t, p, reverse, horizontalFirst))
  }

  /** The map offers the bot nothing to gain. */
  ghost predicate NothingToGain(t: Task)
    requires t.Valid()
  {
    forall p: Patch :: !Eligible(t, p)
  }

  ghost predicate Planned(t: Task, plan: Plan)
    requires t.Valid()
  {
    exists p: Patch, reverse: bool, horizontalFirst: bool :: IsPlan(t, plan, p, reverse, horizontalFirst)
  }

  lemma BestIsPlanned(t: Task, o: nat)
    requires t.Valid() && Best(t, o)
    ensures Planned(t, PlanOf(t, ChoiceAt(t, o).value)) && !NothingToGain(t)
  {
    hide ChoiceAt, IsPlan, Eligible, Beats;
    PlanIsBest(t, o);
    PlanIsEligible(t, PlanOf(t, ChoiceAt(t, o).value), ChoiceAt(t, o).value.patch, o / 2 % 2 == 1, o % 2 == 0);
  }

  lemma PlanIsEligible(t: Task, plan: Plan, p: Patch, reverse: bool, horizontalFirst: bool)
    requires t.Valid() && IsPlan(t, plan, p, reverse, horizontalFirst)
    ensures Eligible(t, p)
  {
    hide Eligible, AsGood;
  }

  lemma PlanIsBest(t: Task, o: nat)
    requires t.Valid() && Best(t, o)
    ensures IsPlan(t, PlanOf(t, ChoiceAt(t, o).value), ChoiceAt(t, o).value.patch, o / 2 % 2 == 1, o % 2 == 0)
  {
    BestIsUnbeaten(t, o);
    ChoiceIsEligible(t, o);
    hide ChoiceAt, CostOf, CellsOf, Worth, Unbeaten;
  }

  lemma NoChoiceNoPatch(t: Task)
    requires t.Valid()
    ensures (forall o: nat :: o < CANDIDATES ==> ChoiceAt(t, o).None?) <==> NothingToGain(t)
  {
    hide ChoiceAt, Eligible, PlaceOf;
    if p: Patch :| Eligible(t, p) {
      EligibleIsChoice(t, p, false, true);
      var o: nat := PlaceOf(t, p, false, true);
      assert ChoiceAt(t, o).Some?;
    }
    if o: nat :| o < CANDIDATES && ChoiceAt(t, o).Some? {
      ChoiceIsEligible(t, o);
    }
  }

  /** The plan of the exhaustive choice, whatever patch is evaluated first. */
  method PlanBot(scorer: Scorer, t: Task) returns (plan: Option<Plan>)
    requires t.Valid() && Reads(scorer, t)
    modifies scorer, scorer.paintedFlags
    ensures plan.None? <==> NothingToGain(t)
    ensures plan.Some? ==> Planned(t, plan.value) && exists o: nat :: Best(t, o) && plan.value == PlanOf(t, ChoiceAt(t, o).value)
  {
    hide NothingToGain, Planned;
    hide ChoiceAt, PatchAt, Leads, IsListed, Reads, AllListed, Best, CellsOf, IsWinner, DoneWith, Visited;
    var patches, seed := ListPatches(t);
    if seed < 0 {
      NothingToChoose(t, patches);
      NoChoiceNoPatch(t);
      return None;
    }
    var best: Option<Winner> := None;
    ghost var evaluated: set<int> := {};
    NobodyLeads(t, patches);
    VisitedNext(seed, 0);
    for oi := 0 to |patches|
      invariant Reads(scorer, t) && evaluated == Visited(seed, oi)
      invariant Leads(t, best, DoneWith(patches, evaluated)) && (oi > 0 ==> best.Some?)
    {
      var pi := EvalAt(seed, oi);
      ListedAt(t, patches, pi);
      best := EvaluatePatch(scorer, t, patches[pi], best, DoneWith(patches, evaluated));
      DoneNext(t, patches, evaluated, pi);
      VisitedNext(seed, oi);
      evaluated := evaluated + {pi};
    }
    AllVisited(seed, |patches|);
    LeadsIsWinner(t, best, DoneWith(patches, evaluated));
    LeaderIsBest(t, patches, evaluated, best.value);
    BestIsChoice(t, best.value);
    var w := best.value;
    var cells := MaterializePlan(t, w);
    assert Best(t, w.order);
    plan := Some(Plan(w.patch.top * t.g.width + w.patch.left, cells));
    BestIsPlanned(t, w.order);
    assert plan.value == PlanOf(t, ChoiceAt(t, w.order).value);
  }
}
