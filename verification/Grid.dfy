/** The rectangular board, its eight-adjacency, and plain reachability.

    A cell is its index `row * width + column`.  A country's "free" cells are the
    ones it does not own; a cell escapes when a route of free cells leads from it
    to the edge of the board.  Everything the engine does quickly is measured
    against these definitions. */
module Grid {
  import opened Basics

  datatype Board = Board(width: Positive, height: Positive) {
    /** The number of cells. */
    function Size(): nat {
      width * height
    }
  }

  /** Column of a cell: `cell % width` (see CoordinatesAreQuotients). */
  function Col(w: Positive, cell: nat): (x: nat)
    ensures x < w
  {
    if cell < w then cell else Col(w, cell - w)
  }

  /** Row of a cell: `cell / width`. */
  function Row(w: Positive, cell: nat): nat {
    if cell < w then 0 else 1 + Row(w, cell - w)
  }

  function At(w: Positive, x: int, y: int): int {
    y * w + x
  }

  lemma {:induction false} CoordinatesAreQuotients(w: Positive, cell: nat)
    ensures Col(w, cell) == cell % w
    ensures Row(w, cell) == cell / w
    ensures At(w, Col(w, cell), Row(w, cell)) == cell
  {
    if cell >= w {
      CoordinatesAreQuotients(w, cell - w);
      var q, r := (cell - w) / w, (cell - w) % w;
      assert cell - w == q * w + r;
      assert (q + 1) * w == q * w + w;
      QuotientIsUnique(w, q + 1, r, cell);
    } else {
      QuotientIsUnique(w, 0, cell, cell);
    }
  }

  lemma {:induction false} CoordinatesOfAt(w: Positive, x: nat, y: nat)
    requires x < w
    ensures 0 <= At(w, x, y)
    ensures Col(w, At(w, x, y)) == x && Row(w, At(w, x, y)) == y
  {
    if y > 0 {
      CoordinatesOfAt(w, x, y - 1);
      assert At(w, x, y) == At(w, x, y - 1) + w;
    }
  }

  lemma {:induction false} RowsAreBounded(g: Board, cell: nat)
    ensures cell < g.Size() <==> Row(g.width, cell) < g.height
  {
    CoordinatesAreQuotients(g.width, cell);
    var y := Row(g.width, cell);
    Distribute(y, g.height - y, g.width);
    MultiplesAreApart(g.width, g.height - y);
  }

  /** Cells are ordered by row, then by column. */
  lemma CellsAreRowMajor(w: Positive, a: nat, b: nat)
    ensures a < b <==> Row(w, a) < Row(w, b) || (Row(w, a) == Row(w, b) && Col(w, a) < Col(w, b))
    ensures a == b <==> Row(w, a) == Row(w, b) && Col(w, a) == Col(w, b)
  {
    hide Row, Col;
    CoordinatesAreQuotients(w, a);
    CoordinatesAreQuotients(w, b);
    Distribute(Row(w, a), Row(w, b) - Row(w, a), w);
    MultiplesAreApart(w, Row(w, b) - Row(w, a));
  }

  // ----- adjacency -----

  predicate OnEdge(g: Board, cell: nat) {
    Col(g.width, cell) == 0 || Col(g.width, cell) == g.width - 1 ||
    Row(g.width, cell) == 0 || Row(g.width, cell) == g.height - 1
  }

  /** Eight-adjacency: the cells differ by at most one in each coordinate.
      The board is planar here, so the first and last columns are not joined. */
  predicate Adjacent(w: Positive, a: nat, b: nat) {
    a != b &&
    -1 <= Col(w, a) - Col(w, b) <= 1 &&
    -1 <= Row(w, a) - Row(w, b) <= 1
  }

  /** The cell reached by a step, as the code computes it: one flat offset. */
  function Shift(w: Positive, cell: int, dx: int, dy: int): int {
    cell + dx + dy * w
  }

  predicate CanShift(g: Board, cell: nat, dx: int, dy: int) {
    0 <= Col(g.width, cell) + dx < g.width && 0 <= Row(g.width, cell) + dy < g.height
  }

  lemma ShiftMoves(g: Board, cell: nat, dx: int, dy: int)
    requires CanShift(g, cell, dx, dy)
    ensures 0 <= Shift(g.width, cell, dx, dy) < g.Size()
    ensures Col(g.width, Shift(g.width, cell, dx, dy)) == Col(g.width, cell) + dx
    ensures Row(g.width, Shift(g.width, cell, dx, dy)) == Row(g.width, cell) + dy
  {
    hide Row, Col;
    var w := g.width;
    CoordinatesAreQuotients(w, cell);
    var x, y := Col(w, cell) + dx, Row(w, cell) + dy;
    Distribute(Row(w, cell), dy, w);
    assert Shift(w, cell, dx, dy) == At(w, x, y);
    CoordinatesOfAt(w, x, y);
    RowsAreBounded(g, At(w, x, y));
  }

  /** The eight neighbours in cyclic order: NW, N, NE, E, SE, S, SW, W. */
  function RingX(i: nat): int
    requires i < 8
  {
    [-1, 0, 1, 1, 1, 0, -1, -1][i]
  }

  function RingY(i: nat): int
    requires i < 8
  {
    [-1, -1, -1, 0, 1, 1, 1, 0][i]
  }

  predicate HasNeighbour(g: Board, cell: nat, i: nat)
    requires i < 8
  {
    CanShift(g, cell, RingX(i), RingY(i))
  }

  function Neighbour(g: Board, cell: nat, i: nat): (n: nat)
    requires i < 8 && HasNeighbour(g, cell, i)
    ensures n < g.Size()
    ensures Col(g.width, n) == Col(g.width, cell) + RingX(i)
    ensures Row(g.width, n) == Row(g.width, cell) + RingY(i)
    ensures Adjacent(g.width, cell, n) && Adjacent(g.width, n, cell)
  {
    ShiftMoves(g, cell, RingX(i), RingY(i));
    Shift(g.width, cell, RingX(i), RingY(i))
  }

  lemma AdjacentIsNeighbour(g: Board, a: nat, b: nat) returns (i: nat)
    requires a < g.Size() && b < g.Size() && Adjacent(g.width, a, b)
    ensures i < 8 && HasNeighbour(g, a, i) && Neighbour(g, a, i) == b
  {
    var w := g.width;
    var dx, dy := Col(w, b) - Col(w, a), Row(w, b) - Row(w, a);
    CellsAreRowMajor(w, a, b);
    RowsAreBounded(g, b);
    i := if dy == -1 then dx + 1 else if dy == 1 then 5 - dx else if dx == 1 then 3 else 7;
    assert RingX(i) == dx && RingY(i) == dy;
    ShiftMoves(g, a, dx, dy);
    CellsAreRowMajor(w, Shift(w, a, dx, dy), b);
  }

  // ----- reachability -----

  ghost predicate Route(w: Positive, free: set<nat>, route: seq<nat>) {
    (forall k :: 0 <= k < |route| ==> route[k] in free) &&
    forall k :: 0 < k < |route| ==> Adjacent(w, route[k - 1], route[k])
  }

  ghost predicate RouteBetween(w: Positive, free: set<nat>, route: seq<nat>, a: nat, b: nat) {
    |route| > 0 && route[0] == a && route[|route| - 1] == b && Route(w, free, route)
  }

  ghost predicate Reach(w: Positive, free: set<nat>, a: nat, b: nat) {
    exists route: seq<nat> :: RouteBetween(w, free, route, a, b)
  }

  ghost predicate Escapes(g: Board, free: set<nat>, a: nat) {
    exists e: nat :: OnEdge(g, e) && Reach(g.width, free, a, e)
  }

  lemma ReachSelf(w: Positive, free: set<nat>, a: nat)
    requires a in free
    ensures Reach(w, free, a, a)
  {
    assert RouteBetween(w, free, [a], a, a);
  }

  lemma ReachStep(w: Positive, free: set<nat>, a: nat, b: nat)
    requires a in free && b in free && Adjacent(w, a, b)
    ensures Reach(w, free, a, b)
  {
    assert RouteBetween(w, free, [a, b], a, b);
  }

  lemma ReachInside(w: Positive, free: set<nat>, a: nat, b: nat)
    requires Reach(w, free, a, b)
    ensures a in free && b in free
  {
    var route :| RouteBetween(w, free, route, a, b);
  }

  lemma ReachTrans(w: Positive, free: set<nat>, a: nat, b: nat, c: nat)
    requires Reach(w, free, a, b) && Reach(w, free, b, c)
    ensures Reach(w, free, a, c)
  {
    var p :| RouteBetween(w, free, p, a, b);
    var q :| RouteBetween(w, free, q, b, c);
    var r := p + q[1..];
    forall k | 0 < k < |r|
      ensures Adjacent(w, r[k - 1], r[k])
    {
      if k >= |p| {
        assert r[k] == q[k - |p| + 1];
        assert r[k - 1] == q[k - |p|];
      }
    }
    assert RouteBetween(w, free, r, a, c);
  }

  lemma ReachSym(w: Positive, free: set<nat>, a: nat, b: nat)
    requires Reach(w, free, a, b)
    ensures Reach(w, free, b, a)
  {
    var p :| RouteBetween(w, free, p, a, b);
    var n := |p|;
    var r := seq(n, k requires 0 <= k < n => p[n - 1 - k]);
    forall k | 0 < k < n
      ensures Adjacent(w, r[k - 1], r[k])
    {
      assert Adjacent(w, p[n - 1 - k], p[n - k]);
    }
    assert RouteBetween(w, free, r, b, a);
  }

  lemma ReachGrows(w: Positive, free: set<nat>, more: set<nat>, a: nat, b: nat)
    requires free <= more && Reach(w, free, a, b)
    ensures Reach(w, more, a, b)
  {
    var route :| RouteBetween(w, free, route, a, b);
    assert RouteBetween(w, more, route, a, b);
  }

  ghost predicate Closed(w: Positive, free: set<nat>, cells: set<nat>) {
    forall a, b :: a in cells && b in free && Adjacent(w, a, b) ==> b in cells
  }

  /** A route that starts in a closed set never leaves it. */
  lemma ReachStaysClosed(w: Positive, free: set<nat>, cells: set<nat>, a: nat, b: nat)
    requires Closed(w, free, cells) && a in cells && Reach(w, free, a, b)
    ensures b in cells
  {
    var route :| RouteBetween(w, free, route, a, b);
    var k := 0;
    while k < |route| - 1
      invariant 0 <= k < |route| && route[k] in cells
    {
      assert Adjacent(w, route[k], route[k + 1]);
      k := k + 1;
    }
  }

  /** A closed set of cells away from the edge is a witness of enclosure. */
  lemma ClosedIsEnclosed(g: Board, free: set<nat>, cells: set<nat>, a: nat)
    requires Closed(g.width, free, cells) && a in cells
    requires forall b :: b in cells ==> !OnEdge(g, b)
    ensures !Escapes(g, free, a)
  {
    if Escapes(g, free, a) {
      var e: nat :| OnEdge(g, e) && Reach(g.width, free, a, e);
      ReachStaysClosed(g.width, free, cells, a, e);
    }
  }

  lemma EscapesAtEdge(g: Board, free: set<nat>, a: nat)
    requires a in free && OnEdge(g, a)
    ensures Escapes(g, free, a)
  {
    ReachSelf(g.width, free, a);
  }

  lemma EscapesVia(g: Board, free: set<nat>, a: nat, b: nat)
    requires Reach(g.width, free, a, b) && Escapes(g, free, b)
    ensures Escapes(g, free, a)
  {
    var e: nat :| OnEdge(g, e) && Reach(g.width, free, b, e);
    ReachTrans(g.width, free, a, b, e);
  }

  lemma EscapesGrows(g: Board, free: set<nat>, more: set<nat>, a: nat)
    requires free <= more && Escapes(g, free, a)
    ensures Escapes(g, more, a)
  {
    var e: nat :| OnEdge(g, e) && Reach(g.width, free, a, e);
    ReachGrows(g.width, free, more, a, e);
  }

  /** The first place where a route leaves a set of cells. */
  lemma ReachLeaves(w: Positive, free: set<nat>, cells: set<nat>, a: nat, b: nat) returns (last: nat, next: nat)
    requires Reach(w, free, a, b) && a in cells && b !in cells
    ensures last in cells && next !in cells && next in free && Adjacent(w, last, next)
    ensures Reach(w, free * cells, a, last)
  {
    var route :| RouteBetween(w, free, route, a, b);
    var k := 0;
    while route[k + 1] in cells
      invariant 0 <= k < |route| - 1
      invariant forall i :: 0 <= i <= k ==> route[i] in cells
      decreases |route| - k
    {
      k := k + 1;
    }
    last, next := route[k], route[k + 1];
    assert RouteBetween(w, free * cells, route[..k + 1], a, last);
  }

  // ----- countries -----

  /** The cells a country does not own. */
  ghost function Free(owners: seq<nat>, country: nat): set<nat> {
    set cell: nat | cell < |owners| && owners[cell] != country
  }

  /** The free cells that cannot reach the edge. */
  ghost function Enclosed(g: Board, owners: seq<nat>, country: nat): set<nat> {
    set cell | cell in Free(owners, country) && !Escapes(g, Free(owners, country), cell)
  }

  datatype Bounds = Bounds(left: nat, right: nat, top: nat, bottom: nat) {
    predicate Within(g: Board) {
      left <= right < g.width && top <= bottom < g.height
    }

    predicate Contains(w: Positive, cell: nat) {
      left <= Col(w, cell) <= right && top <= Row(w, cell) <= bottom
    }

    /** On the rectangle's rim or outside it. */
    predicate AtBoundary(x: int, y: int) {
      x <= left || x >= right || y <= top || y >= bottom
    }
  }

  /** The box contains every cell of the country. */
  ghost predicate Covers(g: Board, box: Bounds, owners: seq<nat>, country: nat) {
    box.Within(g) && forall cell :: 0 <= cell < |owners| && owners[cell] == country ==> box.Contains(g.width, cell)
  }

  predicate Strict(cells: seq<nat>) {
    forall i, j :: 0 <= i < j < |cells| ==> cells[i] < cells[j]
  }
}
