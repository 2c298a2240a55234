/** The bot planner: routes, their cost, and the choice among them.

    A plan's cost is the cost of walking its cells one after another, painting as one
    goes.  The planner scores without building the cells and prunes by a lower bound;
    it still picks what an exhaustive search would. */
module Bots {
  import opened Basics
  import opened Grid
  import opened Rounds

  // ----- walking -----

  predicate Within(cells: seq<nat>, n: nat) {
    forall k :: 0 <= k < |cells| ==> cells[k] < n
  }

  function PaintedBy(land: seq<bool>, owners: seq<nat>, country: nat, cell: nat): (r: seq<nat>)
    requires cell < |land| == |owners|
    ensures |r| == |owners|
  {
    if land[cell] then owners[cell := country] else owners
  }

  /** The cost of walking the cells: every land cell entered belongs to the walker from then on. */
  function Walk(land: seq<bool>, owners: seq<nat>, country: nat, cur: nat, cells: seq<nat>): nat
    requires cur < |land| == |owners| && Within(cells, |land|)
    decreases |cells|
  {
    if cells == [] then 0
    else
      StepCost(land, country, cur, cells[0], owners[cells[0]]) +
      Walk(land, PaintedBy(land, owners, country, cells[0]), country, cells[0], cells[1..])
  }

  /** Every step costs something, so no walk is cheaper than it is long. */
  lemma {:induction false} WalksCostTheirLength(land: seq<bool>, owners: seq<nat>, country: nat, cur: nat, cells: seq<nat>)
    requires cur < |land| == |owners| && Within(cells, |land|)
    ensures Walk(land, owners, country, cur, cells) >= |cells|
    decreases |cells|
  {
    if cells != [] {
      WalksCostTheirLength(land, PaintedBy(land, owners, country, cells[0]), country, cells[0], cells[1..]);
    }
  }

  // ----- straight runs and approaches -----

  function Toward(a: nat, b: nat): nat {
    if a < b then a + 1 else if b < a then a - 1 else a
  }

  function Apart(a: nat, b: nat): nat {
    if a < b then b - a else a - b
  }

  function RunX(g: Board, x: nat, tx: nat, y: nat): (cells: seq<nat>)
    requires x < g.width && tx < g.width && y < g.height
    ensures |cells| == Apart(x, tx) && Within(cells, g.Size())
    decreases Apart(x, tx)
  {
    if x == tx then [] else [CellAt(g, Toward(x, tx), y)] + RunX(g, Toward(x, tx), tx, y)
  }

  function RunY(g: Board, x: nat, y: nat, ty: nat): (cells: seq<nat>)
    requires x < g.width && y < g.height && ty < g.height
    ensures |cells| == Apart(y, ty) && Within(cells, g.Size())
    decreases Apart(y, ty)
  {
    if y == ty then [] else [CellAt(g, x, Toward(y, ty))] + RunY(g, x, Toward(y, ty), ty)
  }

  /** Two straight legs, horizontal or vertical first. */
  function Legs(g: Board, x: nat, y: nat, tx: nat, ty: nat, horizontalFirst: bool): (cells: seq<nat>)
    requires x < g.width && tx < g.width && y < g.height && ty < g.height
    ensures |cells| == Apart(x, tx) + Apart(y, ty) && Within(cells, g.Size())
  {
    if horizontalFirst then RunX(g, x, tx, y) + RunY(g, tx, y, ty)
    else RunY(g, x, y, ty) + RunX(g, x, tx, ty)
  }

  function Approach(g: Board, from: nat, to: nat, horizontalFirst: bool): (cells: seq<nat>)
    requires from < g.Size() && to < g.Size()
    ensures Within(cells, g.Size())
    ensures |cells| == Apart(Col(g.width, from), Col(g.width, to)) + Apart(Row(g.width, from), Row(g.width, to))
  {
    RowsAreBounded(g, from);
    RowsAreBounded(g, to);
    Legs(g, Col(g.width, from), Row(g.width, from), Col(g.width, to), Row(g.width, to), horizontalFirst)
  }

  /** The approach, cell by cell: one phase runs along the row, the other along the column. */
  method MaterializeApproach(g: Board, from: nat, to: nat, horizontalFirst: bool) returns (cells: seq<nat>)
    requires from < g.Size() && to < g.Size()
    ensures cells == Approach(g, from, to, horizontalFirst)
  {
    hide Row, Col, RunX, RunY;
    RowsAreBounded(g, from);
    RowsAreBounded(g, to);
    CoordinatesAreQuotients(g.width, from);
    CoordinatesAreQuotients(g.width, to);
    var x, y, tx, ty := from % g.width, from / g.width, to % g.width, to / g.width;
    if horizontalFirst {
      var first := MaterializeRow(g, x, tx, y);
      var second := MaterializeColumn(g, tx, y, ty);
      return first + second;
    }
    var first := MaterializeColumn(g, x, y, ty);
    var second := MaterializeRow(g, x, tx, ty);
    return first + second;
  }

  method MaterializeRow(g: Board, from: nat, tx: nat, y: nat) returns (cells: seq<nat>)
    requires from < g.width && tx < g.width && y < g.height
    ensures cells == RunX(g, from, tx, y)
  {
    cells := [];
    var x: nat := from;
    while x != tx
      invariant x < g.width && cells + RunX(g, x, tx, y) == RunX(g, from, tx, y)
      decreases Apart(x, tx)
    {
      x := Toward(x, tx);
      cells := cells + [CellAt(g, x, y)];
    }
  }

  method MaterializeColumn(g: Board, x: nat, from: nat, ty: nat) returns (cells: seq<nat>)
    requires x < g.width && from < g.height && ty < g.height
    ensures cells == RunY(g, x, from, ty)
  {
    cells := [];
    var y: nat := from;
    while y != ty
      invariant y < g.height && cells + RunY(g, x, y, ty) == RunY(g, x, from, ty)
      decreases Apart(y, ty)
    {
      y := Toward(y, ty);
      cells := cells + [CellAt(g, x, y)];
    }
  }

  // ----- sweeps -----

  /** A square of the map. */
  datatype Patch = Patch(left: nat, top: nat, side: Positive) {
    predicate Fits(g: Board) {
      left + side <= g.width && top + side <= g.height
    }
  }

  /** Row by row, every other row backwards. */
  function Snake(g: Board, p: Patch): (cells: seq<nat>)
    requires p.Fits(g)
    ensures |cells| == p.side * p.side && Within(cells, g.Size())
  {
    var area := Board(p.side, p.side);
    seq(area.Size(), i requires 0 <= i < area.Size() => SnakeCell(g, p, i))
  }

  function SnakeCell(g: Board, p: Patch, i: nat): nat
    requires p.Fits(g) && i < p.side * p.side
    ensures SnakeCell(g, p, i) < g.Size()
  {
    RowsAreBounded(Board(p.side, p.side), i);
    var x, y := Col(p.side, i), Row(p.side, i);
    CellAt(g, p.left + if y % 2 != 0 then p.side - 1 - x else x, p.top + y)
  }

  /** Around the edge, clockwise from the top left corner. */
  function Perimeter(g: Board, p: Patch): (cells: seq<nat>)
    requires p.Fits(g)
    ensures |cells| == RouteLength(p.side, true) && Within(cells, g.Size())
  {
    var n := p.side;
    seq(RouteLength(n, true), i requires 0 <= i < RouteLength(n, true) => PerimeterCell(g, p, i))
  }

  function PerimeterCell(g: Board, p: Patch, i: nat): nat
    requires p.Fits(g) && i < RouteLength(p.side, true)
    ensures PerimeterCell(g, p, i) < g.Size()
  {
    var n := p.side;
    if i < n then CellAt(g, p.left + i, p.top)
    else if i < 2 * n - 1 then CellAt(g, p.left + n - 1, p.top + i - n + 1)
    else if i < 3 * n - 2 then CellAt(g, p.left + 3 * n - 3 - i, p.top + n - 1)
    else CellAt(g, p.left, p.top + 4 * n - 4 - i)
  }

  /** A closed edge, or the whole square. */
  function RouteLength(side: Positive, loop: bool): nat {
    if loop then (if side > 1 then side * 4 - 4 else 1) else side * side
  }

  predicate AllLand(land: seq<bool>, cells: seq<nat>)
    requires Within(cells, |land|)
  {
    forall k :: 0 <= k < |cells| ==> land[cells[k]]
  }

  function Sweep(g: Board, p: Patch, loop: bool): (cells: seq<nat>)
    requires p.Fits(g)
    ensures |cells| == RouteLength(p.side, loop) && Within(cells, g.Size())
  {
    if loop then Perimeter(g, p) else Snake(g, p)
  }

  function Reversed(s: seq<nat>): (r: seq<nat>)
    ensures |r| == |s| && forall k :: 0 <= k < |s| ==> r[k] == s[|s| - 1 - k]
  {
    seq(|s|, k requires 0 <= k < |s| => s[|s| - 1 - k])
  }

  /** The cells of a plan: the approach, the sweep, and the way to close it. */
  function PlanCells(g: Board, from: nat, order: seq<nat>, horizontalFirst: bool, loop: bool): (cells: seq<nat>)
    requires from < g.Size() && order != [] && Within(order, g.Size())
    ensures Within(cells, g.Size())
  {
    Approach(g, from, order[0], horizontalFirst) + order[1..] +
    ReturnCells(g, order[|order| - 1], from, order[0], horizontalFirst, loop)
  }

  /** The last part of a plan: a coastal sweep must enter its starting cell too. */
  function ReturnCells(g: Board, exit: nat, from: nat, entry: nat, horizontalFirst: bool, loop: bool): (cells: seq<nat>)
    requires exit < g.Size() && from < g.Size() && entry < g.Size()
    ensures Within(cells, g.Size())
  {
    if loop then [entry] else if from == entry then Approach(g, exit, from, horizontalFirst) else []
  }

  lemma PlanInThree(g: Board, from: nat, order: seq<nat>, horizontalFirst: bool, loop: bool)
    requires from < g.Size() && order != [] && Within(order, g.Size())
    ensures PlanCells(g, from, order, horizontalFirst, loop) ==
      Approach(g, from, order[0], horizontalFirst) + (order[1..] + ReturnCells(g, order[|order| - 1], from, order[0], horizontalFirst, loop))
  {
    hide Approach;
  }

  // ----- the ends of a sweep -----

  lemma EntryOfSweep(g: Board, p: Patch, loop: bool)
    requires p.Fits(g)
    ensures
      var r, n, patch := Sweep(g, p, loop), p.side, CellAt(g, p.left, p.top);
      |r| > 0 && r[0] == patch &&
      r[|r| - 1] == (if loop then (if n > 1 then patch + g.width else patch)
                     else patch + (n - 1) * g.width + if (n - 1) % 2 != 0 then 0 else n - 1)
  {
    hide Row, Col;
    var n: nat := p.side;
    CoordinatesOfAt(p.side, n - 1, n - 1);
    LastOfSquare(p.side);
    CoordinatesOfAt(p.side, 0, 0);
    assert n * n > 0;
    if !loop {
      assert Row(p.side, n * n - 1) == n - 1 && Col(p.side, n * n - 1) == n - 1;
      assert Row(p.side, 0) == 0 && Col(p.side, 0) == 0;
    }
    Distribute(p.top, n - 1, g.width);
    Distribute(p.top, 1, g.width);
  }

  lemma LastOfSquare(n: Positive)
    ensures At(n, n - 1, n - 1) == n * n - 1 && At(n, 0, 0) == 0
  {
    Distribute(n - 1, 1, n);
  }

  // ----- filling the scratch routes -----

  /** Which side a place on the perimeter is on, and where. */
  lemma PerimeterIs(g: Board, p: Patch, i: nat)
    requires p.Fits(g) && i < RouteLength(p.side, true)
    ensures
      var n := p.side;
      PerimeterCell(g, p, i) ==
        if i < n then CellAt(g, p.left + i, p.top)
        else if i < 2 * n - 1 then CellAt(g, p.left + n - 1, p.top + i - n + 1)
        else if i < 3 * n - 2 then CellAt(g, p.left + 3 * n - 3 - i, p.top + n - 1)
        else CellAt(g, p.left, p.top + 4 * n - 4 - i)
  {
  }

  /** The four sides one after another. */
  method FillPerimeter(g: Board, p: Patch, cells: array<nat>)
    requires p.Fits(g) && cells.Length >= RouteLength(p.side, true)
    modifies cells
    ensures cells[..RouteLength(p.side, true)] == Perimeter(g, p)
  {
    hide CellAt, PerimeterCell;
    var n: nat := p.side;
    var i: nat := 0;
    for x := 0 to n
      invariant i == x && forall k :: 0 <= k < i ==> cells[k] == PerimeterCell(g, p, k)
    {
      PerimeterIs(g, p, i);
      cells[i] := CellAt(g, p.left + x, p.top);
      i := i + 1;
    }
    for y := 1 to n
      invariant i == n + y - 1 && forall k :: 0 <= k < i ==> cells[k] == PerimeterCell(g, p, k)
    {
      PerimeterIs(g, p, i);
      cells[i] := CellAt(g, p.left + n - 1, p.top + y);
      i := i + 1;
    }
    var x: int := n - 2;
    while x >= 0
      invariant -1 <= x && i == (if n > 1 then 3 * n - 3 - x else 1) && (n == 1 ==> x == -1)
      invariant i <= RouteLength(p.side, true) + 1
      invariant forall k :: 0 <= k < i && k < RouteLength(p.side, true) ==> cells[k] == PerimeterCell(g, p, k)
    {
      PerimeterIs(g, p, i);
      cells[i] := CellAt(g, p.left + x, p.top + n - 1);
      i := i + 1;
      x := x - 1;
    }
    var y: int := n - 2;
    while y > 0
      invariant (n > 1 ==> 0 <= y && i == 4 * n - 4 - y) && (n == 1 ==> y == -1 && i == 1)
      invariant forall k :: 0 <= k < i ==> cells[k] == PerimeterCell(g, p, k)
    {
      PerimeterIs(g, p, i);
      cells[i] := CellAt(g, p.left, p.top + y);
      i := i + 1;
      y := y - 1;
    }
  }

  /** The square row by row, odd rows backwards. */
  method FillSnake(g: Board, p: Patch, cells: array<nat>)
    requires p.Fits(g) && cells.Length >= p.side * p.side
    modifies cells
    ensures cells[..p.side * p.side] == Snake(g, p)
  {
    hide Row, Col, CellAt, At;
    var n: nat := p.side;
    var i: nat := 0;
    RowStarts(p.side, 0);
    for y := 0 to n
      invariant i == At(n, 0, y) && forall k :: 0 <= k < i && k < n * n ==> cells[k] == SnakeCell(g, p, k)
    {
      RowStarts(p.side, y);
      for x := 0 to n
        invariant i == At(n, x, y) && forall k :: 0 <= k < i && k < n * n ==> cells[k] == SnakeCell(g, p, k)
      {
        SquareCell(p.side, x, y);
        cells[i] := CellAt(g, p.left + if y % 2 != 0 then n - 1 - x else x, p.top + y);
        i := i + 1;
      }
    }
    RowStarts(p.side, n);
  }

  lemma RowStarts(n: Positive, y: nat)
    ensures At(n, 0, 0) == 0 && At(n, n, y) == At(n, 0, y + 1) && At(n, 0, n) == n * n
    ensures forall x :: At(n, x + 1, y) == At(n, x, y) + 1
  {
    Distribute(y, 1, n);
  }

  lemma SquareCell(n: Positive, x: nat, y: nat)
    requires x < n && y < n
    ensures 0 <= At(n, x, y) < n * n && Col(n, At(n, x, y)) == x && Row(n, At(n, x, y)) == y
  {
    CoordinatesOfAt(n, x, y);
    RowsAreBounded(Board(n, n), At(n, x, y));
  }

  /** A straight segment: equal strides from its start. */
  ghost predicate Strides(cells: seq<nat>, start: nat, step: nat) {
    (cells != [] ==> cells[0] == start) && forall i :: 0 <= i < |cells| - 1 ==> cells[i + 1] == cells[i] + step
  }

  method SegmentAllLand(land: seq<bool>, start: nat, step: nat, count: nat, ghost cells: seq<nat>) returns (all: bool)
    requires |cells| == count && Strides(cells, start, step) && Within(cells, |land|)
    ensures all <==> AllLand(land, cells)
  {
    var cell := start;
    for i := 0 to count
      invariant i < count ==> cell == cells[i]
      invariant forall k :: 0 <= k < i ==> land[cells[k]]
    {
      if !land[cell] {
        return false;
      }
      cell := cell + step;
    }
    return true;
  }

  function RowCell(g: Board, x: nat, y: nat, i: nat): (cell: nat)
    requires x + i < g.width && y < g.height
    ensures cell < g.Size()
  {
    CellAt(g, x + i, y)
  }

  function ColumnCell(g: Board, x: nat, y: nat, i: nat): (cell: nat)
    requires x < g.width && y + i < g.height
    ensures cell < g.Size()
  {
    CellAt(g, x, y + i)
  }

  /** Part of a row, and part of a column. */
  function RowOf(g: Board, x: nat, y: nat, n: nat): (cells: seq<nat>)
    requires x + n <= g.width && y < g.height
    ensures |cells| == n && Within(cells, g.Size())
  {
    seq(n, i requires 0 <= i < n => RowCell(g, x, y, i))
  }

  function ColumnOf(g: Board, x: nat, y: nat, n: nat): (cells: seq<nat>)
    requires x < g.width && y + n <= g.height
    ensures |cells| == n && Within(cells, g.Size())
  {
    seq(n, i requires 0 <= i < n => ColumnCell(g, x, y, i))
  }

  lemma RowStrides(g: Board, x: nat, y: nat, n: nat)
    requires x + n <= g.width && y < g.height && x < g.width
    ensures Strides(RowOf(g, x, y, n), y * g.width + x, 1)
  {
    hide Row, Col;
  }

  lemma ColumnStrides(g: Board, x: nat, y: nat, n: nat)
    requires x < g.width && y + n <= g.height && y < g.height
    ensures Strides(ColumnOf(g, x, y, n), y * g.width + x, g.width)
  {
    hide Row, Col;
    var cells := ColumnOf(g, x, y, n);
    forall i | 0 <= i < |cells| - 1
      ensures cells[i + 1] == cells[i] + g.width
    {
      assert cells[i] == ColumnCell(g, x, y, i) && cells[i + 1] == ColumnCell(g, x, y, i + 1);
      Distribute(y + i, 1, g.width);
    }
  }

  lemma NorthSouthAreAround(g: Board, p: Patch, i: nat)
    requires p.Fits(g) && i < p.side
    ensures RowCell(g, p.left, p.top, i) in Perimeter(g, p) && RowCell(g, p.left, p.top + p.side - 1, i) in Perimeter(g, p)
  {
    hide CellAt;
    var n: nat, around := p.side, Perimeter(g, p);
    assert around[i] == RowCell(g, p.left, p.top, i);
    var below := if n == 1 then 0 else if i == n - 1 then 2 * n - 2 else 3 * n - 3 - i;
    assert around[below] == RowCell(g, p.left, p.top + n - 1, i);
  }

  lemma EastWestAreAround(g: Board, p: Patch, i: nat)
    requires p.Fits(g) && i + 1 < p.side
    ensures ColumnCell(g, p.left + p.side - 1, p.top + 1, i) in Perimeter(g, p) && ColumnCell(g, p.left, p.top + 1, i) in Perimeter(g, p)
  {
    hide CellAt;
    var n: nat, around := p.side, Perimeter(g, p);
    assert around[n + i] == ColumnCell(g, p.left + n - 1, p.top + 1, i);
    var beside := if i == n - 2 then 3 * n - 3 else 4 * n - 5 - i;
    assert around[beside] == ColumnCell(g, p.left, p.top + 1, i);
  }

  /** Every cell of the perimeter is on a side. */
  lemma AroundIsSides(g: Board, p: Patch, k: nat)
    requires p.Fits(g) && k < RouteLength(p.side, true)
    ensures
      var cell := Perimeter(g, p)[k];
      cell in RowOf(g, p.left, p.top, p.side) || cell in ColumnOf(g, p.left + p.side - 1, p.top + 1, p.side - 1) ||
      cell in RowOf(g, p.left, p.top + p.side - 1, p.side) || cell in ColumnOf(g, p.left, p.top + 1, p.side - 1)
  {
    hide CellAt;
    var n: nat, cell := p.side, Perimeter(g, p)[k];
    if k < n {
      assert RowOf(g, p.left, p.top, n)[k] == cell;
    } else if k < 2 * n - 1 {
      assert ColumnOf(g, p.left + n - 1, p.top + 1, n - 1)[k - n] == cell;
    } else if k < 3 * n - 2 {
      assert RowOf(g, p.left, p.top + n - 1, n)[3 * n - 3 - k] == cell;
    } else {
      assert ColumnOf(g, p.left, p.top + 1, n - 1)[4 * n - 5 - k] == cell;
    }
  }

  lemma AllLandMeans(land: seq<bool>, cells: seq<nat>)
    requires Within(cells, |land|)
    ensures AllLand(land, cells) <==> forall c :: c in cells ==> c < |land| && land[c]
  {
  }

  /** The perimeter is its four sides. */
  lemma FourSides(g: Board, land: seq<bool>, p: Patch)
    requires p.Fits(g) && |land| == g.Size()
    ensures AllLand(land, Perimeter(g, p)) <==>
      AllLand(land, RowOf(g, p.left, p.top, p.side)) && AllLand(land, ColumnOf(g, p.left + p.side - 1, p.top + 1, p.side - 1)) &&
      AllLand(land, RowOf(g, p.left, p.top + p.side - 1, p.side)) && AllLand(land, ColumnOf(g, p.left, p.top + 1, p.side - 1))
  {
    hide Perimeter, RowCell, ColumnCell;
    var n: nat, around := p.side, Perimeter(g, p);
    if AllLand(land, around) {
      AllLandMeans(land, around);
      var north, south := RowOf(g, p.left, p.top, n), RowOf(g, p.left, p.top + n - 1, n);
      var east, west := ColumnOf(g, p.left + n - 1, p.top + 1, n - 1), ColumnOf(g, p.left, p.top + 1, n - 1);
      forall i | 0 <= i < n
        ensures land[north[i]] && land[south[i]]
      {
        NorthSouthAreAround(g, p, i);
      }
      forall i | 0 <= i < n - 1
        ensures land[east[i]] && land[west[i]]
      {
        EastWestAreAround(g, p, i);
      }
    } else {
      var k :| 0 <= k < |around| && !land[around[k]];
      AroundIsSides(g, p, k);
    }
  }

  method IsAllLand(g: Board, land: seq<bool>, p: Patch) returns (all: bool)
    requires p.Fits(g) && |land| == g.Size()
    ensures all <==> AllLand(land, Perimeter(g, p))
  {
    hide Strides, AllLand, RowOf, ColumnOf, Perimeter;
    var left, top, side: nat := p.left, p.top, p.side;
    FourSides(g, land, p);
    RowStrides(g, left, top, side);
    RowStrides(g, left, top + side - 1, side);
    all := SegmentAllLand(land, top * g.width + left, 1, side, RowOf(g, left, top, side));
    if all && side > 1 {
      ColumnStrides(g, left + side - 1, top + 1, side - 1);
      all := SegmentAllLand(land, (top + 1) * g.width + left + side - 1, g.width, side - 1, ColumnOf(g, left + side - 1, top + 1, side - 1));
    }
    if all {
      all := SegmentAllLand(land, (top + side - 1) * g.width + left, 1, side, RowOf(g, left, top + side - 1, side));
    }
    if all && side > 1 {
      ColumnStrides(g, left, top + 1, side - 1);
      all := SegmentAllLand(land, (top + 1) * g.width + left, g.width, side - 1, ColumnOf(g, left, top + 1, side - 1));
    }
    NoCells(g, land, p);
  }

  lemma NoCells(g: Board, land: seq<bool>, p: Patch)
    requires p.Fits(g) && |land| == g.Size()
    ensures p.side == 1 ==>
      AllLand(land, ColumnOf(g, p.left + p.side - 1, p.top + 1, p.side - 1)) && AllLand(land, ColumnOf(g, p.left, p.top + 1, p.side - 1))
  {
  }

  // ----- scoring -----

  const TOKENS: nat := 0x1_0000_0000

  /** A walk, one step at a time. */
  lemma WalkUnfolds(land: seq<bool>, owners: seq<nat>, country: nat, cur: nat, next: nat, rest: seq<nat>)
    requires cur < |land| == |owners| && next < |land| && Within(rest, |land|)
    ensures Walk(land, owners, country, cur, [next] + rest) ==
      StepCost(land, country, cur, next, owners[next]) + Walk(land, PaintedBy(land, owners, country, next), country, next, rest)
  {
    assert ([next] + rest)[1..] == rest;
  }

  lemma NoWalk(land: seq<bool>, owners: seq<nat>, country: nat, cur: nat)
    requires cur < |land| == |owners|
    ensures Walk(land, owners, country, cur, []) == 0
  {
  }

  lemma RunXUnfolds(g: Board, x: nat, tx: nat, y: nat, rest: seq<nat>)
    requires x < g.width && tx < g.width && y < g.height
    ensures RunX(g, x, tx, y) + rest ==
      if x == tx then rest else [CellAt(g, Toward(x, tx), y)] + (RunX(g, Toward(x, tx), tx, y) + rest)
  {
  }

  lemma RunYUnfolds(g: Board, x: nat, y: nat, ty: nat, rest: seq<nat>)
    requires x < g.width && y < g.height && ty < g.height
    ensures RunY(g, x, y, ty) + rest ==
      if y == ty then rest else [CellAt(g, x, Toward(y, ty))] + (RunY(g, x, Toward(y, ty), ty) + rest)
  {
  }

  /** The scratch of the scorer: which cells the plan being scored has painted. */
  class Scorer {
    const g: Board
    const land: seq<bool>
    const owners: array<nat>
    const paintedFlags: array<nat>
    var paintedToken: nat

    ghost predicate Valid()
      reads this, paintedFlags
    {
      |land| == owners.Length == paintedFlags.Length == g.Size() && owners != paintedFlags && paintedToken < TOKENS &&
      forall c :: 0 <= c < paintedFlags.Length ==> paintedFlags[c] <= paintedToken
    }

    /** Who owns each cell once the plan so far is painted. */
    ghost function Overlay(country: nat): (r: seq<nat>)
      requires Valid()
      reads this, paintedFlags, owners
      ensures |r| == g.Size()
    {
      seq(g.Size(), c requires 0 <= c < g.Size() reads this, owners, paintedFlags requires Valid() =>
        if paintedFlags[c] == paintedToken then country else owners[c])
    }

    constructor (g: Board, land: seq<bool>, owners: array<nat>)
      requires |land| == owners.Length == g.Size()
      ensures Valid() && this.g == g && this.land == land && this.owners == owners && fresh(paintedFlags)
    {
      this.g, this.land, this.owners := g, land, owners;
      paintedFlags := new nat[g.Size()](_ => 0);
      paintedToken := 0;
    }

    /** A fresh token: nothing is painted yet, also after the tokens wrap around. */
    method BeginScoring(country: nat)
      requires Valid()
      modifies this, paintedFlags
      ensures Valid() && Overlay(country) == owners[..]
    {
      paintedToken := (paintedToken + 1) % TOKENS;
      if paintedToken == 0 {
        for i := 0 to paintedFlags.Length
          invariant forall c :: 0 <= c < i ==> paintedFlags[c] == 0
          invariant owners[..] == old(owners[..])
        {
          paintedFlags[i] := 0;
        }
        paintedToken := 1;
      }
    }

    /** One step of a walk: its cost, and the paint it leaves. */
    method ScoreStep(country: nat, cur: nat, next: nat) returns (cost: nat)
      requires Valid() && cur < g.Size() && next < g.Size()
      modifies paintedFlags
      ensures Valid() && paintedToken == old(paintedToken)
      ensures cost == StepCost(land, country, cur, next, old(Overlay(country))[next])
      ensures Overlay(country) == PaintedBy(land, old(Overlay(country)), country, next)
    {
      var owner := if paintedFlags[next] == paintedToken then country else owners[next];
      cost := StepCost(land, country, cur, next, owner);
      if land[next] {
        paintedFlags[next] := paintedToken;
      }
    }

    /** Along the row; `rest` is what the walk does afterwards. */
    method ScoreRow(country: nat, from: nat, x: nat, tx: nat, y: nat, ghost rest: seq<nat>) returns (cost: nat, cur: nat)
      requires Valid() && from < g.Size() && x < g.width && tx < g.width && y < g.height && Within(rest, g.Size())
      requires from == CellAt(g, x, y)
      modifies paintedFlags
      ensures Valid() && paintedToken == old(paintedToken) && cur == CellAt(g, tx, y)
      ensures cost + Walk(land, Overlay(country), country, cur, rest) == Walk(land, old(Overlay(country)), country, from, RunX(g, x, tx, y) + rest)
    {
      hide CellAt, StepCost, Walk, RunX, PaintedBy;
      cost, cur := 0, from;
      var at: nat := x;
      ghost var total := Walk(land, Overlay(country), country, from, RunX(g, x, tx, y) + rest);
      while at != tx
        invariant Valid() && paintedToken == old(paintedToken) && at < g.width && cur == CellAt(g, at, y)
        invariant cost + Walk(land, Overlay(country), country, cur, RunX(g, at, tx, y) + rest) == total
        decreases Apart(at, tx)
      {
        RunXUnfolds(g, at, tx, y, rest);
        at := Toward(at, tx);
        var next := CellAt(g, at, y);
        WalkUnfolds(land, Overlay(country), country, cur, next, RunX(g, at, tx, y) + rest);
        var step := ScoreStep(country, cur, next);
        cost, cur := cost + step, next;
      }
      RunXUnfolds(g, at, tx, y, rest);
    }

    method ScoreColumn(country: nat, from: nat, x: nat, y: nat, ty: nat, ghost rest: seq<nat>) returns (cost: nat, cur: nat)
      requires Valid() && from < g.Size() && x < g.width && y < g.height && ty < g.height && Within(rest, g.Size())
      requires from == CellAt(g, x, y)
      modifies paintedFlags
      ensures Valid() && paintedToken == old(paintedToken) && cur == CellAt(g, x, ty)
      ensures cost + Walk(land, Overlay(country), country, cur, rest) == Walk(land, old(Overlay(country)), country, from, RunY(g, x, y, ty) + rest)
    {
      hide CellAt, StepCost, Walk, RunY, PaintedBy;
      cost, cur := 0, from;
      var at: nat := y;
      ghost var total := Walk(land, Overlay(country), country, from, RunY(g, x, y, ty) + rest);
      while at != ty
        invariant Valid() && paintedToken == old(paintedToken) && at < g.height && cur == CellAt(g, x, at)
        invariant cost + Walk(land, Overlay(country), country, cur, RunY(g, x, at, ty) + rest) == total
        decreases Apart(at, ty)
      {
        RunYUnfolds(g, x, at, ty, rest);
        at := Toward(at, ty);
        var next := CellAt(g, x, at);
        WalkUnfolds(land, Overlay(country), country, cur, next, RunY(g, x, at, ty) + rest);
        var step := ScoreStep(country, cur, next);
        cost, cur := cost + step, next;
      }
      RunYUnfolds(g, x, at, ty, rest);
    }

    /** Both legs of an approach. */
    method ScoreApproach(country: nat, from: nat, to: nat, horizontalFirst: bool, ghost rest: seq<nat>) returns (cost: nat)
      requires Valid() && from < g.Size() && to < g.Size() && Within(rest, g.Size())
      modifies paintedFlags
      ensures Valid() && paintedToken == old(paintedToken)
      ensures cost + Walk(land, Overlay(country), country, to, rest) == Walk(land, old(Overlay(country)), country, from, Approach(g, from, to, horizontalFirst) + rest)
    {
      hide Walk, RunX, RunY, Row, Col;
      RowsAreBounded(g, from);
      RowsAreBounded(g, to);
      CoordinatesAreQuotients(g.width, from);
      CoordinatesAreQuotients(g.width, to);
      var x, y, tx, ty := from % g.width, from / g.width, to % g.width, to / g.width;
      var first, second, cur;
      if horizontalFirst {
        ghost var turn := RunY(g, tx, y, ty);
        assert Approach(g, from, to, horizontalFirst) + rest == RunX(g, x, tx, y) + (turn + rest);
        first, cur := ScoreRow(country, from, x, tx, y, turn + rest);
        second, cur := ScoreColumn(country, cur, tx, y, ty, rest);
      } else {
        ghost var turn := RunX(g, x, tx, ty);
        assert Approach(g, from, to, horizontalFirst) + rest == RunY(g, x, y, ty) + (turn + rest);
        first, cur := ScoreColumn(country, from, x, y, ty, turn + rest);
        second, cur := ScoreRow(country, cur, x, tx, ty, rest);
      }
      cost := first + second;
    }

    /** The sweep after its first cell, forwards or backwards. */
    method ScoreSweep(country: nat, route: seq<nat>, reverse: bool, ghost order: seq<nat>, ghost rest: seq<nat>) returns (cost: nat, cur: nat)
      requires Valid() && route != [] && Within(route, g.Size()) && Within(rest, g.Size())
      requires order == if reverse then Reversed(route) else route
      modifies paintedFlags
      ensures Valid() && paintedToken == old(paintedToken) && cur == order[|order| - 1] && Within(order, g.Size())
      ensures cost + Walk(land, Overlay(country), country, cur, rest) == Walk(land, old(Overlay(country)), country, order[0], order[1..] + rest)
    {
      hide Walk, StepCost, PaintedBy;
      var last := |route| - 1;
      cost, cur := 0, if reverse then route[last] else route[0];
      for k := 1 to |route|
        invariant Valid() && paintedToken == old(paintedToken) && cur == order[k - 1]
        invariant cost + Walk(land, Overlay(country), country, cur, order[k..] + rest) == Walk(land, old(Overlay(country)), country, order[0], order[1..] + rest)
      {
        var next := if reverse then route[last - k] else route[k];
        assert order[k..] + rest == [next] + (order[k + 1..] + rest);
        WalkUnfolds(land, Overlay(country), country, cur, next, order[k + 1..] + rest);
        var step := ScoreStep(country, cur, next);
        cost, cur := cost + step, next;
      }
      assert order[|route|..] + rest == rest;
    }

    /** Closing a loop, or returning to a start the sweep never entered. */
    method ScoreReturn(country: nat, cur: nat, from: nat, entry: nat, horizontalFirst: bool, loop: bool) returns (cost: nat)
      requires Valid() && cur < g.Size() && from < g.Size() && entry < g.Size()
      modifies paintedFlags
      ensures Valid() && cost == Walk(land, old(Overlay(country)), country, cur, ReturnCells(g, cur, from, entry, horizontalFirst, loop))
    {
      hide Walk, StepCost, PaintedBy, Approach;
      cost := 0;
      ghost var tail := ReturnCells(g, cur, from, entry, horizontalFirst, loop);
      assert tail + [] == tail;
      if loop {
        var owner := if paintedFlags[entry] == paintedToken then country else owners[entry];
        cost := StepCost(land, country, cur, entry, owner);
        WalkUnfolds(land, Overlay(country), country, cur, entry, []);
        NoWalk(land, PaintedBy(land, Overlay(country), country, entry), country, entry);
      } else if from == entry {
        cost := ScoreApproach(country, cur, from, horizontalFirst, []);
        NoWalk(land, Overlay(country), country, from);
      } else {
        NoWalk(land, Overlay(country), country, cur);
      }
    }

    /** The cost of a plan without building it: exactly the cost of walking its cells. */
    method ScoreCells(country: nat, from: nat, route: seq<nat>, reverse: bool, horizontalFirst: bool, loop: bool) returns (cost: nat)
      requires Valid() && from < g.Size() && route != [] && Within(route, g.Size())
      modifies this, paintedFlags
      ensures Valid()
      ensures
        var order := if reverse then Reversed(route) else route;
        Within(order, g.Size()) && cost == Walk(land, owners[..], country, from, PlanCells(g, from, order, horizontalFirst, loop))
    {
      hide Walk, StepCost, PaintedBy, Approach, ReturnCells, PlanCells;
      BeginScoring(country);
      ghost var order := if reverse then Reversed(route) else route;
      var entry := if reverse then route[|route| - 1] else route[0];
      ghost var tail := ReturnCells(g, order[|order| - 1], from, entry, horizontalFirst, loop);
      PlanInThree(g, from, order, horizontalFirst, loop);
      var there := ScoreApproach(country, from, entry, horizontalFirst, order[1..] + tail);
      var sweep, cur := ScoreSweep(country, route, reverse, order, tail);
      var back := ScoreReturn(country, cur, from, entry, horizontalFirst, loop);
      cost := there + sweep + back;
    }
  }
}
