/** What the routes of a bot are: walks from cell to cell beside it, sweeps that enter every
    cell of their square or of its rim once, and costs that repaint as they go.

    Everything here is said by coordinates and owners alone. */
module Routes {
  import opened Basics
  import opened Grid
  import opened Enclosure
  import opened Rounds
  import opened Bots
  import opened Planning

  // ----- the cost of a walk -----

  /** Who owns the k-th cell of a walk when the walker enters it. */
  function OwnerThen(land: seq<bool>, owners: seq<nat>, country: nat, cells: seq<nat>, k: nat): nat
    requires |land| == |owners| && Within(cells, |land|) && k < |cells|
  {
    if land[cells[k]] && cells[k] in cells[..k] then country else owners[cells[k]]
  }

  /** The fares of the first n steps. */
  function Fares(land: seq<bool>, owners: seq<nat>, country: nat, from: nat, cells: seq<nat>, n: nat): nat
    requires from < |land| == |owners| && Within(cells, |land|) && n <= |cells|
  {
    if n == 0 then 0
    else
      Fares(land, owners, country, from, cells, n - 1) +
      StepCost(land, country, if n == 1 then from else cells[n - 2], cells[n - 1], OwnerThen(land, owners, country, cells, n - 1))
  }

  lemma {:induction false} FaresAfterFirst(land: seq<bool>, owners: seq<nat>, country: nat, from: nat, cells: seq<nat>, n: nat)
    requires from < |land| == |owners| && Within(cells, |land|) && 0 < n <= |cells|
    ensures Fares(land, owners, country, from, cells, n) ==
      StepCost(land, country, from, cells[0], owners[cells[0]]) +
      Fares(land, PaintedBy(land, owners, country, cells[0]), country, cells[0], cells[1..], n - 1)
  {
    hide StepCost;
    if n > 1 {
      FaresAfterFirst(land, owners, country, from, cells, n - 1);
      OwnerAfterFirst(land, owners, country, cells, n - 1);
      assert cells[1..][n - 2] == cells[n - 1];
    } else {
      assert cells[..0] == [];
    }
  }

  lemma OwnerAfterFirst(land: seq<bool>, owners: seq<nat>, country: nat, cells: seq<nat>, k: nat)
    requires |land| == |owners| && Within(cells, |land|) && 0 < k < |cells|
    ensures OwnerThen(land, owners, country, cells, k) ==
      OwnerThen(land, PaintedBy(land, owners, country, cells[0]), country, cells[1..], k - 1)
  {
    assert cells[..k] == [cells[0]] + cells[1..][..k - 1];
  }

  /** A walk costs the sum of its fares, each at the owner the cell has by then: the walker's
      country where the walk has passed over land before. */
  lemma {:induction false} WalkIsFares(land: seq<bool>, owners: seq<nat>, country: nat, from: nat, cells: seq<nat>)
    requires from < |land| == |owners| && Within(cells, |land|)
    ensures Walk(land, owners, country, from, cells) == Fares(land, owners, country, from, cells, |cells|)
    decreases |cells|
  {
    hide StepCost;
    if cells != [] {
      WalkIsFares(land, PaintedBy(land, owners, country, cells[0]), country, cells[0], cells[1..]);
      FaresAfterFirst(land, owners, country, from, cells, |cells|);
    }
  }

  // ----- walks -----

  /** One step along the row or along the column. */
  predicate Beside(g: Board, a: nat, b: nat) {
    (Row(g.width, a) == Row(g.width, b) && Apart(Col(g.width, a), Col(g.width, b)) == 1) ||
    (Col(g.width, a) == Col(g.width, b) && Apart(Row(g.width, a), Row(g.width, b)) == 1)
  }

  function Last(from: nat, cells: seq<nat>): nat {
    if cells == [] then from else cells[|cells| - 1]
  }

  /** The k-th cell is beside the one before it. */
  predicate Paced(g: Board, from: nat, cells: seq<nat>, k: nat)
    requires k < |cells|
  {
    Beside(g, if k == 0 then from else cells[k - 1], cells[k])
  }

  ghost predicate Paces(g: Board, from: nat, cells: seq<nat>) {
    forall k: nat :: k < |cells| ==> Paced(g, from, cells, k)
  }

  lemma PacesJoin(g: Board, from: nat, a: seq<nat>, b: seq<nat>)
    requires Paces(g, from, a) && Paces(g, Last(from, a), b)
    ensures Paces(g, from, a + b) && Last(from, a + b) == Last(Last(from, a), b)
  {
    hide Beside;
    var all := a + b;
    forall k: nat | k < |all|
      ensures Paced(g, from, all, k)
    {
      if k >= |a| {
        assert Paced(g, Last(from, a), b, k - |a|);
      } else {
        assert Paced(g, from, a, k);
      }
    }
  }

  lemma OnePace(g: Board, from: nat, to: nat)
    requires Beside(g, from, to)
    ensures Paces(g, from, [to])
  {
  }

  lemma NoPaces(g: Board, from: nat)
    ensures Paces(g, from, [])
  {
  }

  lemma {:induction false} RunXPaces(g: Board, x: nat, tx: nat, y: nat)
    requires x < g.width && tx < g.width && y < g.height
    ensures Paces(g, CellAt(g, x, y), RunX(g, x, tx, y)) && Last(CellAt(g, x, y), RunX(g, x, tx, y)) == CellAt(g, tx, y)
    decreases Apart(x, tx)
  {
    hide Row, Col, Paces;
    if x == tx {
      NoPaces(g, CellAt(g, x, y));
    } else {
      var next := Toward(x, tx);
      RunXPaces(g, next, tx, y);
      OnePace(g, CellAt(g, x, y), CellAt(g, next, y));
      PacesJoin(g, CellAt(g, x, y), [CellAt(g, next, y)], RunX(g, next, tx, y));
    }
  }

  lemma {:induction false} RunYPaces(g: Board, x: nat, y: nat, ty: nat)
    requires x < g.width && y < g.height && ty < g.height
    ensures Paces(g, CellAt(g, x, y), RunY(g, x, y, ty)) && Last(CellAt(g, x, y), RunY(g, x, y, ty)) == CellAt(g, x, ty)
    decreases Apart(y, ty)
  {
    hide Row, Col, Paces;
    if y == ty {
      NoPaces(g, CellAt(g, x, y));
    } else {
      var next := Toward(y, ty);
      RunYPaces(g, x, next, ty);
      OnePace(g, CellAt(g, x, y), CellAt(g, x, next));
      PacesJoin(g, CellAt(g, x, y), [CellAt(g, x, next)], RunY(g, x, next, ty));
    }
  }

  lemma SameCell(g: Board, cell: nat)
    requires cell < g.Size()
    ensures Row(g.width, cell) < g.height && CellAt(g, Col(g.width, cell), Row(g.width, cell)) == cell
  {
    hide Row, Col;
    RowsAreBounded(g, cell);
    CoordinatesAreQuotients(g.width, cell);
  }

  /** An approach leads from one cell to the other a pace at a time. */
  lemma ApproachPaces(g: Board, from: nat, to: nat, horizontalFirst: bool)
    requires from < g.Size() && to < g.Size()
    ensures Paces(g, from, Approach(g, from, to, horizontalFirst)) && Last(from, Approach(g, from, to, horizontalFirst)) == to
  {
    hide Row, Col, Paces, RunX, RunY, CellAt, Last;
    SameCell(g, from);
    SameCell(g, to);
    var x, y, tx, ty := Col(g.width, from), Row(g.width, from), Col(g.width, to), Row(g.width, to);
    if horizontalFirst {
      RunXPaces(g, x, tx, y);
      RunYPaces(g, tx, y, ty);
      PacesJoin(g, from, RunX(g, x, tx, y), RunY(g, tx, y, ty));
    } else {
      RunYPaces(g, x, y, ty);
      RunXPaces(g, x, tx, ty);
      PacesJoin(g, from, RunY(g, x, y, ty), RunX(g, x, tx, ty));
    }
  }

  // ----- sweeps -----

  /** The cells of the square's rim. */
  predicate OnRim(g: Board, p: Patch, cell: nat) {
    InSquare(g, p, cell) &&
    (Col(g.width, cell) == p.left || Col(g.width, cell) == p.left + p.side - 1 ||
     Row(g.width, cell) == p.top || Row(g.width, cell) == p.top + p.side - 1)
  }

  ghost predicate Once(cells: seq<nat>) {
    forall i, j :: 0 <= i < j < |cells| ==> cells[i] != cells[j]
  }

  /** Where the next place of a square comes. */
  lemma NextPlace(n: Positive, i: nat)
    ensures Col(n, i + 1) == if Col(n, i) == n - 1 then 0 else Col(n, i) + 1
    ensures Row(n, i + 1) == if Col(n, i) == n - 1 then Row(n, i) + 1 else Row(n, i)
  {
    hide Row, Col;
    CoordinatesAreQuotients(n, i);
    var x, y := Col(n, i), Row(n, i);
    Distribute(y, 1, n);
    if x == n - 1 {
      CoordinatesOfAt(n, 0, y + 1);
    } else {
      CoordinatesOfAt(n, x + 1, y);
    }
  }

  /** Coordinates of a place of the snake. */
  lemma SnakePlace(g: Board, p: Patch, i: nat)
    requires p.Fits(g) && i < p.side * p.side
    ensures
      var cell, x, y := SnakeCell(g, p, i), Col(p.side, i), Row(p.side, i);
      y < p.side && Row(g.width, cell) == p.top + y && Col(g.width, cell) == p.left + if y % 2 != 0 then p.side - 1 - x else x
  {
    hide Row, Col;
    RowsAreBounded(Board(p.side, p.side), i);
  }

  lemma SnakePace(g: Board, p: Patch, k: nat)
    requires p.Fits(g) && k + 1 < p.side * p.side
    ensures Beside(g, SnakeCell(g, p, k), SnakeCell(g, p, k + 1))
  {
    hide Row, Col, SnakeCell;
    SnakePlace(g, p, k);
    SnakePlace(g, p, k + 1);
    NextPlace(p.side, k);
    Turns(Row(p.side, k));
  }

  lemma Turns(y: nat)
    ensures (y + 1) % 2 != 0 <==> y % 2 == 0
  {
  }

  /** The snake goes through the square a pace at a time. */
  lemma SnakePaces(g: Board, p: Patch)
    requires p.Fits(g)
    ensures |Snake(g, p)| > 0 && Paces(g, Snake(g, p)[0], Snake(g, p)[1..])
  {
    hide Beside, SnakeCell;
    EntryOfSweep(g, p, false);
    var snake := Snake(g, p);
    forall k: nat | k < |snake[1..]|
      ensures Paced(g, snake[0], snake[1..], k)
    {
      assert snake[k] == SnakeCell(g, p, k) && snake[k + 1] == SnakeCell(g, p, k + 1);
      SnakePace(g, p, k);
    }
  }

  /** The snake enters every cell of the square once, and no other. */
  lemma SnakeSweeps(g: Board, p: Patch)
    requires p.Fits(g)
    ensures Once(Snake(g, p)) && forall cell: nat :: cell in Snake(g, p) <==> InSquare(g, p, cell)
  {
    hide Row, Col, SnakeCell, At;
    var snake := Snake(g, p);
    forall i, j | 0 <= i < j < |snake|
      ensures snake[i] != snake[j]
    {
      SnakePlace(g, p, i);
      SnakePlace(g, p, j);
      CellsAreRowMajor(p.side, i, j);
    }
    forall cell: nat
      ensures cell in snake <==> InSquare(g, p, cell)
    {
      if cell in snake {
        var i :| 0 <= i < |snake| && snake[i] == cell;
        SnakePlace(g, p, i);
      }
      if InSquare(g, p, cell) {
        var x, y := Col(g.width, cell) - p.left, Row(g.width, cell) - p.top;
        var turned := if y % 2 != 0 then p.side - 1 - x else x;
        SquareCell(p.side, turned, y);
        var i := At(p.side, turned, y);
        SnakePlace(g, p, i);
        CellsAreRowMajor(g.width, SnakeCell(g, p, i), cell);
        assert snake[i] == cell;
      }
    }
  }

  /** Coordinates of a place of the perimeter: east, south, west, north. */
  lemma RimPlace(g: Board, p: Patch, i: nat)
    requires p.Fits(g) && i < RouteLength(p.side, true)
    ensures
      var n, cell := p.side, PerimeterCell(g, p, i);
      Col(g.width, cell) == p.left + (if i < n then i else if i < 2 * n - 1 then n - 1 else if i < 3 * n - 2 then 3 * n - 3 - i else 0) &&
      Row(g.width, cell) == p.top + if i < n then 0 else if i < 2 * n - 1 then i - n + 1 else if i < 3 * n - 2 then n - 1 else 4 * n - 4 - i
  {
    hide Row, Col;
  }

  /** The perimeter is walked a pace at a time, and its end is beside its start. */
  lemma PerimeterPaces(g: Board, p: Patch)
    requires p.Fits(g)
    ensures |Perimeter(g, p)| > 0 && Paces(g, Perimeter(g, p)[0], Perimeter(g, p)[1..])
    ensures p.side > 1 ==> Beside(g, Perimeter(g, p)[|Perimeter(g, p)| - 1], Perimeter(g, p)[0])
  {
    hide Row, Col, PerimeterCell;
    var around := Perimeter(g, p);
    assert forall k :: 0 <= k < |around| ==> around[k] == PerimeterCell(g, p, k);
    forall k | 0 <= k < |around| - 1
      ensures Beside(g, around[k], around[k + 1])
    {
      RimPlace(g, p, k);
      RimPlace(g, p, k + 1);
    }
    RimPlace(g, p, 0);
    RimPlace(g, p, |around| - 1);
  }

  /** The perimeter enters every cell of the rim once, and no other. */
  lemma PerimeterSweeps(g: Board, p: Patch)
    requires p.Fits(g)
    ensures Once(Perimeter(g, p)) && forall cell: nat :: cell in Perimeter(g, p) <==> OnRim(g, p, cell)
  {
    hide Row, Col, PerimeterCell;
    var around := Perimeter(g, p);
    assert forall k :: 0 <= k < |around| ==> around[k] == PerimeterCell(g, p, k);
    forall i, j | 0 <= i < j < |around|
      ensures around[i] != around[j]
    {
      RimPlace(g, p, i);
      RimPlace(g, p, j);
    }
    forall cell: nat
      ensures cell in around <==> OnRim(g, p, cell)
    {
      if cell in around {
        var i :| 0 <= i < |around| && around[i] == cell;
        RimPlace(g, p, i);
      }
      if OnRim(g, p, cell) {
        RimHasPlace(g, p, cell);
      }
    }
  }

  lemma RimHasPlace(g: Board, p: Patch, cell: nat)
    requires p.Fits(g) && OnRim(g, p, cell)
    ensures cell in Perimeter(g, p)
  {
    hide Row, Col, PerimeterCell;
    var n: nat, x, y := p.side, Col(g.width, cell) - p.left, Row(g.width, cell) - p.top;
    var i := if y == 0 then x else if x == n - 1 then n - 1 + y else if y == n - 1 then 3 * n - 3 - x else 4 * n - 4 - y;
    RimPlace(g, p, i);
    CellsAreRowMajor(g.width, PerimeterCell(g, p, i), cell);
    assert Perimeter(g, p)[i] == cell;
  }

  // ----- whole plans -----

  /** The sweep of a patch in either direction is walked a pace at a time. */
  lemma OrderPaces(t: Task, p: Patch, reverse: bool)
    requires t.Valid() && p.Fits(t.g)
    ensures
      var order := OrderOf(t, p, reverse);
      Paces(t.g, order[0], order[1..]) && (Loops(t, p) && p.side > 1 ==> Beside(t.g, order[|order| - 1], order[0]))
  {
    hide Row, Col, Perimeter, Snake, Loops;
    var route, order := Sweep(t.g, p, Loops(t, p)), OrderOf(t, p, reverse);
    if Loops(t, p) {
      PerimeterPaces(t.g, p);
    } else {
      SnakePaces(t.g, p);
    }
    assert Paces(t.g, route[0], route[1..]);
    if reverse {
      ReversePaces(t.g, route);
    }
  }

  lemma ReversePaces(g: Board, route: seq<nat>)
    requires route != [] && Paces(g, route[0], route[1..])
    ensures Paces(g, Reversed(route)[0], Reversed(route)[1..])
  {
    hide Row, Col;
    var back, n := Reversed(route), |route|;
    forall k: nat | k < n - 1
      ensures Paced(g, back[0], back[1..], k)
    {
      assert Paced(g, route[0], route[1..], n - 2 - k);
    }
  }

  /** A plan over squares of more than one cell is walked a pace at a time from where the bot
      stands: there, through the sweep, and back. */
  lemma PlanPaces(t: Task, p: Patch, reverse: bool, horizontalFirst: bool)
    requires t.Valid() && p.Fits(t.g) && p.side > 1
    ensures Paces(t.g, t.From(), CellsOf(t, p, reverse, horizontalFirst))
  {
    hide Paces, Approach, OrderOf, Loops, Beside;
    var order := OrderOf(t, p, reverse);
    OrderPaces(t, p, reverse);
    ApproachPaces(t.g, t.From(), order[0], horizontalFirst);
    var there, exit := Approach(t.g, t.From(), order[0], horizontalFirst), order[|order| - 1];
    PacesJoin(t.g, t.From(), there, order[1..]);
    assert Last(t.From(), there + order[1..]) == exit;
    if Loops(t, p) {
      OnePace(t.g, exit, order[0]);
    } else if t.From() == order[0] {
      ApproachPaces(t.g, exit, t.From(), horizontalFirst);
    } else {
      NoPaces(t.g, exit);
    }
    PacesJoin(t.g, t.From(), there + order[1..], ReturnCells(t.g, exit, t.From(), order[0], horizontalFirst, Loops(t, p)));
  }

  /** A plan enters every cell of its sweep, also the one it starts on: the rim of a square
      that can be circled on land, the whole square otherwise. */
  lemma PlanEntersSweep(t: Task, p: Patch, reverse: bool, horizontalFirst: bool, cell: nat)
    requires t.Valid() && p.Fits(t.g) && (p.side > 1 || Loops(t, p))
    requires if Loops(t, p) then OnRim(t.g, p, cell) else InSquare(t.g, p, cell)
    ensures cell in CellsOf(t, p, reverse, horizontalFirst)
  {
    hide Approach, Loops, OnRim, InSquare, Perimeter, Snake, Row, Col;
    var order, from := OrderOf(t, p, reverse), t.From();
    SweepHas(t, p, reverse, cell);
    var k :| 0 <= k < |order| && order[k] == cell;
    if k > 0 {
      assert order[1..][k - 1] == cell;
    } else if !Loops(t, p) {
      StartIsEntered(t, p, reverse, horizontalFirst);
    }
  }

  lemma SweepHas(t: Task, p: Patch, reverse: bool, cell: nat)
    requires t.Valid() && p.Fits(t.g)
    requires if Loops(t, p) then OnRim(t.g, p, cell) else InSquare(t.g, p, cell)
    ensures cell in OrderOf(t, p, reverse)
  {
    hide Loops, OnRim, InSquare, Perimeter, Snake;
    var route, order := Sweep(t.g, p, Loops(t, p)), OrderOf(t, p, reverse);
    if Loops(t, p) {
      PerimeterSweeps(t.g, p);
    } else {
      SnakeSweeps(t.g, p);
    }
    var i :| 0 <= i < |route| && route[i] == cell;
    assert order[if reverse then |route| - 1 - i else i] == cell;
  }

  /** The start of a coastal sweep is entered on the way there, or on the way back. */
  lemma StartIsEntered(t: Task, p: Patch, reverse: bool, horizontalFirst: bool)
    requires t.Valid() && p.Fits(t.g) && p.side > 1 && !Loops(t, p)
    ensures OrderOf(t, p, reverse)[0] in CellsOf(t, p, reverse, horizontalFirst)
  {
    hide Approach, Loops, Perimeter, Snake, Row, Col;
    var order, from := OrderOf(t, p, reverse), t.From();
    var exit := order[|order| - 1];
    ApproachPaces(t.g, from, order[0], horizontalFirst);
    if from == order[0] {
      ApproachPaces(t.g, exit, from, horizontalFirst);
      EndsApart(t, p, reverse);
    }
  }

  /** A sweep of more than one cell ends somewhere else than it starts. */
  lemma EndsApart(t: Task, p: Patch, reverse: bool)
    requires t.Valid() && p.Fits(t.g) && p.side > 1
    ensures OrderOf(t, p, reverse)[0] != OrderOf(t, p, reverse)[|OrderOf(t, p, reverse)| - 1]
  {
    hide Loops, Perimeter, Snake, Row, Col;
    Distribute(1, p.side - 1, p.side);
    MultiplesAreApart(p.side, p.side - 1);
    var route := Sweep(t.g, p, Loops(t, p));
    if Loops(t, p) {
      PerimeterSweeps(t.g, p);
    } else {
      SnakeSweeps(t.g, p);
    }
    assert Once(route) && |route| > 1;
  }

  /** A square is circled exactly when its whole rim is land, and swept otherwise. */
  lemma LoopsOnLand(t: Task, p: Patch)
    requires t.Valid() && p.Fits(t.g)
    ensures Loops(t, p) <==> forall cell: nat :: OnRim(t.g, p, cell) ==> cell < |t.land| && t.land[cell]
  {
    hide OnRim, Perimeter;
    PerimeterSweeps(t.g, p);
    AllLandMeans(t.land, Perimeter(t.g, p));
    assert forall k :: 0 <= k < |Perimeter(t.g, p)| ==> Perimeter(t.g, p)[k] in Perimeter(t.g, p);
  }

  function Distance(g: Board, a: nat, b: nat): nat {
    Apart(Col(g.width, a), Col(g.width, b)) + Apart(Row(g.width, a), Row(g.width, b))
  }

  /** A plan is no longer than it has to be: the way there, each further cell of the sweep
      once, and one more to close a loop or the way back to a start not entered yet. */
  lemma PlanLength(t: Task, p: Patch, reverse: bool, horizontalFirst: bool)
    requires t.Valid() && p.Fits(t.g)
    ensures
      var order, n := OrderOf(t, p, reverse), p.side;
      var cells := if Loops(t, p) then (if n > 1 then n * 4 - 4 else 1) else n * n;
      var closing := if Loops(t, p) then 1 else if t.From() == order[0] then Distance(t.g, order[|order| - 1], t.From()) else 0;
      |CellsOf(t, p, reverse, horizontalFirst)| == Distance(t.g, t.From(), order[0]) + cells - 1 + closing
  {
    hide Row, Col, Loops, CellAt;
  }

  lemma RunXIn(g: Board, x: nat, tx: nat, y: nat, cell: nat)
    requires x < g.width && tx < g.width && y < g.height && cell in RunX(g, x, tx, y)
    ensures Row(g.width, cell) == y
    decreases Apart(x, tx)
  {
    hide Row, Col;
    if cell != CellAt(g, Toward(x, tx), y) {
      RunXIn(g, Toward(x, tx), tx, y, cell);
    }
  }

  lemma RunYIn(g: Board, x: nat, y: nat, ty: nat, cell: nat)
    requires x < g.width && y < g.height && ty < g.height && cell in RunY(g, x, y, ty)
    ensures Col(g.width, cell) == x
    decreases Apart(y, ty)
  {
    hide Row, Col;
    if cell != CellAt(g, x, Toward(y, ty)) {
      RunYIn(g, x, Toward(y, ty), ty, cell);
    }
  }

  /** An approach along the row first turns in the column of its end, and one along the column
      first in the row of its end. */
  lemma ApproachLegs(g: Board, from: nat, to: nat, horizontalFirst: bool, cell: nat)
    requires from < g.Size() && to < g.Size() && cell in Approach(g, from, to, horizontalFirst)
    ensures horizontalFirst ==> Row(g.width, cell) == Row(g.width, from) || Col(g.width, cell) == Col(g.width, to)
    ensures !horizontalFirst ==> Col(g.width, cell) == Col(g.width, from) || Row(g.width, cell) == Row(g.width, to)
  {
    hide Row, Col, RunX, RunY;
    RowsAreBounded(g, from);
    RowsAreBounded(g, to);
    var x, y, tx, ty := Col(g.width, from), Row(g.width, from), Col(g.width, to), Row(g.width, to);
    if horizontalFirst {
      if cell in RunX(g, x, tx, y) {
        RunXIn(g, x, tx, y, cell);
      } else {
        RunYIn(g, tx, y, ty, cell);
      }
    } else {
      if cell in RunY(g, x, y, ty) {
        RunYIn(g, x, y, ty, cell);
      } else {
        RunXIn(g, x, tx, ty, cell);
      }
    }
  }

  // ----- why circling pays for the whole square -----

  /** The free cells of a square that are not on its rim. */
  ghost function Inside(g: Board, p: Patch, free: set<nat>): set<nat> {
    set cell | cell in free && InSquare(g, p, cell) && !OnRim(g, p, cell)
  }

  /** A country that owns the rim of a square encloses every cell inside that it does not
      own, so a plan that only circles the square still gains all of it. */
  lemma RimEncloses(g: Board, owners: seq<nat>, p: Patch, country: nat, cell: nat)
    requires |owners| == g.Size() && p.Fits(g) && cell < |owners| && owners[cell] != country
    requires forall c: nat :: c < |owners| && OnRim(g, p, c) ==> owners[c] == country
    requires InSquare(g, p, cell)
    ensures cell in Enclosed(g, owners, country)
  {
    hide Row, Col;
    var free := Free(owners, country);
    ClosedIsEnclosed(g, free, Inside(g, p, free), cell);
  }

  /** The owners once every land cell of a route has been painted. */
  function PaintedAll(land: seq<bool>, owners: seq<nat>, country: nat, cells: seq<nat>): (r: seq<nat>)
    requires |land| == |owners| && Within(cells, |land|)
    ensures |r| == |owners|
    ensures forall c :: 0 <= c < |owners| ==> r[c] == if land[c] && c in cells then country else owners[c]
    decreases |cells|
  {
    if cells == [] then owners
    else
      var rest := PaintedAll(land, PaintedBy(land, owners, country, cells[0]), country, cells[1..]);
      assert cells == [cells[0]] + cells[1..];
      rest
  }

  lemma SquareIsOnMap(g: Board, p: Patch, cell: nat)
    requires p.Fits(g) && InSquare(g, p, cell)
    ensures cell < g.Size()
  {
    hide Row, Col;
    RowsAreBounded(g, cell);
  }

  lemma LoopIsLand(t: Task, p: Patch, cell: nat)
    requires t.Valid() && p.Fits(t.g) && Loops(t, p) && OnRim(t.g, p, cell)
    ensures cell < |t.land| && t.land[cell]
  {
    hide OnRim, Perimeter;
    PerimeterSweeps(t.g, p);
    assert cell in Perimeter(t.g, p);
  }

  /** A plan is worth what it counts: once it is painted, every land cell of its square is the
      country's or is enclosed by it, which the next pass turns into the same. */
  lemma PlanGainsSquare(t: Task, p: Patch, reverse: bool, horizontalFirst: bool, cell: nat)
    requires t.Valid() && p.Fits(t.g) && (p.side > 1 || Loops(t, p)) && InSquare(t.g, p, cell)
    ensures cell < |t.land|
    ensures
      var after := PaintedAll(t.land, t.owners, t.country, CellsOf(t, p, reverse, horizontalFirst));
      t.land[cell] ==> after[cell] == t.country || cell in Enclosed(t.g, after, t.country)
  {
    hide CellsOf, Loops, OnRim, InSquare, Enclosed;
    SquareIsOnMap(t.g, p, cell);
    var after := PaintedAll(t.land, t.owners, t.country, CellsOf(t, p, reverse, horizontalFirst));
    if Loops(t, p) {
      forall c: nat | c < |after| && OnRim(t.g, p, c)
        ensures after[c] == t.country
      {
        LoopIsLand(t, p, c);
        PlanEntersSweep(t, p, reverse, horizontalFirst, c);
      }
      if after[cell] != t.country {
        RimEncloses(t.g, after, p, t.country, cell);
      }
    } else {
      PlanEntersSweep(t, p, reverse, horizontalFirst, cell);
    }
  }
}
