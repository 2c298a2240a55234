/** The whole-country scan: runs of free cells, flooded inward from the rim of a box.

    `HoleFiller.Fill` returns, in ascending order, exactly the free cells of the box
    that no route inside the box joins to its rim.  For a box that covers the country
    those are the cells cut off from the edge of the whole board. */
module Filler {
  import opened Basics
  import opened Grid
  import opened Enclosure

  // ----- what a fill returns -----

  ghost function BoxFree(g: Board, owners: seq<nat>, country: nat, box: Bounds): set<nat> {
    set cell | cell in Free(owners, country) && box.Contains(g.width, cell)
  }

  predicate OnRim(g: Board, box: Bounds, cell: nat) {
    box.AtBoundary(Col(g.width, cell), Row(g.width, cell))
  }

  /** A route of free cells inside the box joins the cell to the rim. */
  ghost predicate ReachesRim(g: Board, owners: seq<nat>, country: nat, box: Bounds, cell: nat) {
    exists e: nat :: OnRim(g, box, e) && Reach(g.width, BoxFree(g, owners, country, box), cell, e)
  }

  ghost predicate IsHole(g: Board, owners: seq<nat>, country: nat, box: Bounds, cell: nat) {
    cell in BoxFree(g, owners, country, box) && !ReachesRim(g, owners, country, box, cell)
  }

  /** For a box that covers the country, a hole of the box is cut off from the whole edge. */
  lemma HolesAreEnclosed(g: Board, owners: seq<nat>, country: nat, box: Bounds, cell: nat)
    requires |owners| == g.Size() && Covers(g, box, owners, country)
    ensures IsHole(g, owners, country, box, cell) <==> cell in Enclosed(g, owners, country)
  {
    var w, free, inside := g.width, Free(owners, country), BoxFree(g, owners, country, box);
    if cell in free && ReachesRim(g, owners, country, box, cell) {
      var e: nat :| OnRim(g, box, e) && Reach(w, inside, cell, e);
      ReachInside(w, inside, cell, e);
      ReachGrows(w, inside, free, cell, e);
      BoundaryEscapes(g, owners, country, e, box);
      EscapesVia(g, free, cell, e);
    }
    if cell in free && !box.Contains(w, cell) {
      BoundaryEscapes(g, owners, country, cell, box);
    }
    if IsHole(g, owners, country, box, cell) {
      var pocket := set q | q in inside && Reach(w, inside, cell, q);
      ReachSelf(w, inside, cell);
      forall a, b | a in pocket && b in free && Adjacent(w, a, b)
        ensures b in pocket
      {
        assert !OnRim(g, box, a);
        ReachStep(w, inside, a, b);
        ReachTrans(w, inside, cell, a, b);
      }
      forall q | q in pocket
        ensures !OnEdge(g, q)
      {
        assert !OnRim(g, box, q);
      }
      ClosedIsEnclosed(g, free, pocket, cell);
    }
  }

  // ----- runs -----

  datatype Run = Run(row: nat, first: nat, last: nat) {
    predicate Has(w: Positive, cell: nat) {
      Row(w, cell) == row && first <= Col(w, cell) <= last
    }
  }

  ghost predicate FreeAt(g: Board, owners: seq<nat>, country: nat, x: nat, y: nat)
    requires |owners| == g.Size() && x < g.width && y < g.height
  {
    AtIsCell(g, x, y);
    owners[At(g.width, x, y)] != country
  }

  lemma AtIsCell(g: Board, x: nat, y: nat)
    requires x < g.width && y < g.height
    ensures 0 <= At(g.width, x, y) < g.Size()
    ensures Col(g.width, At(g.width, x, y)) == x && Row(g.width, At(g.width, x, y)) == y
  {
    CoordinatesOfAt(g.width, x, y);
    RowsAreBounded(g, At(g.width, x, y));
  }

  lemma AtIsOnlyCell(g: Board, x: nat, y: nat)
    requires x < g.width && y < g.height
    ensures 0 <= At(g.width, x, y)
    ensures forall cell: nat :: Col(g.width, cell) == x && Row(g.width, cell) == y ==> cell == At(g.width, x, y)
  {
    AtIsCell(g, x, y);
    forall cell: nat | Col(g.width, cell) == x && Row(g.width, cell) == y
      ensures cell == At(g.width, x, y)
    {
      CellsAreRowMajor(g.width, cell, At(g.width, x, y));
    }
  }

  /** One maximal run of free cells of the box. */
  ghost predicate IsRun(g: Board, owners: seq<nat>, country: nat, box: Bounds, run: Run)
    requires |owners| == g.Size() && box.Within(g)
  {
    box.top <= run.row <= box.bottom && box.left <= run.first <= run.last <= box.right &&
    (forall x :: run.first <= x <= run.last ==> FreeAt(g, owners, country, x, run.row)) &&
    (run.first == box.left || !FreeAt(g, owners, country, run.first - 1, run.row)) &&
    (run.last == box.right || !FreeAt(g, owners, country, run.last + 1, run.row))
  }

  predicate Before(a: Run, b: Run) {
    a.row < b.row || (a.row == b.row && a.last + 1 < b.first)
  }

  /** The runs met by a row-major scan that has stopped before column x of row y. */
  ghost predicate RunsBefore(g: Board, owners: seq<nat>, country: nat, box: Bounds, runs: seq<Run>, x: int, y: int)
    requires |owners| == g.Size() && box.Within(g)
  {
    (forall i :: 0 <= i < |runs| ==> IsRun(g, owners, country, box, runs[i])) &&
    (forall i :: 0 <= i < |runs| ==> runs[i].row < y || (runs[i].row == y && runs[i].last < x)) &&
    (forall i, j :: 0 <= i < j < |runs| ==> Before(runs[i], runs[j])) &&
    forall cell :: cell in BoxFree(g, owners, country, box) && (Row(g.width, cell) < y || (Row(g.width, cell) == y && Col(g.width, cell) < x))
      ==> exists i :: 0 <= i < |runs| && runs[i].Has(g.width, cell)
  }

  /** All runs of the box. */
  ghost predicate RunsOf(g: Board, owners: seq<nat>, country: nat, box: Bounds, runs: seq<Run>)
    requires |owners| == g.Size() && box.Within(g)
  {
    RunsBefore(g, owners, country, box, runs, 0, box.bottom + 1)
  }

  /** The row index: runs before `start` lie above row y, the others do not. */
  predicate Indexes(runs: seq<Run>, start: nat, y: nat) {
    start <= |runs| &&
    (forall i :: 0 <= i < start ==> runs[i].row < y) &&
    (forall i :: start <= i < |runs| ==> runs[i].row >= y)
  }

  lemma IndexesAscend(runs: seq<Run>, a: nat, b: nat, y: nat)
    requires Indexes(runs, a, y) && Indexes(runs, b, y + 1)
    ensures a <= b <= |runs|
    ensures forall i :: a <= i < b ==> runs[i].row == y
  {
    assert b < |runs| ==> runs[b].row >= y + 1;
  }

  lemma RowInOrder(runs: seq<Run>, a: nat, b: nat, y: nat)
    requires Indexes(runs, a, y) && Indexes(runs, b, y + 1)
    requires forall i, j :: 0 <= i < j < |runs| ==> Before(runs[i], runs[j])
    requires forall i :: 0 <= i < |runs| ==> runs[i].first <= runs[i].last
    ensures a <= b <= |runs|
    ensures forall i :: 0 <= i < a ==> runs[i].row < y
    ensures forall i :: a <= i < b ==> runs[i].row == y
    ensures forall i :: b <= i < |runs| ==> runs[i].row > y
    ensures forall i, j :: a <= i < j < b ==> runs[i].last < runs[j].last && runs[i].first < runs[j].first
  {
    IndexesAscend(runs, a, b, y);
    forall i, j | a <= i < j < b
      ensures runs[i].last < runs[j].last && runs[i].first < runs[j].first
    {
      assert Before(runs[i], runs[j]);
    }
  }

  /** Runs of adjacent rows touch when their spans, widened by one, overlap. */
  predicate Touch(a: Run, b: Run) {
    (b.row == a.row - 1 || b.row == a.row + 1) && a.first <= b.last + 1 && b.first <= a.last + 1
  }

  predicate OnBoxEdge(box: Bounds, run: Run) {
    run.row == box.top || run.row == box.bottom || run.first == box.left || run.last == box.right
  }

  /** The cells of one run are joined along the row. */
  lemma {:induction false} RunIsJoined(g: Board, owners: seq<nat>, country: nat, box: Bounds, run: Run, a: nat, b: nat)
    requires |owners| == g.Size() && box.Within(g) && IsRun(g, owners, country, box, run)
    requires run.Has(g.width, a) && run.Has(g.width, b) && a <= b
    ensures a in BoxFree(g, owners, country, box) && b in BoxFree(g, owners, country, box)
    ensures Reach(g.width, BoxFree(g, owners, country, box), a, b)
    decreases Col(g.width, b)
  {
    var w, free := g.width, BoxFree(g, owners, country, box);
    RunCellIsFree(g, owners, country, box, run, a);
    RunCellIsFree(g, owners, country, box, run, b);
    if a == b {
      ReachSelf(w, free, a);
    } else {
      CellsAreRowMajor(w, a, b);
      assert HasNeighbour(g, b, 7) by { RowsAreBounded(g, b); }
      var c := Neighbour(g, b, 7);
      CellsAreRowMajor(w, a, c);
      RunIsJoined(g, owners, country, box, run, a, c);
      ReachStep(w, free, c, b);
      ReachTrans(w, free, a, c, b);
    }
  }

  lemma RunCellIsFree(g: Board, owners: seq<nat>, country: nat, box: Bounds, run: Run, cell: nat)
    requires |owners| == g.Size() && box.Within(g) && IsRun(g, owners, country, box, run)
    requires run.Has(g.width, cell)
    ensures cell in BoxFree(g, owners, country, box)
  {
    AtIsCell(g, Col(g.width, cell), run.row);
    AtIsOnlyCell(g, Col(g.width, cell), run.row);
    assert FreeAt(g, owners, country, Col(g.width, cell), run.row);
  }

  /** The cells of a run reach the rim together. */
  ghost predicate RunReachesRim(g: Board, owners: seq<nat>, country: nat, box: Bounds, run: Run) {
    forall cell: nat :: run.Has(g.width, cell) ==> ReachesRim(g, owners, country, box, cell)
  }

  lemma OneCellReachesForAll(g: Board, owners: seq<nat>, country: nat, box: Bounds, run: Run, cell: nat)
    requires |owners| == g.Size() && box.Within(g) && IsRun(g, owners, country, box, run)
    requires run.Has(g.width, cell) && ReachesRim(g, owners, country, box, cell)
    ensures RunReachesRim(g, owners, country, box, run)
  {
    var w, free := g.width, BoxFree(g, owners, country, box);
    var e: nat :| OnRim(g, box, e) && Reach(w, free, cell, e);
    forall a: nat | run.Has(w, a)
      ensures ReachesRim(g, owners, country, box, a)
    {
      if a <= cell {
        RunIsJoined(g, owners, country, box, run, a, cell);
      } else {
        RunIsJoined(g, owners, country, box, run, cell, a);
        ReachSym(w, free, cell, a);
      }
      ReachTrans(w, free, a, cell, e);
    }
  }

  lemma EdgeRunReachesRim(g: Board, owners: seq<nat>, country: nat, box: Bounds, run: Run)
    requires |owners| == g.Size() && box.Within(g) && IsRun(g, owners, country, box, run)
    requires OnBoxEdge(box, run)
    ensures RunReachesRim(g, owners, country, box, run)
  {
    var x := if run.last == box.right then run.last else run.first;
    AtIsCell(g, x, run.row);
    var cell := At(g.width, x, run.row);
    RunCellIsFree(g, owners, country, box, run, cell);
    ReachSelf(g.width, BoxFree(g, owners, country, box), cell);
    OneCellReachesForAll(g, owners, country, box, run, cell);
  }

  /** A cell of each run, adjacent to each other. */
  lemma TouchingCells(g: Board, a: Run, b: Run) returns (p: nat, q: nat)
    requires a.first <= a.last < g.width && b.first <= b.last < g.width && a.row < g.height && b.row < g.height
    requires Touch(a, b)
    ensures a.Has(g.width, p) && b.Has(g.width, q) && Adjacent(g.width, q, p)
  {
    var xa := if b.first - 1 > a.first then b.first - 1 else a.first;
    var xb := if xa < b.first then b.first else if xa > b.last then b.last else xa;
    AtIsCell(g, xa, a.row);
    AtIsCell(g, xb, b.row);
    p, q := At(g.width, xa, a.row), At(g.width, xb, b.row);
  }

  lemma ReachesRimVia(g: Board, owners: seq<nat>, country: nat, box: Bounds, q: nat, p: nat)
    requires Reach(g.width, BoxFree(g, owners, country, box), q, p) && ReachesRim(g, owners, country, box, p)
    ensures ReachesRim(g, owners, country, box, q)
  {
    var free := BoxFree(g, owners, country, box);
    var e: nat :| OnRim(g, box, e) && Reach(g.width, free, p, e);
    ReachTrans(g.width, free, q, p, e);
  }

  lemma TouchingRunReachesRim(g: Board, owners: seq<nat>, country: nat, box: Bounds, a: Run, b: Run)
    requires |owners| == g.Size() && box.Within(g)
    requires IsRun(g, owners, country, box, a) && IsRun(g, owners, country, box, b)
    requires Touch(a, b) && RunReachesRim(g, owners, country, box, a)
    ensures RunReachesRim(g, owners, country, box, b)
  {
    var p, q := TouchingCells(g, a, b);
    RunCellIsFree(g, owners, country, box, a, p);
    RunCellIsFree(g, owners, country, box, b, q);
    ReachStep(g.width, BoxFree(g, owners, country, box), q, p);
    ReachesRimVia(g, owners, country, box, q, p);
    OneCellReachesForAll(g, owners, country, box, b, q);
  }

  /** A finished flood: the rim runs are in, and nothing outside touches anything inside. */
  ghost predicate Flooded(box: Bounds, runs: seq<Run>, reached: set<nat>) {
    (forall i :: 0 <= i < |runs| && OnBoxEdge(box, runs[i]) ==> i in reached) &&
    forall i, j :: 0 <= i < |runs| && 0 <= j < |runs| && i in reached && Touch(runs[i], runs[j]) ==> j in reached
  }

  /** The holes are exactly the cells of the runs a finished flood did not reach. */
  lemma UnreachedRunsAreHoles(g: Board, owners: seq<nat>, country: nat, box: Bounds, runs: seq<Run>, reached: set<nat>, cell: nat)
    requires |owners| == g.Size() && box.Within(g) && RunsOf(g, owners, country, box, runs)
    requires Flooded(box, runs, reached)
    requires forall i :: 0 <= i < |runs| && i in reached ==> RunReachesRim(g, owners, country, box, runs[i])
    ensures IsHole(g, owners, country, box, cell) <==>
      exists i :: 0 <= i < |runs| && i !in reached && runs[i].Has(g.width, cell)
  {
    var w, free := g.width, BoxFree(g, owners, country, box);
    if cell in free {
      var i :| 0 <= i < |runs| && runs[i].Has(w, cell);
      if i !in reached {
        UnreachedRunIsClosed(g, owners, country, box, runs, reached, i, cell);
      } else {
        forall k | 0 <= k < |runs| && k != i
          ensures !runs[k].Has(w, cell)
        {
          assert if k < i then Before(runs[k], runs[i]) else Before(runs[i], runs[k]);
        }
      }
    } else if exists i :: 0 <= i < |runs| && i !in reached && runs[i].Has(w, cell) {
      var i :| 0 <= i < |runs| && i !in reached && runs[i].Has(w, cell);
      RunCellIsFree(g, owners, country, box, runs[i], cell);
    }
  }

  lemma UnreachedRunIsClosed(g: Board, owners: seq<nat>, country: nat, box: Bounds, runs: seq<Run>, reached: set<nat>, i: nat, cell: nat)
    requires |owners| == g.Size() && box.Within(g) && RunsOf(g, owners, country, box, runs)
    requires Flooded(box, runs, reached)
    requires i < |runs| && i !in reached && runs[i].Has(g.width, cell)
    ensures !ReachesRim(g, owners, country, box, cell)
  {
    var w, free := g.width, BoxFree(g, owners, country, box);
    var dry := set q | q in free && InDryRun(w, runs, reached, q);
    RunCellIsFree(g, owners, country, box, runs[i], cell);
    forall a, b | a in dry && b in free && Adjacent(w, a, b)
      ensures b in dry
    {
      DryRunsKeepNeighbours(g, owners, country, box, runs, reached, a, b);
    }
    forall q | q in dry
      ensures !OnRim(g, box, q)
    {
      var k :| 0 <= k < |runs| && k !in reached && runs[k].Has(w, q);
    }
    if ReachesRim(g, owners, country, box, cell) {
      var e: nat :| OnRim(g, box, e) && Reach(w, free, cell, e);
      ReachStaysClosed(w, free, dry, cell, e);
    }
  }

  ghost predicate InDryRun(w: Positive, runs: seq<Run>, reached: set<nat>, cell: nat) {
    exists k :: 0 <= k < |runs| && k !in reached && runs[k].Has(w, cell)
  }

  lemma DryRunsKeepNeighbours(g: Board, owners: seq<nat>, country: nat, box: Bounds, runs: seq<Run>, reached: set<nat>, a: nat, b: nat)
    requires |owners| == g.Size() && box.Within(g) && RunsOf(g, owners, country, box, runs)
    requires Flooded(box, runs, reached)
    requires InDryRun(g.width, runs, reached, a) && b in BoxFree(g, owners, country, box) && Adjacent(g.width, a, b)
    ensures InDryRun(g.width, runs, reached, b)
  {
    hide Row, Col;
    var k :| 0 <= k < |runs| && k !in reached && runs[k].Has(g.width, a);
    var m :| 0 <= m < |runs| && runs[m].Has(g.width, b);
    if runs[k].row == runs[m].row {
      SameRowIsSameRun(g, owners, country, box, runs, k, m, a, b);
    } else {
      assert Touch(runs[m], runs[k]);
    }
  }

  lemma SameRowIsSameRun(g: Board, owners: seq<nat>, country: nat, box: Bounds, runs: seq<Run>, k: nat, m: nat, a: nat, b: nat)
    requires |owners| == g.Size() && box.Within(g) && RunsOf(g, owners, country, box, runs)
    requires k < |runs| && m < |runs| && runs[k].Has(g.width, a) && runs[m].Has(g.width, b)
    requires runs[k].row == runs[m].row && Adjacent(g.width, a, b)
    ensures k == m
  {
    assert k < m ==> Before(runs[k], runs[m]);
    assert m < k ==> Before(runs[m], runs[k]);
  }

  // ----- the scan, step by step -----

  lemma RunsAreInBox(g: Board, owners: seq<nat>, country: nat, box: Bounds, runs: seq<Run>)
    requires |owners| == g.Size() && box.Within(g) && RunsOf(g, owners, country, box, runs)
    ensures forall i :: 0 <= i < |runs| ==> box.top <= runs[i].row <= box.bottom && runs[i].first <= runs[i].last < g.width
    ensures forall i, j :: 0 <= i < j < |runs| ==> Before(runs[i], runs[j])
  {
  }

  lemma NoRunsNoHoles(g: Board, owners: seq<nat>, country: nat, box: Bounds)
    requires |owners| == g.Size() && box.Within(g) && RunsOf(g, owners, country, box, [])
    ensures Strict([]) && forall cell :: !IsHole(g, owners, country, box, cell)
  {
  }

  /** What the flood left unmarked, collected, are the holes. */
  lemma FloodFindsHoles(g: Board, owners: seq<nat>, country: nat, box: Bounds, runs: seq<Run>, marked: set<nat>, result: seq<nat>)
    requires |owners| == g.Size() && box.Within(g) && RunsOf(g, owners, country, box, runs)
    requires Flooded(box, runs, marked) && forall i :: i in marked ==> FromRim(box, runs, i)
    requires Collected(g.width, runs, marked, |runs|, result)
    ensures Strict(result) && forall cell :: cell in result <==> IsHole(g, owners, country, box, cell)
  {
    forall i | 0 <= i < |runs| && i in marked
      ensures RunReachesRim(g, owners, country, box, runs[i])
    {
      var chain :| Chain(box, runs, chain) && chain[|chain| - 1] == i;
      FromRimReachesRim(g, owners, country, box, runs, chain);
    }
    forall cell
      ensures cell in result <==> IsHole(g, owners, country, box, cell)
    {
      UnreachedRunsAreHoles(g, owners, country, box, runs, marked, cell);
    }
  }

  lemma ScanNextRow(g: Board, owners: seq<nat>, country: nat, box: Bounds, runs: seq<Run>, y: nat)
    requires |owners| == g.Size() && box.Within(g)
    requires RunsBefore(g, owners, country, box, runs, box.right + 1, y)
    ensures RunsBefore(g, owners, country, box, runs, box.left, y + 1)
  {
  }

  lemma ScanSkips(g: Board, owners: seq<nat>, country: nat, box: Bounds, runs: seq<Run>, x: nat, y: nat)
    requires |owners| == g.Size() && box.Within(g) && x < g.width && y < g.height
    requires RunsBefore(g, owners, country, box, runs, x, y) && !FreeAt(g, owners, country, x, y)
    ensures RunsBefore(g, owners, country, box, runs, x + 1, y)
  {
    AtIsOnlyCell(g, x, y);
  }

  lemma ScanCloses(g: Board, owners: seq<nat>, country: nat, box: Bounds, runs: seq<Run>, start: nat, x: nat, y: nat)
    requires |owners| == g.Size() && box.Within(g) && box.left <= start < x <= box.right + 1 && box.top <= y <= box.bottom
    requires RunsBefore(g, owners, country, box, runs, start, y)
    requires IsRun(g, owners, country, box, Run(y, start, x - 1))
    ensures RunsBefore(g, owners, country, box, runs + [Run(y, start, x - 1)], x, y)
  {
    var all := runs + [Run(y, start, x - 1)];
    forall i | 0 <= i < |runs|
      ensures Before(runs[i], Run(y, start, x - 1))
    {
      assert IsRun(g, owners, country, box, runs[i]);
      assert FreeAt(g, owners, country, start, y);
    }
    forall cell | cell in BoxFree(g, owners, country, box) &&
                  (Row(g.width, cell) < y || (Row(g.width, cell) == y && Col(g.width, cell) < x))
      ensures exists i :: 0 <= i < |all| && all[i].Has(g.width, cell)
    {
      if Row(g.width, cell) == y && Col(g.width, cell) >= start {
        assert all[|runs|].Has(g.width, cell);
      } else {
        var i :| 0 <= i < |runs| && runs[i].Has(g.width, cell);
        assert all[i].Has(g.width, cell);
      }
    }
  }

  /** Total length of the first n runs. */
  ghost function CellsOf(runs: seq<Run>, n: nat): int
    requires n <= |runs|
  {
    if n == 0 then 0 else CellsOf(runs, n - 1) + runs[n - 1].last - runs[n - 1].first + 1
  }

  lemma ScanStarts(g: Board, owners: seq<nat>, country: nat, box: Bounds)
    requires |owners| == g.Size() && box.Within(g)
    ensures RunsBefore(g, owners, country, box, [], box.left, box.top) && CellsOf([], 0) == 0
  {
  }

  lemma ScanEnters(g: Board, owners: seq<nat>, country: nat, box: Bounds, runs: seq<Run>, y: nat)
    requires |owners| == g.Size() && box.Within(g)
    requires RunsBefore(g, owners, country, box, runs, box.left, y)
    ensures Indexes(runs, |runs|, y)
  {
  }

  lemma ScanEnds(g: Board, owners: seq<nat>, country: nat, box: Bounds, runs: seq<Run>)
    requires |owners| == g.Size() && box.Within(g)
    requires RunsBefore(g, owners, country, box, runs, box.left, box.bottom + 1)
    ensures RunsOf(g, owners, country, box, runs)
  {
  }

  lemma {:induction false} CellsOfPrefix(runs: seq<Run>, more: seq<Run>, n: nat)
    requires n <= |runs|
    ensures CellsOf(runs + more, n) == CellsOf(runs, n)
  {
    if n > 0 {
      CellsOfPrefix(runs, more, n - 1);
    }
  }

  lemma CellsOfMore(runs: seq<Run>, run: Run)
    ensures CellsOf(runs + [run], |runs| + 1) == CellsOf(runs, |runs|) + run.last - run.first + 1
  {
    CellsOfPrefix(runs, [run], |runs|);
  }

  ghost function EdgeRuns(box: Bounds, runs: seq<Run>, n: nat): set<nat>
    requires n <= |runs|
  {
    set i: nat | i < n && OnBoxEdge(box, runs[i])
  }

  lemma FirstRowStarts(box: Bounds, runs: seq<Run>, a: nat)
    requires Indexes(runs, a, box.top) && forall i :: 0 <= i < |runs| ==> box.top <= runs[i].row
    ensures a == 0
  {
    assert |runs| > 0 ==> runs[0].row >= box.top;
  }

  lemma LastRowEnds(box: Bounds, runs: seq<Run>, b: nat)
    requires Indexes(runs, b, box.bottom + 1) && forall i :: 0 <= i < |runs| ==> runs[i].row <= box.bottom
    ensures b == |runs|
  {
    assert |runs| > 0 ==> runs[|runs| - 1].row <= box.bottom;
  }

  lemma NothingOnEdge(box: Bounds, runs: seq<Run>)
    ensures EdgeRuns(box, runs, 0) == {}
  {
  }

  lemma OneMoreOnEdge(box: Bounds, runs: seq<Run>, i: nat)
    requires i < |runs|
    ensures EdgeRuns(box, runs, i + 1) == EdgeRuns(box, runs, i) + (if OnBoxEdge(box, runs[i]) then {i} else {})
    ensures i !in EdgeRuns(box, runs, i)
  {
  }

  ghost function RunsMeeting(runs: seq<Run>, row: nat, from: int, to: int, n: nat): set<nat>
    requires n <= |runs|
  {
    set j: nat | j < n && runs[j].row == row && runs[j].last >= from && runs[j].first <= to
  }

  lemma NoneMeetBefore(runs: seq<Run>, row: nat, from: int, to: int, rowFrom: nat, lo: nat)
    requires rowFrom <= lo <= |runs|
    requires forall i :: 0 <= i < rowFrom ==> runs[i].row < row
    requires forall i :: rowFrom <= i < lo ==> runs[i].last < from
    ensures RunsMeeting(runs, row, from, to, lo) == {}
  {
  }

  lemma OneMoreMeets(runs: seq<Run>, row: nat, from: int, to: int, i: nat, marked: set<nat>)
    requires i < |runs| && runs[i].row == row && runs[i].last >= from && runs[i].first <= to
    ensures marked + RunsMeeting(runs, row, from, to, i + 1) == marked + RunsMeeting(runs, row, from, to, i) + {i}
  {
  }

  lemma NoneMeetAfter(runs: seq<Run>, row: nat, from: int, to: int, i: nat, rowTo: nat)
    requires i <= rowTo <= |runs|
    requires forall j :: rowTo <= j < |runs| ==> runs[j].row > row
    requires i == rowTo || forall j :: i <= j < rowTo ==> runs[j].first > to
    ensures RunsMeeting(runs, row, from, to, |runs|) == RunsMeeting(runs, row, from, to, i)
  {
  }

  /** The runs touching one in the box are those of the two neighbouring rows of the box. */
  lemma TouchedRows(box: Bounds, runs: seq<Run>, i: nat)
    requires i < |runs| && forall k :: 0 <= k < |runs| ==> box.top <= runs[k].row <= box.bottom
    ensures
      var y, from, to := runs[i].row, runs[i].first - 1, runs[i].last + 1;
      Touched(runs, i) ==
        (if y > box.top then RunsMeeting(runs, y - 1, from, to, |runs|) else {}) +
        (if y < box.bottom then RunsMeeting(runs, y + 1, from, to, |runs|) else {})
  {
  }

  ghost function Touched(runs: seq<Run>, i: nat): set<nat>
    requires i < |runs|
  {
    set j: nat | j < |runs| && Touch(runs[i], runs[j])
  }

  /** A chain of touching runs leads from the rim of the box to run i. */
  ghost predicate FromRim(box: Bounds, runs: seq<Run>, i: nat) {
    exists chain: seq<nat> :: Chain(box, runs, chain) && chain[|chain| - 1] == i
  }

  ghost predicate Chain(box: Bounds, runs: seq<Run>, chain: seq<nat>) {
    |chain| > 0 && (forall k :: 0 <= k < |chain| ==> chain[k] < |runs|) && OnBoxEdge(box, runs[chain[0]]) &&
    forall k :: 0 < k < |chain| ==> Touch(runs[chain[k - 1]], runs[chain[k]])
  }

  lemma EdgeRunsAreFromRim(box: Bounds, runs: seq<Run>)
    ensures forall i :: i in EdgeRuns(box, runs, |runs|) ==> FromRim(box, runs, i)
  {
    forall i | i in EdgeRuns(box, runs, |runs|)
      ensures FromRim(box, runs, i)
    {
      assert Chain(box, runs, [i]);
    }
  }

  lemma TouchedAreFromRim(box: Bounds, runs: seq<Run>, i: nat)
    requires i < |runs| && FromRim(box, runs, i)
    ensures forall j :: j in Touched(runs, i) ==> FromRim(box, runs, j)
  {
    var chain :| Chain(box, runs, chain) && chain[|chain| - 1] == i;
    forall j | j in Touched(runs, i)
      ensures FromRim(box, runs, j)
    {
      assert Chain(box, runs, chain + [j]);
    }
  }

  lemma FloodIsDone(box: Bounds, runs: seq<Run>, marked: set<nat>)
    requires EdgeRuns(box, runs, |runs|) <= marked
    requires forall i :: i in marked ==> i < |runs| && Touched(runs, i) <= marked
    ensures Flooded(box, runs, marked)
  {
    forall i, j | 0 <= i < |runs| && 0 <= j < |runs| && i in marked && Touch(runs[i], runs[j])
      ensures j in marked
    {
      assert j in Touched(runs, i);
    }
    forall i | 0 <= i < |runs| && OnBoxEdge(box, runs[i])
      ensures i in marked
    {
      assert i in EdgeRuns(box, runs, |runs|);
    }
  }

  lemma {:induction false} FromRimReachesRim(g: Board, owners: seq<nat>, country: nat, box: Bounds, runs: seq<Run>, chain: seq<nat>)
    requires |owners| == g.Size() && box.Within(g)
    requires forall i :: 0 <= i < |runs| ==> IsRun(g, owners, country, box, runs[i])
    requires Chain(box, runs, chain)
    ensures RunReachesRim(g, owners, country, box, runs[chain[|chain| - 1]])
  {
    var n := |chain| - 1;
    if n == 0 {
      EdgeRunReachesRim(g, owners, country, box, runs[chain[0]]);
    } else {
      FromRimReachesRim(g, owners, country, box, runs, chain[..n]);
      TouchingRunReachesRim(g, owners, country, box, runs[chain[n - 1]], runs[chain[n]]);
    }
  }

  ghost predicate NoRepeats(s: seq<nat>) {
    forall i, j :: 0 <= i < j < |s| ==> s[i] != s[j]
  }

  /** Distinct numbers below n: there are at most n of them. */
  lemma {:induction false} NoRepeatsAreFew(s: seq<nat>, n: nat)
    requires NoRepeats(s) && forall x :: x in s ==> x < n
    ensures |s| <= n
    decreases n
  {
    if n == 0 {
      assert forall k :: 0 <= k < |s| ==> s[k] in s;
    } else if n - 1 in s {
      var k :| 0 <= k < |s| && s[k] == n - 1;
      var rest := s[..k] + s[k + 1..];
      assert forall x :: x in rest ==> x in s && x != n - 1;
      NoRepeatsAreFew(rest, n - 1);
    } else {
      NoRepeatsAreFew(s, n - 1);
    }
  }

  /** The cells of one run as flat indices. */
  ghost function Span(from: nat, to: nat): seq<nat>
    requires from <= to
  {
    seq(to - from, k requires 0 <= k => from + k)
  }

  /** Holes collected from the first i runs. */
  ghost predicate Collected(w: Positive, runs: seq<Run>, reached: set<nat>, i: nat, holes: seq<nat>)
    requires i <= |runs|
  {
    Strict(holes) &&
    forall c :: c in holes <==> exists j :: 0 <= j < i && j !in reached && runs[j].Has(w, c)
  }

  lemma NothingCollected(w: Positive, runs: seq<Run>, reached: set<nat>)
    ensures Collected(w, runs, reached, 0, []) && CellsOf(runs, 0) == 0
  {
  }

  lemma CollectNothing(w: Positive, runs: seq<Run>, reached: set<nat>, i: nat, holes: seq<nat>)
    requires i < |runs| && i in reached && Collected(w, runs, reached, i, holes)
    ensures Collected(w, runs, reached, i + 1, holes)
  {
  }

  lemma {:induction false} CellsOfStep(runs: seq<Run>, i: nat)
    requires i < |runs| && forall k :: 0 <= k < |runs| ==> runs[k].first <= runs[k].last
    ensures CellsOf(runs, 0) == 0
    ensures CellsOf(runs, i + 1) == CellsOf(runs, i) + runs[i].last - runs[i].first + 1
    ensures CellsOf(runs, i + 1) <= CellsOf(runs, |runs|)
    decreases |runs| - i
  {
    if i + 1 < |runs| {
      CellsOfStep(runs, i + 1);
    }
  }

  lemma CollectRun(w: Positive, runs: seq<Run>, reached: set<nat>, i: nat, holes: seq<nat>, from: nat, to: nat)
    requires i < |runs| && i !in reached && Collected(w, runs, reached, i, holes)
    requires runs[i].first <= runs[i].last < w
    requires forall j :: 0 <= j < i ==> Before(runs[j], runs[i])
    requires from == At(w, runs[i].first, runs[i].row) && to == At(w, runs[i].last, runs[i].row) + 1
    ensures from <= to && Collected(w, runs, reached, i + 1, holes + Span(from, to))
  {
    CoordinatesOfAt(w, runs[i].first, runs[i].row);
    CoordinatesOfAt(w, runs[i].last, runs[i].row);
    var all := holes + Span(from, to);
    forall c: nat
      ensures runs[i].Has(w, c) <==> from <= c < to
      ensures runs[i].Has(w, c) <==> c in Span(from, to)
    {
      CellsAreRowMajor(w, c, from);
      CellsAreRowMajor(w, to - 1, c);
      if from <= c < to {
        assert Span(from, to)[c - from] == c;
      }
    }
    assert forall k :: 0 <= k < |Span(from, to)| ==> Span(from, to)[k] == from + k;
    forall c | c in holes
      ensures c < from
    {
      var j :| 0 <= j < i && j !in reached && runs[j].Has(w, c);
      assert Before(runs[j], runs[i]);
      CellsAreRowMajor(w, c, from);
    }
    forall p, q | 0 <= p < q < |all|
      ensures all[p] < all[q]
    {
      assert p < |holes| ==> all[p] in holes;
    }
    forall c
      ensures c in all <==> exists j :: 0 <= j < i + 1 && j !in reached && runs[j].Has(w, c)
    {
      if c in holes {
        var j :| 0 <= j < i && j !in reached && runs[j].Has(w, c);
      }
      if exists j :: 0 <= j < i + 1 && j !in reached && runs[j].Has(w, c) {
        var j :| 0 <= j < i + 1 && j !in reached && runs[j].Has(w, c);
        assert j < i ==> c in holes;
      }
    }
  }

  /** The scan over reusable buffers.  The three parallel run arrays of the code
      (start, end, row) are one array of runs here. */
  class HoleFiller {
    const g: Board
    var runs: array<Run>
    const rowRun: array<nat>
    var reached: array<bool>
    var queue: array<nat>
    var holes: array<nat>
    var runCount: nat
    var tail: nat
    /** The runs recorded so far. */
    ghost var found: seq<Run>
    /** The buffers in use. */
    ghost var Repr: set<object>

    ghost predicate Valid()
      reads this
    {
      this !in Repr && runs in Repr && rowRun in Repr && reached in Repr && queue in Repr && holes in Repr &&
      rowRun != queue && rowRun != holes && queue != holes &&
      runs.Length > 0 && holes.Length > 0 && reached.Length == runs.Length && queue.Length == runs.Length &&
      rowRun.Length == g.height + 2
    }

    /** The run buffer starts with the recorded runs. */
    ghost predicate Holds()
      reads this, runs
    {
      Valid() && |found| <= runs.Length && forall i :: 0 <= i < |found| ==> runs[i] == found[i]
    }

    constructor (g: Board)
      ensures this.g == g && Valid() && fresh(Repr)
    {
      this.g := g;
      runs := new Run[1024](_ => Run(0, 0, 0));
      rowRun := new nat[g.height + 2];
      reached := new bool[1024];
      queue := new nat[1024];
      holes := new nat[1024];
      runCount := 0;
      tail := 0;
      found := [];
      new;
      Repr := {runs as object, rowRun as object, reached as object, queue as object, holes as object};
    }

    /** Doubles the buffers indexed by run; the recorded runs are copied. */
    method GrowRuns(size: nat)
      requires Holds()
      modifies this
      ensures Holds() && runs.Length >= size && found == old(found) && fresh(Repr - old(Repr))
      ensures fresh(runs)
    {
      var next := runs.Length;
      while next < size
        invariant next >= runs.Length
      {
        next := next * 2;
      }
      var grown := new Run[next](i requires 0 <= i < next reads this, runs => if i < runs.Length then runs[i] else Run(0, 0, 0));
      runs := grown;
      reached := new bool[next];
      queue := new nat[next];
      Repr := Repr + {runs as object, reached as object, queue as object};
    }

    /** Records one run, growing the buffers when they are full. */
    method Record(run: Run, count: nat)
      requires Holds() && count == |found|
      modifies this, runs
      ensures Holds() && found == old(found) + [run] && fresh(Repr - old(Repr))
    {
      if count == runs.Length {
        GrowRuns(count + 1);
      }
      runs[count] := run;
      found := found + [run];
    }

    /** One read per cell: a run ends at the first country cell after it. */
    method BuildRuns(owners: array<nat>, country: nat, box: Bounds) returns (open: nat)
      requires Valid() && owners.Length == g.Size() && box.Within(g) && owners !in Repr
      modifies this, Repr
      ensures Holds() && fresh(Repr - old(Repr)) && owners[..] == old(owners[..])
      ensures runCount == |found| && RunsOf(g, owners[..], country, box, found)
      ensures forall y :: box.top <= y <= box.bottom + 1 ==> Indexes(found, rowRun[y], y)
      ensures open == CellsOf(found, |found|)
    {
      hide RunsBefore, Indexes, CellsOf, Row, Col, FreeAt;
      var count := 0;
      open := 0;
      found := [];
      ScanStarts(g, owners[..], country, box);
      var y := box.top;
      while y <= box.bottom
        invariant box.top <= y <= box.bottom + 1
        invariant Holds() && fresh(Repr - old(Repr)) && owners[..] == old(owners[..])
        invariant count == |found| && RunsBefore(g, owners[..], country, box, found, box.left, y)
        invariant forall r :: box.top <= r < y ==> Indexes(found, rowRun[r], r)
        invariant open == CellsOf(found, |found|)
      {
        count, open := BuildRow(owners, country, box, y, count, open);
        y := y + 1;
      }
      ScanEnters(g, owners[..], country, box, found, box.bottom + 1);
      ScanEnds(g, owners[..], country, box, found);
      rowRun[box.bottom + 1] := count;
      runCount := count;
    }

    /** The state inside row y, before column x. */
    ghost predicate InRow(cells: seq<nat>, country: nat, box: Bounds, x: nat, y: nat, count: nat, open: nat)
      reads this, rowRun
    {
      Valid() && |cells| == g.Size() && box.Within(g) && box.top <= y <= box.bottom && box.left <= x <= box.right + 1 &&
      count == |found| && RunsBefore(g, cells, country, box, found, x, y) && open == CellsOf(found, |found|) &&
      (x == box.left || x > box.right || !FreeAt(g, cells, country, x - 1, y) || !FreeAt(g, cells, country, x, y)) &&
      forall r :: box.top <= r < y + 1 ==> Indexes(found, rowRun[r], r)
    }

    /** Records the free stretch from `from` up to x as one run. */
    method RecordStretch(owners: array<nat>, country: nat, box: Bounds, from: nat, x: nat, y: nat, before: nat, openBefore: nat)
      returns (count: nat, open: nat)
      requires Holds() && owners.Length == g.Size() && owners !in Repr && from < x <= box.right + 1
      requires InRow(owners[..], country, box, from, y, before, openBefore) && IsRun(g, owners[..], country, box, Run(y, from, x - 1))
      requires x > box.right || !FreeAt(g, owners[..], country, x, y)
      modifies this, Repr
      ensures Holds() && fresh(Repr - old(Repr)) && owners[..] == old(owners[..])
      ensures InRow(owners[..], country, box, x, y, count, open)
    {
      hide RunsBefore, CellsOf, IsRun, FreeAt;
      var run := Run(y, from, x - 1);
      ScanCloses(g, owners[..], country, box, found, from, x, y);
      CellsOfMore(found, run);
      Record(run, before);
      count, open := before + 1, openBefore + x - from;
    }

    /** Skips one country cell, or records the whole run that starts here. */
    method TakeCell(owners: array<nat>, country: nat, box: Bounds, from: nat, y: nat, before: nat, openBefore: nat)
      returns (x: nat, count: nat, open: nat)
      requires Holds() && owners.Length == g.Size() && owners !in Repr && from <= box.right
      requires InRow(owners[..], country, box, from, y, before, openBefore)
      modifies this, Repr
      ensures Holds() && fresh(Repr - old(Repr)) && owners[..] == old(owners[..])
      ensures x > from && InRow(owners[..], country, box, x, y, count, open)
    {
      AtIsCell(g, from, y);
      assert y * g.width + from == At(g.width, from, y);
      hide RunsBefore, CellsOf, Row, Col, At;
      count, open := before, openBefore;
      if owners[y * g.width + from] == country {
        ScanSkips(g, owners[..], country, box, found, from, y);
        x := from + 1;
      } else {
        x := FreeStretch(owners, country, box, from, y);
        count, open := RecordStretch(owners, country, box, from, x, y, before, openBefore);
      }
    }

    /** The runs of one row. */
    method BuildRow(owners: array<nat>, country: nat, box: Bounds, y: nat, before: nat, openBefore: nat)
      returns (count: nat, open: nat)
      requires Holds() && owners.Length == g.Size() && box.Within(g) && owners !in Repr
      requires box.top <= y <= box.bottom
      requires before == |found| && RunsBefore(g, owners[..], country, box, found, box.left, y)
      requires openBefore == CellsOf(found, |found|)
      requires forall r :: box.top <= r < y ==> Indexes(found, rowRun[r], r)
      modifies this, Repr
      ensures Holds() && fresh(Repr - old(Repr)) && owners[..] == old(owners[..])
      ensures count == |found| && RunsBefore(g, owners[..], country, box, found, box.left, y + 1)
      ensures open == CellsOf(found, |found|)
      ensures forall r :: box.top <= r < y + 1 ==> Indexes(found, rowRun[r], r)
    {
      hide RunsBefore, CellsOf, Row, Col;
      count, open := before, openBefore;
      ScanEnters(g, owners[..], country, box, found, y);
      rowRun[y] := count;
      var x := box.left;
      while x <= box.right
        invariant Holds() && fresh(Repr - old(Repr)) && owners[..] == old(owners[..])
        invariant InRow(owners[..], country, box, x, y, count, open)
      {
        x, count, open := TakeCell(owners, country, box, x, y, count, open);
      }
      ScanNextRow(g, owners[..], country, box, found, y);
    }

    /** The inner do-while: the first column after `from` that the country owns. */
    method FreeStretch(owners: array<nat>, country: nat, box: Bounds, from: nat, y: nat) returns (x: nat)
      requires owners.Length == g.Size() && box.Within(g) && box.left <= from <= box.right && box.top <= y <= box.bottom
      requires FreeAt(g, owners[..], country, from, y)
      ensures from < x <= box.right + 1
      ensures forall k :: from <= k < x ==> FreeAt(g, owners[..], country, k, y)
      ensures x == box.right + 1 || !FreeAt(g, owners[..], country, x, y)
    {
      x := from + 1;
      var own := false;
      while x <= box.right && !own
        invariant from < x <= box.right + 1
        invariant forall k :: from <= k < x ==> FreeAt(g, owners[..], country, k, y)
        invariant own ==> x <= box.right && !FreeAt(g, owners[..], country, x, y)
        decreases box.right + 1 - x, !own
      {
        AtIsCell(g, x, y);
        own := owners[y * g.width + x] == country;
        assert own <==> !FreeAt(g, owners[..], country, x, y);
        if !own {
          x := x + 1;
        }
      }
    }

    // ----- the flood -----

    /** The runs marked as reached. */
    ghost function Marked(): set<nat>
      reads this, reached
      requires reached.Length >= runCount
    {
      set i: nat | i < runCount && reached[i]
    }

    /** The queue lists each marked run once; both fit their buffers. */
    ghost predicate Queued()
      reads this, runs, reached, queue
    {
      Holds() && runCount == |found| && tail <= runCount && NoRepeats(queue[..tail]) &&
      (forall k :: 0 <= k < tail ==> queue[k] < runCount) &&
      forall i :: 0 <= i < runCount ==> (reached[i] <==> i in queue[..tail])
    }

    /** The row index of the recorded runs, which lie in the box in scan order. */
    ghost predicate Indexed(box: Bounds)
      reads this, rowRun
    {
      Valid() && box.bottom + 1 < rowRun.Length && box.top <= box.bottom &&
      (forall y :: box.top <= y <= box.bottom + 1 ==> Indexes(found, rowRun[y], y)) &&
      (forall i :: 0 <= i < |found| ==> box.top <= found[i].row <= box.bottom && found[i].first <= found[i].last) &&
      forall i, j :: 0 <= i < j < |found| ==> Before(found[i], found[j])
    }

    method Push(i: nat)
      requires Queued() && i < runCount && !reached[i]
      modifies this`tail, reached, queue
      ensures Queued() && queue[..tail] == old(queue[..tail]) + [i]
      ensures Marked() == old(Marked()) + {i}
    {
      ghost var before := queue[..tail];
      NoRepeatsAreFew(before + [i], runCount);
      reached[i] := true;
      queue[tail] := i;
      tail := tail + 1;
      assert queue[..tail] == before + [i];
    }

    method Mark(i: nat)
      requires Queued() && i < runCount
      modifies this`tail, reached, queue
      ensures Queued() && old(queue[..tail]) <= queue[..tail]
      ensures Marked() == old(Marked()) + {i}
    {
      if !reached[i] {
        Push(i);
      }
    }

    /** Runs touching the rim of the box start on the outside. */
    method SeedEdgeRuns(box: Bounds)
      requires Queued() && Indexed(box) && tail == 0
      modifies this`tail, reached, queue
      ensures Queued() && Marked() == EdgeRuns(box, found, |found|)
    {
      hide NoRepeats, EdgeRuns, Indexes, Before;
      var y, i := box.top, rowRun[box.top];
      FirstRowStarts(box, found, i);
      assert EdgeRuns(box, found, 0) == {} by { NothingOnEdge(box, found); }
      assert queue[..tail] == [];
      while y <= box.bottom
        invariant box.top <= y <= box.bottom + 1 && i == rowRun[y] <= |found|
        invariant Queued() && Marked() == EdgeRuns(box, found, i)
      {
        IndexesAscend(found, rowRun[y], rowRun[y + 1], y);
        var to, edge := rowRun[y + 1], y == box.top || y == box.bottom;
        while i < to
          invariant rowRun[y] <= i <= to
          invariant Queued() && Marked() == EdgeRuns(box, found, i)
        {
          OneMoreOnEdge(box, found, i);
          if edge || runs[i].first == box.left || runs[i].last == box.right {
            assert i !in Marked();
            Push(i);
          }
          i := i + 1;
        }
        y := y + 1;
      }
      LastRowEnds(box, found, i);
    }

    /** Row ends ascend, so the first run of a row reaching `from` is found by bisection. */
    method FirstReaching(rowFrom: nat, rowTo: nat, from: int) returns (lo: nat)
      requires Holds() && rowFrom <= rowTo <= |found|
      requires forall i, j :: rowFrom <= i < j < rowTo ==> found[i].last < found[j].last
      ensures rowFrom <= lo <= rowTo
      ensures forall j :: rowFrom <= j < lo ==> found[j].last < from
      ensures forall j :: lo <= j < rowTo ==> found[j].last >= from
    {
      lo := rowFrom;
      var hi := rowTo;
      while lo < hi
        invariant rowFrom <= lo <= hi <= rowTo
        invariant forall j :: rowFrom <= j < lo ==> found[j].last < from
        invariant forall j :: hi <= j < rowTo ==> found[j].last >= from
      {
        var mid := (lo + hi) / 2;
        if runs[mid].last < from {
          lo := mid + 1;
        } else {
          hi := mid;
        }
      }
    }

    /** Marks the runs of one row whose spans meet [from, to]. */
    method MarkTouchingRuns(box: Bounds, row: nat, from: int, to: int)
      requires Queued() && Indexed(box) && box.top <= row <= box.bottom
      modifies this`tail, reached, queue
      ensures Queued() && old(queue[..tail]) <= queue[..tail]
      ensures Marked() == old(Marked()) + RunsMeeting(found, row, from, to, |found|)
    {
      hide NoRepeats, RunsMeeting, Indexes, Before, Marked;
      ghost var queued, marked := queue[..tail], Marked();
      var rowFrom, rowTo := rowRun[row], rowRun[row + 1];
      RowInOrder(found, rowFrom, rowTo, row);
      var lo := FirstReaching(rowFrom, rowTo, from);
      var i := lo;
      NoneMeetBefore(found, row, from, to, rowFrom, lo);
      while i < rowTo && runs[i].first <= to
        invariant lo <= i <= rowTo
        invariant Queued() && queued <= queue[..tail]
        invariant Marked() == marked + RunsMeeting(found, row, from, to, i)
      {
        OneMoreMeets(found, row, from, to, i, marked);
        Mark(i);
        i := i + 1;
      }
      NoneMeetAfter(found, row, from, to, i, rowTo);
    }

    method FloodNeighbourRows(run: nat, box: Bounds)
      requires Queued() && Indexed(box) && run < runCount
      modifies this`tail, reached, queue
      ensures Queued() && old(queue[..tail]) <= queue[..tail]
      ensures Marked() == old(Marked()) + Touched(found, run)
    {
      hide NoRepeats, RunsMeeting, Before, Touched, Marked, Indexes, Touch;
      TouchedRows(box, found, run);
      var y, from, to := runs[run].row, runs[run].first - 1, runs[run].last + 1;
      if y > box.top {
        MarkTouchingRuns(box, y - 1, from, to);
      }
      if y < box.bottom {
        MarkTouchingRuns(box, y + 1, from, to);
      }
    }

    /** The queue flood, from the rim inward. */
    method FloodRuns(box: Bounds)
      requires Holds() && runCount == |found| && Indexed(box)
      requires forall i :: 0 <= i < runCount ==> !reached[i]
      modifies this`tail, reached, queue
      ensures Queued() && Flooded(box, found, Marked())
      ensures forall i :: i in Marked() ==> FromRim(box, found, i)
    {
      hide Touched, EdgeRuns, FromRim, Flooded, Indexes;
      var head := 0;
      tail := 0;
      assert queue[..tail] == [];
      SeedEdgeRuns(box);
      EdgeRunsAreFromRim(box, found);
      while head < tail
        invariant 0 <= head <= tail && Queued()
        invariant EdgeRuns(box, found, |found|) <= Marked()
        invariant forall i :: i in Marked() ==> FromRim(box, found, i)
        invariant forall k :: 0 <= k < head ==> Touched(found, queue[k]) <= Marked()
        decreases runCount - head
      {
        head := FloodOne(head, box);
      }
      forall i | i in Marked()
        ensures Touched(found, i) <= Marked()
      {
        var k :| 0 <= k < tail && queue[..tail][k] == i;
      }
      FloodIsDone(box, found, Marked());
    }

    /** Takes one run off the queue. */
    method FloodOne(at: nat, box: Bounds) returns (head: nat)
      requires Queued() && Indexed(box) && at < tail
      requires forall i :: i in Marked() ==> FromRim(box, found, i)
      requires forall k :: 0 <= k < at ==> Touched(found, queue[k]) <= Marked()
      modifies this`tail, reached, queue
      ensures Queued() && head == at + 1 <= tail && old(Marked()) <= Marked()
      ensures forall i :: i in Marked() ==> FromRim(box, found, i)
      ensures forall k :: 0 <= k < head ==> Touched(found, queue[k]) <= Marked()
    {
      hide Touched, FromRim, Indexes, NoRepeats;
      ghost var before := queue[..tail];
      var run := queue[at];
      assert run in Marked() by { assert queue[..tail][at] == run; }
      head := at + 1;
      TouchedAreFromRim(box, found, run);
      FloodNeighbourRows(run, box);
      assert forall k :: 0 <= k < |before| ==> queue[..tail][k] == before[k];
    }

    // ----- the result -----

    method GrowHoles(size: nat)
      requires Queued()
      modifies this
      ensures Queued() && holes.Length >= size && fresh(Repr - old(Repr)) && (holes == old(holes) || fresh(holes))
      ensures found == old(found) && runs == old(runs) && reached == old(reached) && runCount == old(runCount)
      ensures Marked() == old(Marked())
    {
      if size <= holes.Length {
        return;
      }
      var next := holes.Length;
      while next < size
        invariant next >= holes.Length
      {
        next := next * 2;
      }
      holes := new nat[next](i requires 0 <= i < next reads this, holes => if i < holes.Length then holes[i] else 0);
      Repr := Repr + {holes as object};
    }

    /** Appends the cells [from, to) behind the first n holes. */
    method CopyCells(n: nat, from: nat, to: nat) returns (m: nat)
      requires from <= to && n + (to - from) <= holes.Length
      modifies holes
      ensures m == n + (to - from) && holes[..m] == old(holes[..n]) + Span(from, to)
    {
      m := n;
      var cell := from;
      while cell < to
        invariant from <= cell <= to && m == n + (cell - from)
        invariant holes[..m] == old(holes[..n]) + Span(from, cell)
      {
        holes[m] := cell;
        m, cell := m + 1, cell + 1;
        assert Span(from, cell) == Span(from, cell - 1) + [cell - 1];
      }
    }

    /** The cells of one run, unless the flood reached it. */
    method CollectOne(i: nat, n: nat) returns (m: nat)
      requires Queued() && i < runCount && found[i].first <= found[i].last < g.width
      requires forall j :: 0 <= j < i ==> Before(found[j], found[i])
      requires n + (found[i].last - found[i].first + 1) <= holes.Length && Collected(g.width, found, Marked(), i, holes[..n])
      modifies holes
      ensures Queued() && Marked() == old(Marked())
      ensures m <= n + (found[i].last - found[i].first + 1) && Collected(g.width, found, Marked(), i + 1, holes[..m])
    {
      hide NoRepeats, Collected, Row, Col;
      m := n;
      if reached[i] {
        CollectNothing(g.width, found, Marked(), i, holes[..n]);
      } else {
        var base := runs[i].row * g.width;
        CollectRun(g.width, found, Marked(), i, holes[..n], base + runs[i].first, base + runs[i].last + 1);
        m := CopyCells(n, base + runs[i].first, base + runs[i].last + 1);
      }
    }

    /** The cells of the unreached runs, in scan order. */
    method CollectHoles(open: nat) returns (result: seq<nat>)
      requires Queued() && open == CellsOf(found, |found|)
      requires forall i :: 0 <= i < |found| ==> found[i].first <= found[i].last < g.width
      requires forall i, j :: 0 <= i < j < |found| ==> Before(found[i], found[j])
      modifies this, Repr
      ensures Valid() && fresh(Repr - old(Repr)) && found == old(found)
      ensures Collected(g.width, found, old(Marked()), |found|, result)
    {
      hide NoRepeats, Collected, CellsOf, Row, Col;
      GrowHoles(open);
      ghost var marked := Marked();
      var n: nat := 0;
      NothingCollected(g.width, found, marked);
      var count := runCount;
      for i := 0 to count
        invariant Queued() && count == runCount && found == old(found) && Marked() == marked && fresh(Repr - old(Repr))
        invariant n <= CellsOf(found, i) <= open <= holes.Length
        invariant Collected(g.width, found, marked, i, holes[..n])
      {
        CellsOfStep(found, i);
        n := CollectOne(i, n);
      }
      result := holes[..n];
    }

    /** Captured cells in ascending order: the holes of the box. */
    method Fill(owners: array<nat>, country: nat, box: Bounds) returns (result: seq<nat>)
      requires Valid() && owners.Length == g.Size() && box.Within(g) && owners !in Repr
      modifies this, Repr
      ensures Valid() && fresh(Repr - old(Repr)) && owners[..] == old(owners[..])
      ensures Strict(result)
      ensures forall cell :: cell in result <==> IsHole(g, owners[..], country, box, cell)
    {
      hide RunsBefore, Indexes, CellsOf, Row, Col, FreeAt, Flooded, FromRim, Collected, IsHole;
      var open := BuildRuns(owners, country, box);
      RunsAreInBox(g, owners[..], country, box, found);
      ghost var scanned := found;
      if runCount == 0 {
        NoRunsNoHoles(g, owners[..], country, box);
        return [];
      }
      var count := runCount;
      for i := 0 to count
        invariant Holds() && count == runCount == |found| && Indexed(box) && found == scanned
        invariant fresh(Repr - old(Repr)) && owners[..] == old(owners[..])
        invariant forall k :: 0 <= k < i ==> !reached[k]
      {
        reached[i] := false;
      }
      FloodRuns(box);
      ghost var marked := Marked();
      result := CollectHoles(open);
      FloodFindsHoles(g, owners[..], country, box, found, marked, result);
    }
  }
}
