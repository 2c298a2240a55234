/** The gates of the enclosure engine: which claims can cut ground off at all.

    A claim can only cut off what sits beside it.  The ring test and the straight
    rays decide cheaply that nothing was cut; otherwise they name the neighbours a
    search has to start from.  GateNamesEveryCut is the soundness of that decision. */
module Enclosure {
  import opened Basics
  import opened Grid

  /** How many cells a local search may visit, and how many starts a queue may hold. */
  const LOCAL_SEARCH_BUDGET: nat := 16384

  // ----- straight exits -----

  function Sign(d: int): int {
    if d < 0 then -1 else if d > 0 then 1 else 0
  }

  /** The cell b lies strictly ahead of a in the compass direction (dx, dy). */
  predicate OnRay(w: Positive, a: nat, dx: int, dy: int, b: nat) {
    var x, y := Col(w, b) - Col(w, a), Row(w, b) - Row(w, a);
    Sign(x) == dx && Sign(y) == dy && (x == 0 || y == 0 || x == y || x == -y)
  }

  /** The country owns no cell of the box that lies on the ray. */
  ghost predicate ClearRay(g: Board, owners: seq<nat>, country: nat, box: Bounds, cell: nat, dx: int, dy: int) {
    forall b :: 0 <= b < |owners| && OnRay(g.width, cell, dx, dy, b) && box.Contains(g.width, b) ==> owners[b] != country
  }

  /** A free cell on the rim of the box, or with a clear ray in a compass direction. */
  ghost predicate StraightExit(g: Board, owners: seq<nat>, country: nat, cell: nat, box: Bounds)
    requires cell < |owners|
  {
    owners[cell] != country &&
    (box.AtBoundary(Col(g.width, cell), Row(g.width, cell)) ||
     exists i :: 0 <= i < 8 && ClearRay(g, owners, country, box, cell, RingX(i), RingY(i)))
  }

  /** How far a cell is from the edge of the board in one of the four side directions. */
  function EdgeDistance(g: Board, cell: nat, i: nat): int
    requires i in {1, 3, 5, 7}
  {
    if i == 7 then Col(g.width, cell)
    else if i == 3 then g.width - 1 - Col(g.width, cell)
    else if i == 1 then Row(g.width, cell)
    else g.height - 1 - Row(g.width, cell)
  }

  /** From the rim of a covering box, the way straight out is free. */
  lemma {:induction false} WalkOut(g: Board, owners: seq<nat>, country: nat, cell: nat, box: Bounds, i: nat)
    requires |owners| == g.Size() && cell < |owners| && owners[cell] != country
    requires Covers(g, box, owners, country)
    requires i in {1, 3, 5, 7}
    requires i == 7 ==> Col(g.width, cell) <= box.left
    requires i == 3 ==> Col(g.width, cell) >= box.right
    requires i == 1 ==> Row(g.width, cell) <= box.top
    requires i == 5 ==> Row(g.width, cell) >= box.bottom
    ensures Escapes(g, Free(owners, country), cell)
    decreases EdgeDistance(g, cell, i)
  {
    RowsAreBounded(g, cell);
    if EdgeDistance(g, cell, i) == 0 {
      EscapesAtEdge(g, Free(owners, country), cell);
    } else {
      var next := Neighbour(g, cell, i);
      assert !box.Contains(g.width, next);
      WalkOut(g, owners, country, next, box, i);
      ReachStep(g.width, Free(owners, country), cell, next);
      EscapesVia(g, Free(owners, country), cell, next);
    }
  }

  /** A free cell on or outside the rim of a covering box escapes. */
  lemma BoundaryEscapes(g: Board, owners: seq<nat>, country: nat, cell: nat, box: Bounds)
    requires |owners| == g.Size() && cell < |owners| && owners[cell] != country
    requires Covers(g, box, owners, country)
    requires box.AtBoundary(Col(g.width, cell), Row(g.width, cell))
    ensures Escapes(g, Free(owners, country), cell)
  {
    var x, y := Col(g.width, cell), Row(g.width, cell);
    WalkOut(g, owners, country, cell, box,
            if x <= box.left then 7 else if x >= box.right then 3 else if y <= box.top then 1 else 5);
  }

  /** How many more steps in direction (dx, dy) can stay strictly inside the box. */
  function StepsInside(w: Positive, box: Bounds, cell: nat, dx: int, dy: int): int {
    if dx < 0 then Col(w, cell) - box.left
    else if dx > 0 then box.right - Col(w, cell)
    else if dy < 0 then Row(w, cell) - box.top
    else box.bottom - Row(w, cell)
  }

  lemma {:induction false} ClearRayEscapes(g: Board, owners: seq<nat>, country: nat, cell: nat, box: Bounds, i: nat)
    requires |owners| == g.Size() && cell < |owners| && owners[cell] != country
    requires Covers(g, box, owners, country) && i < 8
    requires ClearRay(g, owners, country, box, cell, RingX(i), RingY(i))
    ensures Escapes(g, Free(owners, country), cell)
    decreases StepsInside(g.width, box, cell, RingX(i), RingY(i))
  {
    if box.AtBoundary(Col(g.width, cell), Row(g.width, cell)) {
      BoundaryEscapes(g, owners, country, cell, box);
    } else {
      var next := Neighbour(g, cell, i);
      assert OnRay(g.width, cell, RingX(i), RingY(i), next);
      forall b | 0 <= b < |owners| && OnRay(g.width, next, RingX(i), RingY(i), b) && box.Contains(g.width, b)
        ensures owners[b] != country
      {
        assert OnRay(g.width, cell, RingX(i), RingY(i), b);
      }
      ClearRayEscapes(g, owners, country, next, box, i);
      ReachStep(g.width, Free(owners, country), cell, next);
      EscapesVia(g, Free(owners, country), cell, next);
    }
  }

  /** A straight exit proves that the cell reaches the edge of the board. */
  lemma StraightExitEscapes(g: Board, owners: seq<nat>, country: nat, cell: nat, box: Bounds)
    requires |owners| == g.Size() && cell < |owners|
    requires Covers(g, box, owners, country)
    requires StraightExit(g, owners, country, cell, box)
    ensures Escapes(g, Free(owners, country), cell)
  {
    if box.AtBoundary(Col(g.width, cell), Row(g.width, cell)) {
      BoundaryEscapes(g, owners, country, cell, box);
    } else {
      var i :| 0 <= i < 8 && ClearRay(g, owners, country, box, cell, RingX(i), RingY(i));
      ClearRayEscapes(g, owners, country, cell, box, i);
    }
  }

  /** Every free cell of a country with no cells escapes. */
  lemma NothingOwnedEscapes(g: Board, owners: seq<nat>, country: nat, cell: nat)
    requires |owners| == g.Size() && cell < |owners|
    requires forall b :: 0 <= b < |owners| ==> owners[b] != country
    ensures Escapes(g, Free(owners, country), cell)
  {
    var box := Bounds(0, g.width - 1, 0, g.height - 1);
    RowsAreBounded(g, cell);
    assert ClearRay(g, owners, country, box, cell, RingX(7), RingY(7));
    StraightExitEscapes(g, owners, country, cell, box);
  }

  // ----- the ring gate -----

  ghost predicate RingOpen(g: Board, owners: seq<nat>, country: nat, cell: nat, i: nat)
    requires |owners| == g.Size() && cell < |owners| && i < 8
  {
    HasNeighbour(g, cell, i) && NeighbourOwner(g, owners, cell, i) != country
  }

  ghost predicate RingWalled(g: Board, owners: seq<nat>, country: nat, cell: nat, i: nat)
    requires |owners| == g.Size() && cell < |owners| && i < 8
  {
    HasNeighbour(g, cell, i) && NeighbourOwner(g, owners, cell, i) == country
  }

  ghost function NeighbourOwner(g: Board, owners: seq<nat>, cell: nat, i: nat): nat
    requires |owners| == g.Size() && cell < |owners| && i < 8 && HasNeighbour(g, cell, i)
  {
    owners[Neighbour(g, cell, i)]
  }

  ghost function OpenRing(g: Board, owners: seq<nat>, country: nat, cell: nat): seq<bool>
    requires |owners| == g.Size() && cell < |owners|
  {
    seq(8, i requires 0 <= i < 8 => RingOpen(g, owners, country, cell, i))
  }

  ghost predicate Walled(g: Board, owners: seq<nat>, country: nat, cell: nat)
    requires |owners| == g.Size() && cell < |owners|
  {
    exists i :: 0 <= i < 8 && RingWalled(g, owners, country, cell, i)
  }

  /** Open runs that start among the first n ring positions; position 7 precedes position 0. */
  function RunStarts(open: seq<bool>, n: nat): nat
    requires |open| == 8 && n <= 8
  {
    if n == 0 then 0
    else RunStarts(open, n - 1) + RunBit(open, n - 1)
  }

  function RunBit(open: seq<bool>, k: nat): nat
    requires |open| == 8 && k < 8
  {
    if open[k] && !open[(k + 7) % 8] then 1 else 0
  }

  /** The open neighbours among the first n ring positions that have no straight exit. */
  ghost function AtRisk(g: Board, owners: seq<nat>, country: nat, cell: nat, box: Bounds, n: nat): seq<nat>
    requires |owners| == g.Size() && cell < |owners| && n <= 8
  {
    if n == 0 then []
    else
      var before := AtRisk(g, owners, country, cell, box, n - 1);
      if RingOpen(g, owners, country, cell, n - 1) && !NeighbourExits(g, owners, country, cell, box, n - 1)
      then before + [Neighbour(g, cell, n - 1)] else before
  }

  ghost predicate NeighbourExits(g: Board, owners: seq<nat>, country: nat, cell: nat, box: Bounds, i: nat)
    requires |owners| == g.Size() && cell < |owners| && i < 8 && HasNeighbour(g, cell, i)
  {
    StraightExit(g, owners, country, Neighbour(g, cell, i), box)
  }

  /** The gate: no search, or the neighbours to search from. */
  ghost function Gate(g: Board, owners: seq<nat>, country: nat, cell: nat, box: Bounds): Option<seq<nat>>
    requires |owners| == g.Size() && cell < |owners|
  {
    if !Walled(g, owners, country, cell) then None
    else if !OnEdge(g, cell) && RunStarts(OpenRing(g, owners, country, cell), 8) < 2 then None
    else
      var risky := AtRisk(g, owners, country, cell, box, 8);
      if |risky| > 0 then Some(risky) else None
  }

  lemma {:induction false} AtRiskHas(g: Board, owners: seq<nat>, country: nat, cell: nat, box: Bounds, n: nat, i: nat)
    requires |owners| == g.Size() && cell < |owners| && i < n <= 8
    requires RingOpen(g, owners, country, cell, i)
    requires !NeighbourExits(g, owners, country, cell, box, i)
    ensures Neighbour(g, cell, i) in AtRisk(g, owners, country, cell, box, n)
  {
    if i < n - 1 {
      AtRiskHas(g, owners, country, cell, box, n - 1, i);
    }
  }

  lemma {:induction false} AtRiskAreFree(g: Board, owners: seq<nat>, country: nat, cell: nat, box: Bounds, n: nat)
    requires |owners| == g.Size() && cell < |owners| && n <= 8
    ensures forall q :: q in AtRisk(g, owners, country, cell, box, n) ==> q in Free(owners, country)
  {
    if n > 0 {
      AtRiskAreFree(g, owners, country, cell, box, n - 1);
    }
  }

  lemma InnerHasRing(g: Board, cell: nat, k: nat)
    requires cell < g.Size() && !OnEdge(g, cell) && k < 8
    ensures HasNeighbour(g, cell, k)
  {
    RowsAreBounded(g, cell);
  }

  /** Consecutive ring cells are adjacent to each other. */
  lemma RingStep(g: Board, cell: nat, a: nat)
    requires a < 8 && HasNeighbour(g, cell, a) && HasNeighbour(g, cell, Around(a, 1))
    ensures Adjacent(g.width, Neighbour(g, cell, a), Neighbour(g, cell, Around(a, 1)))
  {
    var b := Around(a, 1);
    assert b == if a == 7 then 0 else a + 1;
    assert (RingX(a) != RingX(b) || RingY(a) != RingY(b)) && -1 <= RingX(a) - RingX(b) <= 1 && -1 <= RingY(a) - RingY(b) <= 1;
  }

  /** The ring position t places further round. */
  function Around(i: nat, t: nat): nat {
    if i + t < 8 then i + t else i + t - 8
  }

  /** How many places further round j is than i. */
  function Turn(i: nat, j: nat): nat
    requires i < 8 && j < 8
  {
    if i <= j then j - i else 8 + j - i
  }

  lemma RingStepReaches(g: Board, owners: seq<nat>, country: nat, cell: nat, a: nat)
    requires |owners| == g.Size() && cell < |owners| && a < 8
    requires RingOpen(g, owners, country, cell, a) && RingOpen(g, owners, country, cell, Around(a, 1))
    ensures Reach(g.width, Free(owners, country), Neighbour(g, cell, a), Neighbour(g, cell, Around(a, 1)))
  {
    RingStep(g, cell, a);
    ReachStep(g.width, Free(owners, country), Neighbour(g, cell, a), Neighbour(g, cell, Around(a, 1)));
  }

  /** Consecutive open ring cells are joined around the claimed cell. */
  lemma {:induction false} RingWalk(g: Board, owners: seq<nat>, country: nat, cell: nat, i: nat, k: nat)
    requires |owners| == g.Size() && cell < |owners|
    requires i < 8 && k < 8 && RingOpen(g, owners, country, cell, i)
    requires forall t :: 0 <= t <= k ==> RingOpen(g, owners, country, cell, Around(i, t))
    ensures RingOpen(g, owners, country, cell, Around(i, k))
    ensures Reach(g.width, Free(owners, country), Neighbour(g, cell, i), Neighbour(g, cell, Around(i, k)))
  {
    assert RingOpen(g, owners, country, cell, Around(i, k));
    if k == 0 {
      assert Around(i, 0) == i;
      ReachSelf(g.width, Free(owners, country), Neighbour(g, cell, i));
    } else {
      var a := Around(i, k - 1);
      RingWalk(g, owners, country, cell, i, k - 1);
      assert Around(a, 1) == Around(i, k);
      RingStepReaches(g, owners, country, cell, a);
      ReachTrans(g.width, Free(owners, country), Neighbour(g, cell, i), Neighbour(g, cell, a), Neighbour(g, cell, Around(i, k)));
    }
  }


  /** With fewer than two runs, one of the two arcs between open positions is open. */
  lemma OneRunJoins(open: seq<bool>, i: nat, j: nat)
    requires |open| == 8 && i <= j < 8 && open[i] && open[j]
    requires RunStarts(open, 8) < 2
    ensures (forall t :: 0 <= t <= Turn(i, j) ==> open[Around(i, t)]) || (forall t :: 0 <= t <= Turn(j, i) ==> open[Around(j, t)])
  {
    assert RunStarts(open, 0) == 0;
    assert RunStarts(open, 1) == RunBit(open, 0);
    assert RunStarts(open, 2) == RunStarts(open, 1) + RunBit(open, 1);
    assert RunStarts(open, 3) == RunStarts(open, 2) + RunBit(open, 2);
    assert RunStarts(open, 4) == RunStarts(open, 3) + RunBit(open, 3);
    assert RunStarts(open, 5) == RunStarts(open, 4) + RunBit(open, 4);
    assert RunStarts(open, 6) == RunStarts(open, 5) + RunBit(open, 5);
    assert RunStarts(open, 7) == RunStarts(open, 6) + RunBit(open, 6);
  }

  lemma RingIsJoined(g: Board, owners: seq<nat>, country: nat, cell: nat, i: nat, j: nat)
    requires |owners| == g.Size() && cell < |owners| && !OnEdge(g, cell)
    requires i < 8 && j < 8
    requires HasNeighbour(g, cell, i) && HasNeighbour(g, cell, j)
    requires RingOpen(g, owners, country, cell, i) && RingOpen(g, owners, country, cell, j)
    requires RunStarts(OpenRing(g, owners, country, cell), 8) < 2
    ensures Reach(g.width, Free(owners, country), Neighbour(g, cell, i), Neighbour(g, cell, j))
  {
    var open := OpenRing(g, owners, country, cell);
    OneRunJoins(open, if i <= j then i else j, if i <= j then j else i);
    if forall t :: 0 <= t <= Turn(i, j) ==> open[Around(i, t)] {
      RingArc(g, owners, country, cell, i, j);
    } else {
      RingArc(g, owners, country, cell, j, i);
      ReachSym(g.width, Free(owners, country), Neighbour(g, cell, j), Neighbour(g, cell, i));
    }
  }

  lemma RingArc(g: Board, owners: seq<nat>, country: nat, cell: nat, i: nat, j: nat)
    requires |owners| == g.Size() && cell < |owners| && !OnEdge(g, cell)
    requires i < 8 && j < 8
    requires HasNeighbour(g, cell, i) && HasNeighbour(g, cell, j)
    requires forall t :: 0 <= t <= Turn(i, j) ==> OpenRing(g, owners, country, cell)[Around(i, t)]
    ensures Reach(g.width, Free(owners, country), Neighbour(g, cell, i), Neighbour(g, cell, j))
  {
    var k := Turn(i, j);
    forall t | 0 <= t <= k
      ensures RingOpen(g, owners, country, cell, Around(i, t))
    {
      assert OpenRing(g, owners, country, cell)[Around(i, t)];
    }
    assert Around(i, 0) == i && Around(i, k) == j;
    RingWalk(g, owners, country, cell, i, k);
  }

  /** Beside an unwalled cell on the edge, every neighbour escapes. */
  lemma UnwalledEdgeEscapes(g: Board, owners: seq<nat>, country: nat, cell: nat, i: nat)
    requires |owners| == g.Size() && cell < |owners| && i < 8
    requires OnEdge(g, cell) && !Walled(g, owners, country, cell) && HasNeighbour(g, cell, i)
    ensures RingOpen(g, owners, country, cell, i)
    ensures Escapes(g, Free(owners, country), Neighbour(g, cell, i))
  {
    var w, free := g.width, Free(owners, country);
    RowsAreBounded(g, cell);
    var n := Neighbour(g, cell, i);
    assert !RingWalled(g, owners, country, cell, i);
    if OnEdge(g, n) {
      EscapesAtEdge(g, free, n);
    } else {
      var dx, dy := RingX(i), RingY(i);
      // the edge cell beside both of them
      var j :=
        if Col(w, cell) == 0 || Col(w, cell) == w - 1 then if dy == -1 then 1 else 5
        else if dx == -1 then 7 else 3;
      var m := Neighbour(g, cell, j);
      assert !RingWalled(g, owners, country, cell, j);
      CellsAreRowMajor(w, n, m);
      EscapesAtEdge(g, free, m);
      ReachStep(w, free, n, m);
      EscapesVia(g, free, n, m);
    }
  }

  // ----- soundness of the gate -----

  /** A route that cannot reach a cell survives its removal. */
  lemma ReachAvoids(w: Positive, free: set<nat>, cell: nat, q: nat, r: nat)
    requires Reach(w, free, q, r) && !Reach(w, free, q, cell)
    ensures Reach(w, free - {cell}, q, r)
  {
    var route :| RouteBetween(w, free, route, q, r);
    forall k | 0 <= k < |route|
      ensures route[k] != cell
    {
      assert RouteBetween(w, free, route[..k + 1], q, route[k]);
    }
    assert RouteBetween(w, free - {cell}, route, q, r);
  }

  /** If all open neighbours of a removed cell are joined without it, nothing is cut. */
  lemma JoinedNeighboursKeep(w: Positive, free: set<nat>, cell: nat, q: nat, n: nat, r: nat)
    requires cell in free && r != cell
    requires Reach(w, free, q, r) && Reach(w, free - {cell}, q, n)
    requires forall m :: m in free && m != cell && Adjacent(w, m, cell) ==> Reach(w, free - {cell}, n, m)
    ensures Reach(w, free - {cell}, q, r)
  {
    var rest := free - {cell};
    ReachInside(w, free, q, r);
    if !Reach(w, rest, r, q) {
      ReachSym(w, free, q, r);
      var joined := set z | z in rest && Reach(w, rest, r, z);
      ReachSelf(w, rest, r);
      var last, next := ReachLeaves(w, free, joined, r, q);
      if next != cell {
        ReachStep(w, rest, last, next);
        ReachTrans(w, rest, r, last, next);
        assert false;
      }
      ReachSym(w, rest, n, last);
      ReachTrans(w, rest, r, last, n);
      ReachSym(w, rest, q, n);
      ReachTrans(w, rest, r, n, q);
    }
    ReachSym(w, rest, r, q);
  }

  /** Claiming a cell removes exactly that cell from the claimant's free ground. */
  lemma ClaimShrinksFree(owners: seq<nat>, country: nat, cell: nat)
    requires cell < |owners|
    ensures Free(owners[cell := country], country) == Free(owners, country) - {cell}
  {
  }

  /** The region of q is still whole after the claim, and it did not escape before it. */
  ghost predicate Uncut(g: Board, owners: seq<nat>, country: nat, cell: nat, q: nat)
    requires cell < |owners|
  {
    var free, rest := Free(owners, country), Free(owners[cell := country], country);
    !Escapes(g, free, q) && forall r :: r != cell && Reach(g.width, free, q, r) ==> Reach(g.width, rest, q, r)
  }

  /** Soundness of the gate.  After a claim, every free cell that cannot escape is
      either joined to a neighbour the gate returned, or lies in a region the claim
      neither cut off nor split. */
  lemma GateNamesEveryCut(g: Board, owners: seq<nat>, country: nat, cell: nat, box: Bounds, q: nat)
    requires |owners| == g.Size() && cell < |owners| && owners[cell] != country
    requires Covers(g, box, owners[cell := country], country)
    requires q in Free(owners[cell := country], country)
    requires !Escapes(g, Free(owners[cell := country], country), q)
    ensures
      var gate := Gate(g, owners[cell := country], country, cell, box);
      (gate.Some? && exists n :: n in gate.value && Reach(g.width, Free(owners[cell := country], country), q, n)) ||
      Uncut(g, owners, country, cell, q)
  {
    var after := owners[cell := country];
    var free, rest := Free(owners, country), Free(after, country);
    var w := g.width;
    ClaimShrinksFree(owners, country, cell);
    if !Reach(w, free, q, cell) {
      UncutApart(g, owners, country, cell, q);
    } else {
      var n, next := ReachLeaves(w, free, rest, q, cell);
      assert free * rest == rest;
      assert next == cell;
      ReachInside(w, rest, q, n);
      assert Adjacent(w, cell, n);
      var i := AdjacentIsNeighbour(g, cell, n);
      if Escapes(g, rest, n) {
        EscapesVia(g, rest, q, n);
        assert false;
      }
      assert RingOpen(g, after, country, cell, i);
      if NeighbourExits(g, after, country, cell, box, i) {
        StraightExitEscapes(g, after, country, n, box);
        assert false;
      }
      AtRiskHas(g, after, country, cell, box, 8, i);
      if Gate(g, after, country, cell, box).None? {
        if OnEdge(g, cell) {
          UnwalledEdgeEscapes(g, after, country, cell, i);
          assert false;
        }
        UncutJoined(g, owners, country, cell, q, i);
      }
    }
  }

  lemma UncutApart(g: Board, owners: seq<nat>, country: nat, cell: nat, q: nat)
    requires cell < |owners| && owners[cell] != country
    requires !Escapes(g, Free(owners, country) - {cell}, q)
    requires !Reach(g.width, Free(owners, country), q, cell)
    ensures Uncut(g, owners, country, cell, q)
  {
    var free := Free(owners, country);
    ClaimShrinksFree(owners, country, cell);
    forall r | Reach(g.width, free, q, r)
      ensures Reach(g.width, free - {cell}, q, r)
    {
      ReachAvoids(g.width, free, cell, q, r);
    }
  }

  /** An inner cell whose open ring is one run, or wholly open, cuts nothing. */
  lemma UncutJoined(g: Board, owners: seq<nat>, country: nat, cell: nat, q: nat, i: nat)
    requires |owners| == g.Size() && cell < |owners| && owners[cell] != country && !OnEdge(g, cell)
    requires
      var after := owners[cell := country];
      i < 8 && RingOpen(g, after, country, cell, i) &&
      Reach(g.width, Free(owners, country) - {cell}, q, Neighbour(g, cell, i)) &&
      !Escapes(g, Free(owners, country) - {cell}, q) &&
      (Walled(g, after, country, cell) ==> RunStarts(OpenRing(g, after, country, cell), 8) < 2)
    ensures Uncut(g, owners, country, cell, q)
  {
    var after, free, w := owners[cell := country], Free(owners, country), g.width;
    ClaimShrinksFree(owners, country, cell);
    RowsAreBounded(g, cell);
    var open := OpenRing(g, after, country, cell);
    if !Walled(g, after, country, cell) {
      forall k | 0 <= k < 8
        ensures open[k]
      {
        InnerHasRing(g, cell, k);
        assert !RingWalled(g, after, country, cell, k);
      }
      WholeRingHasNoStart(open, 8);
    }
    var n := Neighbour(g, cell, i);
    forall m | m in free && m != cell && Adjacent(w, m, cell)
      ensures Reach(w, free - {cell}, n, m)
    {
      assert Adjacent(w, cell, m);
      var j := AdjacentIsNeighbour(g, cell, m);
      RingIsJoined(g, after, country, cell, i, j);
    }
    forall r | r != cell && Reach(w, free, q, r)
      ensures Reach(w, free - {cell}, q, r)
    {
      JoinedNeighboursKeep(w, free, cell, q, n, r);
    }
  }

  lemma {:induction false} WholeRingHasNoStart(open: seq<bool>, n: nat)
    requires |open| == 8 && n <= 8 && forall k :: 0 <= k < 8 ==> open[k]
    ensures RunStarts(open, n) == 0
  {
    if n > 0 {
      WholeRingHasNoStart(open, n - 1);
    }
  }

  /** When the gate asks for nothing, whatever escaped before the claim still does. */
  lemma SilentGateCutsNothing(g: Board, owners: seq<nat>, country: nat, cell: nat, box: Bounds, q: nat)
    requires |owners| == g.Size() && cell < |owners| && owners[cell] != country
    requires Covers(g, box, owners[cell := country], country)
    requires Gate(g, owners[cell := country], country, cell, box).None?
    requires q != cell && Escapes(g, Free(owners, country), q)
    ensures Escapes(g, Free(owners[cell := country], country), q)
  {
    var free := Free(owners, country);
    var e: nat :| OnEdge(g, e) && Reach(g.width, free, q, e);
    ReachInside(g.width, free, q, e);
    if !Escapes(g, Free(owners[cell := country], country), q) {
      GateNamesEveryCut(g, owners, country, cell, box, q);
      assert false;
    }
  }

  // ----- the code of the gates -----

  /** Walks one straight ray from `cell` to `bound`; true when it never meets country
      ground.  The ghost sequence lists the cells from one end to the other. */
  method StraightRay(owners: array<nat>, country: nat, cell: nat, bound: int, step: int, ghost ray: seq<int>)
    returns (clear: bool)
    requires |ray| > 0 && ray[0] == cell && ray[|ray| - 1] == bound
    requires forall k :: 0 < k < |ray| ==> ray[k] == ray[k - 1] + step && 0 <= ray[k] < owners.Length
    requires forall k :: 0 <= k < |ray| - 1 ==> ray[k] != bound
    ensures clear <==> forall k :: 1 <= k < |ray| ==> owners[ray[k]] != country
  {
    var cur: int := cell;
    ghost var k := 0;
    while cur != bound && owners[cur + step] != country
      invariant 0 <= k < |ray| && cur == ray[k]
      invariant cur != bound ==> k + 1 < |ray| && ray[k + 1] == cur + step
      invariant forall j :: 1 <= j <= k ==> owners[ray[j]] != country
      decreases |ray| - k
    {
      cur, k := cur + step, k + 1;
    }
    clear := cur == bound;
  }

  /** k steps along one coordinate of a compass direction. */
  function Along(d: int, k: nat): int {
    if d < 0 then 0 - k else if d > 0 then k else 0
  }

  /** The cells of a ray, from its start to the last one inside the box. */
  ghost function RayCells(w: Positive, cell: nat, dx: int, dy: int, n: nat): seq<int> {
    seq(n + 1, k requires 0 <= k <= n => Shift(w, cell, Along(dx, k), Along(dy, k)))
  }

  ghost function RayEnd(w: Positive, box: Bounds, cell: nat, dx: int, dy: int): int
    requires box.Contains(w, cell)
  {
    var n := StepsInside(w, box, cell, dx, dy);
    RayCells(w, cell, dx, dy, n)[n]
  }

  /** Along a side direction, the ray of the box is exactly the cells the walk visits. */
  lemma RayCellsAreTheRay(g: Board, box: Bounds, cell: nat, dx: int, dy: int, n: nat)
    requires cell < g.Size() && box.Within(g) && box.Contains(g.width, cell)
    requires (dx, dy) in {(-1, 0), (1, 0), (0, -1), (0, 1)}
    requires n == StepsInside(g.width, box, cell, dx, dy)
    ensures
      var ray := RayCells(g.width, cell, dx, dy, n);
      (forall k :: 1 <= k <= n ==>
        0 <= ray[k] < g.Size() && OnRay(g.width, cell, dx, dy, ray[k]) && box.Contains(g.width, ray[k])) &&
      (forall b: nat :: OnRay(g.width, cell, dx, dy, b) && box.Contains(g.width, b) ==> b in ray[1..])
  {
    var ray := RayCells(g.width, cell, dx, dy, n);
    forall k | 1 <= k <= n
      ensures 0 <= ray[k] < g.Size() && OnRay(g.width, cell, dx, dy, ray[k]) && box.Contains(g.width, ray[k])
    {
      ShiftMoves(g, cell, Along(dx, k), Along(dy, k));
    }
    forall b: nat | OnRay(g.width, cell, dx, dy, b) && box.Contains(g.width, b)
      ensures b in ray[1..]
    {
      var k := if dx != 0 then dx * (Col(g.width, b) - Col(g.width, cell)) else dy * (Row(g.width, b) - Row(g.width, cell));
      ShiftMoves(g, cell, Along(dx, k), Along(dy, k));
      CellsAreRowMajor(g.width, b, ray[k]);
      assert ray[1..][k - 1] == b;
    }
  }

  /** The walk's cells lie one flat step apart, and only the last is the bound. */
  lemma RayCellsStep(g: Board, box: Bounds, cell: nat, dx: int, dy: int, n: nat, k: nat)
    requires cell < g.Size() && box.Within(g) && box.Contains(g.width, cell)
    requires (dx, dy) in {(-1, 0), (1, 0), (0, -1), (0, 1)}
    requires n == StepsInside(g.width, box, cell, dx, dy) && k < n
    ensures
      var ray := RayCells(g.width, cell, dx, dy, n);
      ray[k + 1] == ray[k] + Shift(g.width, 0, dx, dy) && ray[k] != ray[n]
  {
    Distribute(Along(dy, k), dy, g.width);
    assert Along(dy, k + 1) == Along(dy, k) + dy;
    ShiftMoves(g, cell, Along(dx, k), Along(dy, k));
    ShiftMoves(g, cell, Along(dx, n), Along(dy, n));
  }

  lemma RayDecides(g: Board, owners: seq<nat>, country: nat, box: Bounds, cell: nat, dx: int, dy: int, n: nat)
    requires |owners| == g.Size()
    requires cell < g.Size() && box.Within(g) && box.Contains(g.width, cell)
    requires (dx, dy) in {(-1, 0), (1, 0), (0, -1), (0, 1)}
    requires n == StepsInside(g.width, box, cell, dx, dy)
    ensures
      var ray := RayCells(g.width, cell, dx, dy, n);
      (forall k :: 1 <= k <= n ==> 0 <= ray[k] < |owners|) &&
      (ClearRay(g, owners, country, box, cell, dx, dy) <==> forall k :: 1 <= k <= n ==> owners[ray[k]] != country)
  {
    var ray := RayCells(g.width, cell, dx, dy, n);
    RayCellsAreTheRay(g, box, cell, dx, dy, n);
    if forall k :: 1 <= k <= n ==> owners[ray[k]] != country {
      forall b | 0 <= b < |owners| && OnRay(g.width, cell, dx, dy, b) && box.Contains(g.width, b)
        ensures owners[b] != country
      {
        assert b in ray[1..];
      }
    }
  }

  /** One of the four straight rays of hasStraightExit. */
  method SideExit(g: Board, owners: array<nat>, country: nat, cell: nat, box: Bounds, bound: int, step: int,
                  ghost dx: int, ghost dy: int)
    returns (clear: bool)
    requires owners.Length == g.Size() && cell < owners.Length && box.Within(g) && box.Contains(g.width, cell)
    requires (dx, dy) in {(-1, 0), (1, 0), (0, -1), (0, 1)}
    requires step == Shift(g.width, 0, dx, dy)
    requires bound == RayEnd(g.width, box, cell, dx, dy)
    ensures clear <==> ClearRay(g, owners[..], country, box, cell, dx, dy)
  {
    ghost var n := StepsInside(g.width, box, cell, dx, dy);
    ghost var ray := RayCells(g.width, cell, dx, dy, n);
    RayDecides(g, owners[..], country, box, cell, dx, dy, n);
    forall k | 0 <= k < n
      ensures ray[k + 1] == ray[k] + step && ray[k] != bound
    {
      RayCellsStep(g, box, cell, dx, dy, n, k);
    }
    clear := StraightRay(owners, country, cell, bound, step, ray);
  }

  /** True when a diagonal leaves the box without meeting country ground. */
  method DiagonalExit(g: Board, owners: array<nat>, country: nat, ghost cell: nat, x: nat, y: nat, box: Bounds, dx: int, dy: int)
    returns (clear: bool)
    requires owners.Length == g.Size() && cell < owners.Length && box.Within(g)
    requires x == Col(g.width, cell) && y == Row(g.width, cell) && box.Contains(g.width, cell)
    requires dx in {-1, 1} && dy in {-1, 1}
    ensures clear <==> ClearRay(g, owners[..], country, box, cell, dx, dy)
  {
    hide Row, Col;
    var cx, cy := x + dx, y + dy;
    ghost var k := 1;
    while box.left <= cx <= box.right && box.top <= cy <= box.bottom
      invariant k >= 1 && cx == x + Along(dx, k) && cy == y + Along(dy, k)
      invariant ClearDiagonal(g, owners[..], country, box, cell, dx, dy, k)
      decreases if dx == 1 then box.right - cx else cx - box.left
    {
      DiagonalCell(g, cell, dx, dy, k, cx, cy);
      if owners[cy * g.width + cx] == country {
        assert box.Contains(g.width, At(g.width, cx, cy));
        return false;
      }
      cx, cy, k := cx + dx, cy + dy, k + 1;
    }
    DiagonalLeft(g, owners[..], country, box, cell, dx, dy, k);
    clear := true;
  }

  /** The diagonal is clear over its first k - 1 steps. */
  ghost predicate ClearDiagonal(g: Board, owners: seq<nat>, country: nat, box: Bounds, cell: nat, dx: int, dy: int, k: nat) {
    forall b :: 0 <= b < |owners| && OnRay(g.width, cell, dx, dy, b) && box.Contains(g.width, b) &&
                0 - k < Col(g.width, b) - Col(g.width, cell) < k
      ==> owners[b] != country
  }

  lemma DiagonalCell(g: Board, cell: nat, dx: int, dy: int, k: nat, cx: nat, cy: nat)
    requires cell < g.Size() && dx in {-1, 1} && dy in {-1, 1} && k >= 1
    requires cx == Col(g.width, cell) + Along(dx, k) && cy == Row(g.width, cell) + Along(dy, k)
    requires cx < g.width && cy < g.height
    ensures 0 <= At(g.width, cx, cy) < g.Size()
    ensures Col(g.width, At(g.width, cx, cy)) == cx && Row(g.width, At(g.width, cx, cy)) == cy
    ensures OnRay(g.width, cell, dx, dy, At(g.width, cx, cy))
    ensures forall b: nat :: OnRay(g.width, cell, dx, dy, b) && Col(g.width, b) == cx ==> b == At(g.width, cx, cy)
  {
    CoordinatesOfAt(g.width, cx, cy);
    RowsAreBounded(g, At(g.width, cx, cy));
    forall b: nat | OnRay(g.width, cell, dx, dy, b) && Col(g.width, b) == cx
      ensures b == At(g.width, cx, cy)
    {
      CellsAreRowMajor(g.width, b, At(g.width, cx, cy));
    }
  }

  /** Once a diagonal has left the box it does not come back. */
  lemma DiagonalLeft(g: Board, owners: seq<nat>, country: nat, box: Bounds, cell: nat, dx: int, dy: int, k: nat)
    requires dx in {-1, 1} && dy in {-1, 1} && k >= 1
    requires ClearDiagonal(g, owners, country, box, cell, dx, dy, k)
    requires
      var cx, cy := Col(g.width, cell) + Along(dx, k), Row(g.width, cell) + Along(dy, k);
      !(box.left <= cx <= box.right && box.top <= cy <= box.bottom)
    requires box.Contains(g.width, cell)
    ensures ClearRay(g, owners, country, box, cell, dx, dy)
  {
  }

  /** A straight route through free cells proves connection to the exterior. */
  method HasStraightExit(g: Board, owners: array<nat>, country: nat, cell: nat, box: Bounds) returns (exits: bool)
    requires owners.Length == g.Size() && cell < owners.Length && box.Within(g)
    ensures exits <==> StraightExit(g, owners[..], country, cell, box)
  {
    if owners[cell] == country {
      return false;
    }
    var w := g.width;
    CoordinatesAreQuotients(w, cell);
    var x := cell % w;
    RowStart(w, cell);
    var y := (cell - x) / w;
    if x <= box.left || x >= box.right || y <= box.top || y >= box.bottom {
      return true;
    }
    exits := SomeRayClear(g, owners, country, cell, x, y, box);
    SomeRayExits(g, owners[..], country, cell, box);
  }

  /** The eight rays of hasStraightExit in the order it tries them. */
  method SomeRayClear(g: Board, owners: array<nat>, country: nat, cell: nat, x: nat, y: nat, box: Bounds) returns (exits: bool)
    requires owners.Length == g.Size() && cell < owners.Length && box.Within(g) && box.Contains(g.width, cell)
    requires x == Col(g.width, cell) && y == Row(g.width, cell)
    ensures exits <==>
      ClearRay(g, owners[..], country, box, cell, -1, 0) || ClearRay(g, owners[..], country, box, cell, 1, 0) ||
      ClearRay(g, owners[..], country, box, cell, 0, -1) || ClearRay(g, owners[..], country, box, cell, 0, 1) ||
      ClearRay(g, owners[..], country, box, cell, -1, -1) || ClearRay(g, owners[..], country, box, cell, 1, -1) ||
      ClearRay(g, owners[..], country, box, cell, -1, 1) || ClearRay(g, owners[..], country, box, cell, 1, 1)
  {
    var w: int := g.width;
    var left, right := cell - x + box.left, cell - x + box.right;
    var top, bottom := box.top * w + x, box.bottom * w + x;
    RayEnds(g, cell, box);
    exits := SideExit(g, owners, country, cell, box, left, -1, -1, 0);
    if !exits { exits := SideExit(g, owners, country, cell, box, right, 1, 1, 0); }
    if !exits { exits := SideExit(g, owners, country, cell, box, top, -w, 0, -1); }
    if !exits { exits := SideExit(g, owners, country, cell, box, bottom, w, 0, 1); }
    if !exits { exits := DiagonalExit(g, owners, country, cell, x, y, box, -1, -1); }
    if !exits { exits := DiagonalExit(g, owners, country, cell, x, y, box, 1, -1); }
    if !exits { exits := DiagonalExit(g, owners, country, cell, x, y, box, -1, 1); }
    if !exits { exits := DiagonalExit(g, owners, country, cell, x, y, box, 1, 1); }
  }

  lemma RowStart(w: Positive, cell: nat)
    ensures cell - cell % w >= 0 && (cell - cell % w) / w == Row(w, cell)
  {
    CoordinatesAreQuotients(w, cell);
    QuotientIsUnique(w, Row(w, cell), 0, cell - cell % w);
  }

  /** The last cells of the four straight walks, as flat indices. */
  lemma RayEnds(g: Board, cell: nat, box: Bounds)
    requires box.Contains(g.width, cell)
    ensures
      var w, x, y := g.width, Col(g.width, cell), Row(g.width, cell);
      RayEnd(w, box, cell, -1, 0) == cell - x + box.left &&
      RayEnd(w, box, cell, 1, 0) == cell - x + box.right &&
      RayEnd(w, box, cell, 0, -1) == box.top * w + x &&
      RayEnd(w, box, cell, 0, 1) == box.bottom * w + x
  {
    var w, x, y := g.width, Col(g.width, cell), Row(g.width, cell);
    CoordinatesAreQuotients(w, cell);
    Distribute(y, box.top - y, w);
    Distribute(y, box.bottom - y, w);
  }

  /** The eight compass directions, written out. */
  lemma SomeRayExits(g: Board, owners: seq<nat>, country: nat, cell: nat, box: Bounds)
    ensures (exists i :: 0 <= i < 8 && ClearRay(g, owners, country, box, cell, RingX(i), RingY(i))) <==>
      ClearRay(g, owners, country, box, cell, -1, 0) || ClearRay(g, owners, country, box, cell, 1, 0) ||
      ClearRay(g, owners, country, box, cell, 0, -1) || ClearRay(g, owners, country, box, cell, 0, 1) ||
      ClearRay(g, owners, country, box, cell, -1, -1) || ClearRay(g, owners, country, box, cell, 1, -1) ||
      ClearRay(g, owners, country, box, cell, -1, 1) || ClearRay(g, owners, country, box, cell, 1, 1)
  {
    var ray := i requires 0 <= i < 8 => ClearRay(g, owners, country, box, cell, RingX(i), RingY(i));
    assert (exists i :: 0 <= i < 8 && ClearRay(g, owners, country, box, cell, RingX(i), RingY(i))) <==>
      ray(0) || ray(1) || ray(2) || ray(3) || ray(4) || ray(5) || ray(6) || ray(7);
  }

  /** Number of open runs around the ring; position 7 wraps to position 0. */
  method OpenRuns(open: seq<bool>) returns (runs: nat)
    requires |open| == 8
    ensures runs == RunStarts(open, 8)
  {
    runs := 0;
    for i := 0 to 8
      invariant runs == RunStarts(open, i)
    {
      if open[i] && !open[(i + 7) % 8] {
        runs := runs + 1;
      }
    }
  }

  /** Which neighbours a claim may have severed; none when it cannot have. */
  method MayEnclose(g: Board, owners: array<nat>, country: nat, cell: nat, box: Bounds) returns (risky: Option<seq<nat>>)
    requires owners.Length == g.Size() && cell < owners.Length && box.Within(g)
    ensures risky == Gate(g, owners[..], country, cell, box)
  {
    hide Row, Col, StraightExit, RunStarts, AtRisk;
    var w := g.width;
    CoordinatesAreQuotients(w, cell);
    RowsAreBounded(g, cell);
    var x, y := cell % w, cell / w;
    var open, walled, edge := [], false, false;
    for i := 0 to 8
      invariant |open| == i && forall k :: 0 <= k < i ==> (open[k] <==> RingOpen(g, owners[..], country, cell, k))
      invariant walled <==> exists k :: 0 <= k < i && RingWalled(g, owners[..], country, cell, k)
      invariant edge <==> exists k :: 0 <= k < i && !HasNeighbour(g, cell, k)
    {
      var nx, ny := x + RingX(i), y + RingY(i);
      if nx < 0 || ny < 0 || nx >= w || ny >= g.height {
        edge, open := true, open + [false];
        assert !HasNeighbour(g, cell, i);
      } else {
        assert HasNeighbour(g, cell, i);
        NeighbourIndex(g, cell, i);
        var own := owners[ny * w + nx] == country;
        assert own <==> RingWalled(g, owners[..], country, cell, i);
        walled := walled || own;
        open := open + [!own];
      }
    }
    assert open == OpenRing(g, owners[..], country, cell);
    RingMeetsEdge(g, cell);
    if !walled {
      return None;
    }
    if !edge {
      var runs := OpenRuns(open);
      if runs < 2 {
        return None;
      }
    }
    var atRisk := AtRiskNeighbours(g, owners, country, cell, box, open);
    risky := if |atRisk| > 0 then Some(atRisk) else None;
  }

  lemma NeighbourIndex(g: Board, cell: nat, i: nat)
    requires i < 8 && HasNeighbour(g, cell, i)
    ensures Neighbour(g, cell, i) == (Row(g.width, cell) + RingY(i)) * g.width + (Col(g.width, cell) + RingX(i))
  {
    CoordinatesAreQuotients(g.width, cell);
    Distribute(Row(g.width, cell), RingY(i), g.width);
  }

  lemma RingMeetsEdge(g: Board, cell: nat)
    requires cell < g.Size()
    ensures OnEdge(g, cell) <==> exists k :: 0 <= k < 8 && !HasNeighbour(g, cell, k)
  {
    RowsAreBounded(g, cell);
    if OnEdge(g, cell) {
      var k := if Col(g.width, cell) == 0 then 7 else if Col(g.width, cell) == g.width - 1 then 3
               else if Row(g.width, cell) == 0 then 1 else 5;
      assert !HasNeighbour(g, cell, k);
    }
  }

  /** Open neighbours with no proven straight exit. */
  method AtRiskNeighbours(g: Board, owners: array<nat>, country: nat, cell: nat, box: Bounds, open: seq<bool>)
    returns (risky: seq<nat>)
    requires owners.Length == g.Size() && cell < owners.Length && box.Within(g)
    requires open == OpenRing(g, owners[..], country, cell)
    ensures risky == AtRisk(g, owners[..], country, cell, box, 8)
  {
    risky := [];
    for i := 0 to 8
      invariant risky == AtRisk(g, owners[..], country, cell, box, i)
    {
      if open[i] {
        var n := Neighbour(g, cell, i);
        var exits := HasStraightExit(g, owners, country, n, box);
        if !exits {
          risky := risky + [n];
        }
      }
    }
  }
}
