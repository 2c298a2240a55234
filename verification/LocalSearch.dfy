/** The budgeted local search: resolves the components beside the queued starts.

    Whenever it answers, the answer is exactly the enclosed components that contain a
    start, in ascending order.  Running out of budget is its only other outcome. */
module LocalSearch {
  import opened Basics
  import opened Grid
  import opened Enclosure

  const MAX_STAMP: int := 0x7fffffff

  datatype Verdict = Open | Hole | Exhausted

  /** The free cells joined to a start. */
  ghost function Component(w: Positive, free: set<nat>, start: nat): set<nat> {
    set cell | cell in free && Reach(w, free, start, cell)
  }

  /** The enclosed cells joined to one of the first k starts. */
  ghost function Pockets(g: Board, owners: seq<nat>, country: nat, starts: seq<nat>, k: nat): set<nat>
    requires k <= |starts|
  {
    set cell | cell in Enclosed(g, owners, country) && exists j :: 0 <= j < k && Reach(g.width, Free(owners, country), starts[j], cell)
  }

  // ----- the dive order -----

  /** The eight ring positions, worst first, for a cell nearest the given corner:
      left-top, left-bottom, right-top, right-bottom. */
  function PushOrder(quadrant: nat): seq<nat>
    requires quadrant < 4
  {
    [[4, 3, 5, 2, 6, 1, 7, 0], [2, 1, 3, 0, 4, 5, 7, 6], [6, 5, 7, 0, 4, 1, 3, 2], [0, 1, 7, 2, 6, 3, 5, 4]][quadrant]
  }

  /** How far along the two nearest-bound directions a ring step leads. */
  function Progress(quadrant: nat, i: nat): int
    requires quadrant < 4 && i < 8
  {
    (if quadrant < 2 then -RingX(i) else RingX(i)) + (if quadrant % 2 == 0 then -RingY(i) else RingY(i))
  }

  lemma PushOrderAscends(quadrant: nat, i: nat)
    requires quadrant < 4 && i < 8
    ensures |PushOrder(quadrant)| == 8 && PushOrder(quadrant)[i] < 8
    ensures i > 0 ==> PushOrder(quadrant)[i - 1] < 8
    ensures i > 0 ==> Progress(quadrant, PushOrder(quadrant)[i - 1]) <= Progress(quadrant, PushOrder(quadrant)[i])
  {
  }

  /** Each order visits all eight neighbours, the most promising last. */
  lemma PushOrderIsComplete(quadrant: nat)
    requires quadrant < 4
    ensures |PushOrder(quadrant)| == 8
    ensures forall i :: 0 <= i < 8 ==> PushOrder(quadrant)[i] < 8
    ensures forall d :: 0 <= d < 8 ==> d in PushOrder(quadrant)
    ensures forall i :: 0 < i < 8 ==>
      Progress(quadrant, PushOrder(quadrant)[i - 1]) <= Progress(quadrant, PushOrder(quadrant)[i])
  {
    hide Progress;
    var o := PushOrder(quadrant);
    forall i | 0 <= i < 8
      ensures o[i] < 8 && (i > 0 ==> o[i - 1] < 8 && Progress(quadrant, o[i - 1]) <= Progress(quadrant, o[i]))
    {
      PushOrderAscends(quadrant, i);
    }
    forall d | 0 <= d < 8
      ensures d in o
    {
      assert o[0] in o && o[1] in o && o[2] in o && o[3] in o && o[4] in o && o[5] in o && o[6] in o && o[7] in o;
    }
  }

  // ----- facts about a finished component -----

  /** A connected closed set around a start is its component. */
  lemma ClosedIsComponent(w: Positive, free: set<nat>, cells: set<nat>, start: nat)
    requires start in cells && cells <= free && Closed(w, free, cells)
    requires forall c :: c in cells ==> Reach(w, free, start, c)
    ensures cells == Component(w, free, start)
  {
    forall c | c in Component(w, free, start)
      ensures c in cells
    {
      ReachStaysClosed(w, free, cells, start, c);
    }
  }

  /** If one cell of a connected set escapes, all of it does. */
  lemma ConnectedEscapes(g: Board, free: set<nat>, cells: set<nat>, start: nat, exit: nat)
    requires forall c :: c in cells ==> Reach(g.width, free, start, c)
    requires Reach(g.width, free, start, exit) && Escapes(g, free, exit)
    ensures forall c :: c in cells ==> Escapes(g, free, c)
  {
    EscapesVia(g, free, start, exit);
    forall c | c in cells
      ensures Escapes(g, free, c)
    {
      ReachSym(g.width, free, start, c);
      EscapesVia(g, free, c, start);
    }
  }

  lemma NoPockets(g: Board, owners: seq<nat>, country: nat, starts: seq<nat>)
    ensures Pockets(g, owners, country, starts, 0) == {}
    ensures Closed(g.width, Free(owners, country), {})
  {
  }

  lemma PocketsSkip(g: Board, owners: seq<nat>, country: nat, starts: seq<nat>, k: nat)
    requires k < |starts|
    requires starts[k] !in Free(owners, country) || Escapes(g, Free(owners, country), starts[k]) ||
             starts[k] in Pockets(g, owners, country, starts, k)
    ensures Pockets(g, owners, country, starts, k + 1) == Pockets(g, owners, country, starts, k)
  {
    var w, free := g.width, Free(owners, country);
    forall cell | cell in Pockets(g, owners, country, starts, k + 1)
      ensures cell in Pockets(g, owners, country, starts, k)
    {
      if Reach(w, free, starts[k], cell) {
        ReachInside(w, free, starts[k], cell);
        ReachSym(w, free, starts[k], cell);
        if starts[k] in Pockets(g, owners, country, starts, k) {
          var j :| 0 <= j < k && Reach(w, free, starts[j], starts[k]);
          ReachTrans(w, free, starts[j], starts[k], cell);
        } else {
          EscapesVia(g, free, cell, starts[k]);
        }
      }
    }
  }

  lemma PocketsGrow(g: Board, owners: seq<nat>, country: nat, starts: seq<nat>, k: nat)
    requires k < |starts| && starts[k] in Enclosed(g, owners, country)
    ensures Pockets(g, owners, country, starts, k + 1) ==
      Pockets(g, owners, country, starts, k) + Component(g.width, Free(owners, country), starts[k])
  {
    var w, free := g.width, Free(owners, country);
    forall cell | cell in Component(w, free, starts[k])
      ensures cell in Pockets(g, owners, country, starts, k + 1)
    {
      if Escapes(g, free, cell) {
        EscapesVia(g, free, starts[k], cell);
      }
    }
  }

  /** No route joins two different closed sets. */
  lemma PocketsAreClosed(g: Board, owners: seq<nat>, country: nat, starts: seq<nat>, k: nat)
    requires k <= |starts|
    ensures Closed(g.width, Free(owners, country), Pockets(g, owners, country, starts, k))
  {
    var w, free := g.width, Free(owners, country);
    var pockets := Pockets(g, owners, country, starts, k);
    forall a, b | a in pockets && b in free && Adjacent(w, a, b)
      ensures b in pockets
    {
      var j :| 0 <= j < k && Reach(w, free, starts[j], a);
      ReachStep(w, free, a, b);
      ReachTrans(w, free, starts[j], a, b);
      if Escapes(g, free, b) {
        EscapesVia(g, free, a, b);
      }
    }
  }

  lemma InsertedAt(front: seq<nat>, x: nat, back: seq<nat>, k: nat)
    requires k <= |front| + |back|
    ensures
      var n, both := |front|, front + back;
      (front + [x] + back)[k] == if k < n then both[k] else if k == n then x else both[k - 1]
  {
  }

  lemma InsertedMembers(front: seq<nat>, x: nat, back: seq<nat>)
    ensures forall y :: y in front + [x] + back <==> y in front + back || y == x
  {
  }

  lemma StrictAt(s: seq<nat>, i: nat, j: nat)
    requires Strict(s) && i <= j < |s|
    ensures s[i] <= s[j] && (i < j ==> s[i] < s[j])
  {
  }

  lemma InsertedPair(front: seq<nat>, x: nat, back: seq<nat>, i: nat, j: nat)
    requires Strict(front + back) && i < j <= |front| + |back|
    requires |front| > 0 ==> front[|front| - 1] < x
    requires |back| > 0 ==> x < back[0]
    ensures (front + [x] + back)[i] < (front + [x] + back)[j]
  {
    var n, both := |front|, front + back;
    InsertedAt(front, x, back, i);
    InsertedAt(front, x, back, j);
    hide Strict;
    if i < n {
      StrictAt(both, i, n - 1);
      StrictAt(both, i, if j > n then j - 1 else i);
      if j < n {
        StrictAt(both, i, j);
      }
    } else if i == n {
      StrictAt(both, n, j - 1);
    } else {
      StrictAt(both, i - 1, j - 1);
    }
  }

  lemma InsertInOrder(front: seq<nat>, x: nat, back: seq<nat>)
    requires Strict(front + back)
    requires |front| > 0 ==> front[|front| - 1] < x
    requires |back| > 0 ==> x < back[0]
    ensures Strict(front + [x] + back)
    ensures forall y :: y in front + [x] + back <==> y in front + back || y == x
  {
    var all := front + [x] + back;
    forall i, j | 0 <= i < j < |all|
      ensures all[i] < all[j]
    {
      InsertedPair(front, x, back, i, j);
    }
    InsertedMembers(front, x, back);
  }

  lemma ClosedHas(w: Positive, free: set<nat>, cells: set<nat>, a: nat, b: nat)
    requires Closed(w, free, cells) && a in cells && b in free && Adjacent(w, a, b)
    ensures b in cells
  {
  }

  /** Strictly inside a box, all eight neighbours exist and lie in the box. */
  lemma InnerRing(g: Board, box: Bounds, cell: nat)
    requires box.Within(g) && !box.AtBoundary(Col(g.width, cell), Row(g.width, cell))
    ensures forall i :: 0 <= i < 8 ==> HasNeighbour(g, cell, i) && box.Contains(g.width, Neighbour(g, cell, i))
  {
  }

  lemma AppendsDistinct(a: seq<nat>, b: seq<nat>, all: seq<nat>)
    requires all == a + b && (forall x :: x in a ==> x !in b)
    requires forall i, j :: 0 <= i < j < |a| ==> a[i] != a[j]
    requires forall i, j :: 0 <= i < j < |b| ==> b[i] != b[j]
    ensures forall i, j :: 0 <= i < j < |all| ==> all[i] != all[j]
    ensures forall x :: x in all <==> x in a || x in b
  {
    forall i, j | 0 <= i < j < |all|
      ensures all[i] != all[j]
    {
      assert i < |a| ==> all[i] in a;
      assert j >= |a| ==> all[j] in b;
    }
  }

  ghost predicate SameElements(a: seq<nat>, b: seq<nat>) {
    forall x :: x in a <==> x in b
  }

  lemma NotAmong(items: seq<nat>, i: nat)
    requires i < |items| && forall j, k :: 0 <= j < k < |items| ==> items[j] != items[k]
    ensures items[i] !in items[..i] && items[..i + 1] == items[..i] + [items[i]]
  {
  }

  /** One more item, put in its place. */
  lemma Placed(items: seq<nat>, i: nat, sorted: seq<nat>, at: nat)
    requires i < |items| && forall j, k :: 0 <= j < k < |items| ==> items[j] != items[k]
    requires Strict(sorted) && SameElements(sorted, items[..i]) && at <= |sorted|
    requires (at > 0 ==> sorted[at - 1] <= items[i]) && (at < |sorted| ==> sorted[at] > items[i])
    ensures
      var next := sorted[..at] + [items[i]] + sorted[at..];
      Strict(next) && SameElements(next, items[..i + 1])
  {
    NotAmong(items, i);
    assert at > 0 ==> sorted[at - 1] in sorted;
    hide Strict;
    assert sorted == sorted[..at] + sorted[at..];
    InsertInOrder(sorted[..at], items[i], sorted[at..]);
  }

  /** Stand-in for the runtime's sort of a typed array. */
  method SortAscending(items: seq<nat>) returns (sorted: seq<nat>)
    requires forall i, j :: 0 <= i < j < |items| ==> items[i] != items[j]
    ensures Strict(sorted) && forall x :: x in sorted <==> x in items
  {
    hide Strict, SameElements;
    sorted := [];
    NothingSorted();
    for i := 0 to |items|
      invariant Strict(sorted) && SameElements(sorted, items[..i])
    {
      var at := |sorted|;
      while at > 0 && sorted[at - 1] > items[i]
        invariant 0 <= at <= |sorted|
        invariant at < |sorted| ==> sorted[at] > items[i]
      {
        at := at - 1;
      }
      Placed(items, i, sorted, at);
      sorted := sorted[..at] + [items[i]] + sorted[at..];
    }
    assert items[..|items|] == items;
    AllSorted(sorted, items);
  }

  lemma NothingSorted()
    ensures Strict([]) && SameElements([], [])
  {
  }

  lemma AllSorted(sorted: seq<nat>, items: seq<nat>)
    requires SameElements(sorted, items)
    ensures forall x :: x in sorted <==> x in items
  {
  }

  // ----- the search -----

  /** The module-level scratch state, reused by every call. */
  class Search {
    var marks: array<int>
    const stack: array<nat>
    const component: array<nat>
    const holeBuf: array<nat>
    var stamp: int
    var budget: int
    var holeCount: nat
    var depth: nat
    var seen: nat
    /** The cells of the component being flooded. */
    ghost var part: set<nat>

    ghost function Buffers(): set<object>
      reads this
    {
      {marks as object, stack as object, component as object, holeBuf as object}
    }

    /** Stale marks of earlier calls never exceed the current stamp in size. */
    ghost predicate Valid()
      reads this, marks
    {
      stack != component && stack != holeBuf && component != holeBuf &&
      stack.Length == LOCAL_SEARCH_BUDGET + 1 && component.Length == LOCAL_SEARCH_BUDGET + 1 &&
      holeBuf.Length == 2 * LOCAL_SEARCH_BUDGET + 1 &&
      0 <= stamp < MAX_STAMP &&
      forall i :: 0 <= i < marks.Length ==> -stamp <= marks[i] <= stamp
    }

    constructor ()
      ensures Valid() && fresh(Buffers())
    {
      marks := new int[0];
      stack := new nat[LOCAL_SEARCH_BUDGET + 1];
      component := new nat[LOCAL_SEARCH_BUDGET + 1];
      holeBuf := new nat[2 * LOCAL_SEARCH_BUDGET + 1];
      stamp, budget, holeCount, depth, seen := 0, 0, 0, 0, 0;
      part := {};
    }

    /** Cells stamped as visited by this call. */
    ghost function Visited(): set<nat>
      reads this`marks, this`stamp, marks
    {
      set i: nat | i < marks.Length && marks[i] == stamp
    }

    /** Cells stamped as exterior by this call. */
    ghost function Outside(): set<nat>
      reads this`marks, this`stamp, marks
    {
      set i: nat | i < marks.Length && marks[i] == -stamp
    }

    /** Fits the marks to the board and bumps the stamp; only an overflow clears them. */
    method NextStamp(size: nat) returns (outsideMark: int)
      requires Valid()
      modifies this, marks
      ensures Valid() && stamp > 0 && outsideMark == -stamp && marks.Length == size
      ensures marks == old(marks) || fresh(marks)
      ensures Visited() == {} && Outside() == {}
    {
      if marks.Length != size {
        marks := new int[size](_ => 0);
      }
      stamp := stamp + 1;
      if stamp == MAX_STAMP {
        forall i | 0 <= i < marks.Length { marks[i] := 0; }
        stamp := 1;
      }
      outsideMark := -stamp;
    }

    /** The flood of one component: every marked cell is joined to the start inside the
        box, and only cells still on the stack may have unmarked free neighbours. */
    ghost predicate Flooding(g: Board, owners: seq<nat>, country: nat, start: nat, box: Bounds, before: set<nat>)
      reads this, marks, component, stack
    {
      Valid() && stamp > 0 && marks.Length == g.Size() == |owners| && seen <= LOCAL_SEARCH_BUDGET && depth <= seen &&
      Visited() == before + part && before !! part && start in part &&
      (forall c :: c in part ==> c in Free(owners, country) && box.Contains(g.width, c) && Reach(g.width, Free(owners, country), start, c)) &&
      (forall k :: 0 <= k < depth ==> stack[k] in part) &&
      (forall c :: c in part <==> c in component[..seen]) &&
      (forall i, j :: 0 <= i < j < seen ==> component[i] != component[j])
    }

    /** A visited cell that has left the stack: inside the rim, with every free neighbour marked. */
    ghost predicate Done(g: Board, owners: seq<nat>, country: nat, box: Bounds, cell: nat)
      reads this, component
    {
      !box.AtBoundary(Col(g.width, cell), Row(g.width, cell)) &&
      forall b :: b in Free(owners, country) && Adjacent(g.width, cell, b) ==> b in part
    }

    /** Marks one more cell of the component and stacks it. */
    method Visit(g: Board, owners: array<nat>, country: nat, start: nat, box: Bounds, ghost before: set<nat>, next: nat, ghost from: nat)
      requires Flooding(g, owners[..], country, start, box, before)
      requires owners != stack && owners != component
      requires seen < LOCAL_SEARCH_BUDGET && from in part && Adjacent(g.width, from, next)
      requires next < g.Size() && owners[next] != country && box.Contains(g.width, next)
      requires marks[next] != stamp
      modifies this`seen, this`depth, this`part, marks, component, stack
      ensures Flooding(g, owners[..], country, start, box, before)
      ensures seen == old(seen) + 1 && depth == old(depth) + 1 && stack[depth - 1] == next
      ensures part == old(part) + {next} && Outside() == old(Outside()) - {next}
      ensures forall k :: 0 <= k < old(depth) ==> stack[k] == old(stack[k])
    {
      hide Reach, Adjacent, Row, Col, Bounds.Contains;
      assert next !in part by { assert next !in Visited(); }
      ghost var free := Free(owners[..], country);
      assert next in free && Reach(g.width, free, start, next) by {
        ReachStep(g.width, free, from, next);
        ReachTrans(g.width, free, start, from, next);
      }
      ghost var listed := component[..seen];
      marks[next] := stamp;
      assert Visited() == old(Visited()) + {next};
      component[seen] := next;
      seen := seen + 1;
      part := part + {next};
      assert component[..seen] == listed + [next];
      stack[depth] := next;
      depth := depth + 1;
      assert Free(owners[..], country) == free;
    }

    /** Paints or reports the flooded component. */
    method SettleComponent(open: bool, outsideMark: int) returns (verdict: Verdict)
      requires Valid() && stamp > 0 && outsideMark == -stamp && seen <= LOCAL_SEARCH_BUDGET
      requires forall c :: c in part <==> c in component[..seen]
      requires part <= Visited()
      requires !open ==> holeCount + seen <= 2 * LOCAL_SEARCH_BUDGET
      modifies this`holeCount, marks, holeBuf
      ensures Valid() && verdict == if open then Open else Hole
      ensures open ==> Visited() == old(Visited()) - part && Outside() == old(Outside()) + part
      ensures open ==> holeCount == old(holeCount) && holeBuf[..] == old(holeBuf[..])
      ensures !open ==> marks[..] == old(marks[..]) && holeCount == old(holeCount) + seen
      ensures !open ==> holeBuf[..holeCount] == old(holeBuf[..holeCount]) + component[..seen]
    {
      for i := 0 to seen
        invariant Valid()
        invariant forall c: nat :: c < marks.Length ==>
          marks[c] == if open && c in component[..i] then outsideMark else old(marks[c])
        invariant open ==> holeCount == old(holeCount) && holeBuf[..] == old(holeBuf[..])
        invariant !open ==> holeCount == old(holeCount) + i
        invariant !open ==> holeBuf[..holeCount] == old(holeBuf[..holeCount]) + component[..i]
      {
        assert component[..i + 1] == component[..i] + [component[i]];
        assert component[i] in component[..seen];
        if open {
          marks[component[i]] := outsideMark;
        } else {
          holeBuf[holeCount] := component[i];
          holeCount := holeCount + 1;
        }
      }
      verdict := if open then Open else Hole;
    }

    predicate AlreadyMarked(owners: array<nat>, country: nat, cell: nat)
      reads this, marks, owners
      requires cell < owners.Length && cell < marks.Length
    {
      owners[cell] == country || marks[cell] == stamp || marks[cell] == -stamp
    }

    /** What the calls to FloodComponent keep: earlier components are whole, exterior marks are proven. */
    ghost predicate Sound(g: Board, owners: seq<nat>, country: nat)
      reads this, marks
    {
      Valid() && stamp > 0 && marks.Length == g.Size() == |owners| &&
      Closed(g.width, Free(owners, country), Visited()) &&
      forall o :: o in Outside() ==> Escapes(g, Free(owners, country), o)
    }

    /** Only stacked cells, and the one in hand, may have unmarked free neighbours. */
    ghost predicate Frontier(g: Board, owners: seq<nat>, country: nat, box: Bounds, inHand: set<nat>)
      reads this, component, stack
      requires depth <= stack.Length
    {
      forall c :: c in part && c !in inHand && c !in stack[..depth] ==> Done(g, owners, country, box, c)
    }

    /** What one neighbour, or one whole cell, leaves behind unless the budget is spent. */
    ghost predicate Advanced(g: Board, owners: seq<nat>, country: nat, start: nat, box: Bounds, before: set<nat>, outside: set<nat>,
                             inHand: set<nat>)
      reads this, marks, component, stack
    {
      Flooding(g, owners, country, start, box, before) && Outside() == outside && Frontier(g, owners, country, box, inHand) &&
      budget >= 0 && seen + budget <= LOCAL_SEARCH_BUDGET
    }

    /** Spends budget on an unmarked free neighbour: it joins the component. */
    method Enter(g: Board, owners: array<nat>, country: nat, start: nat, ghost cell: nat, next: nat, box: Bounds,
                 ghost before: set<nat>, ghost outside: set<nat>)
      requires owners != stack && owners != component && budget > 0
      requires Advanced(g, owners[..], country, start, box, before, outside, {cell})
      requires cell in part && next < g.Size() && Adjacent(g.width, cell, next) && box.Contains(g.width, next)
      requires owners[next] != country && marks[next] != stamp && marks[next] != -stamp
      modifies this`seen, this`depth, this`part, this`budget, marks, component, stack
      ensures Valid() && owners[..] == old(owners[..])
      ensures Advanced(g, owners[..], country, start, box, before, outside, {cell}) && part == old(part) + {next}
      ensures seen + budget == old(seen + budget) && budget + depth == old(budget + depth)
    {
      hide Row, Col, Reach;
      budget := budget - 1;
      ghost var stacked, listed := stack[..depth], part;
      Visit(g, owners, country, start, box, before, next, cell);
      assert stack[..depth] == stacked + [next];
      FrontierGrows(g, owners[..], country, box, {cell}, stacked, listed, next);
    }

    /** One pass of the neighbour loop. */
    method TryNeighbour(g: Board, owners: array<nat>, country: nat, start: nat, cell: nat, next: nat, box: Bounds,
                        outsideMark: int, ghost before: set<nat>, ghost outside: set<nat>)
      returns (stop: bool, verdict: Verdict)
      requires outsideMark == -stamp && owners != stack && owners != component
      requires Advanced(g, owners[..], country, start, box, before, outside, {cell})
      requires Closed(g.width, Free(owners[..], country), before)
      requires cell in part && next < g.Size() && Adjacent(g.width, cell, next) && Adjacent(g.width, next, cell)
      requires box.Contains(g.width, next)
      modifies this`seen, this`depth, this`part, this`budget, marks, component, stack
      ensures Valid() && owners[..] == old(owners[..])
      ensures stop ==> verdict == Open || verdict == Exhausted
      ensures !(stop && verdict == Exhausted) ==>
        Advanced(g, owners[..], country, start, box, before, outside, {cell}) && old(part) <= part &&
        seen + budget == old(seen + budget) && budget + depth == old(budget + depth)
      ensures !stop ==> next !in Free(owners[..], country) || next in part
      ensures stop && verdict == Open ==> exists o :: o in outside && Reach(g.width, Free(owners[..], country), start, o)
    {
      hide Row, Col, Closed, Reach, Done;
      ghost var free := Free(owners[..], country);
      stop, verdict := false, Open;
      var mark := marks[next];
      if owners[next] == country || mark == stamp {
        if next in before && next in free {
          ClosedHas(g.width, free, before, next, cell);
        }
      } else if mark == outsideMark {
        ReachStep(g.width, free, cell, next);
        ReachTrans(g.width, free, start, cell, next);
        assert next in outside;
        stop := true;
      } else if budget == 0 {
        budget := -1;
        stop, verdict := true, Exhausted;
      } else {
        Enter(g, owners, country, start, cell, next, box, before, outside);
      }
    }

    /** The neighbour loop for one cell.  Stops at a proven exterior cell or when the budget is spent. */
    method Expand(g: Board, owners: array<nat>, country: nat, start: nat, cell: nat, box: Bounds, quadrant: nat,
                  outsideMark: int, ghost before: set<nat>, ghost outside: set<nat>)
      returns (stop: bool, verdict: Verdict)
      requires quadrant < 4 && outsideMark == -stamp && owners != stack && owners != component
      requires Advanced(g, owners[..], country, start, box, before, outside, {cell})
      requires Closed(g.width, Free(owners[..], country), before)
      requires cell in part && !box.AtBoundary(Col(g.width, cell), Row(g.width, cell)) && box.Within(g)
      modifies this`seen, this`depth, this`part, this`budget, marks, component, stack
      ensures Valid() && owners[..] == old(owners[..])
      ensures stop ==> verdict == Open || verdict == Exhausted
      ensures !(stop && verdict == Exhausted) ==>
        seen + budget == old(seen + budget) && budget + depth == old(budget + depth)
      ensures !stop ==> Advanced(g, owners[..], country, start, box, before, outside, {})
      ensures stop && verdict == Open ==> Advanced(g, owners[..], country, start, box, before, outside, {cell})
      ensures stop && verdict == Open ==> exists o :: o in outside && Reach(g.width, Free(owners[..], country), start, o)
    {
      hide Row, Col, Closed, Reach, Adjacent, Progress, PushOrder, Done;
      PushOrderIsComplete(quadrant);
      InnerRing(g, box, cell);
      var order := PushOrder(quadrant);
      for i := 0 to 8
        invariant Advanced(g, owners[..], country, start, box, before, outside, {cell})
        invariant owners[..] == old(owners[..]) && cell in part
        invariant seen + budget == old(seen + budget) && budget + depth == old(budget + depth)
        invariant forall k :: 0 <= k < i ==> Settled(g, owners[..], country, cell, order[k])
      {
        stop, verdict := TryNeighbour(g, owners, country, start, cell, Neighbour(g, cell, order[i]), box, outsideMark, before, outside);
        if stop {
          return;
        }
      }
      RingDone(g, owners[..], country, box, cell, order);
      stop, verdict := false, Open;
    }

    /** A ring position that needs no more work. */
    ghost predicate Settled(g: Board, owners: seq<nat>, country: nat, cell: nat, i: nat)
      reads this
      requires i < 8 && HasNeighbour(g, cell, i)
    {
      Neighbour(g, cell, i) !in Free(owners, country) || Neighbour(g, cell, i) in part
    }

    lemma FrontierGrows(g: Board, owners: seq<nat>, country: nat, box: Bounds, inHand: set<nat>, stacked: seq<nat>, listed: set<nat>, next: nat)
      requires depth <= stack.Length && |stacked| + 1 == depth && stack[..depth] == stacked + [next]
      requires part == listed + {next}
      requires forall c :: c in listed && c !in inHand && c !in stacked ==>
        !box.AtBoundary(Col(g.width, c), Row(g.width, c)) &&
        forall b :: b in Free(owners, country) && Adjacent(g.width, c, b) ==> b in listed
      ensures Frontier(g, owners, country, box, inHand)
    {
    }

    lemma RingDone(g: Board, owners: seq<nat>, country: nat, box: Bounds, cell: nat, order: seq<nat>)
      requires |owners| == g.Size() && cell < g.Size() && depth <= stack.Length
      requires !box.AtBoundary(Col(g.width, cell), Row(g.width, cell))
      requires |order| == 8 && forall i :: 0 <= i < 8 ==> order[i] < 8 && HasNeighbour(g, cell, order[i])
      requires forall d :: 0 <= d < 8 ==> d in order
      requires forall k :: 0 <= k < 8 ==> Settled(g, owners, country, cell, order[k])
      requires Frontier(g, owners, country, box, {cell})
      ensures Frontier(g, owners, country, box, {})
    {
      hide Row, Col, CanShift, RingX, RingY, Reach;
      forall b | b in Free(owners, country) && Adjacent(g.width, cell, b)
        ensures b in part
      {
        var d := AdjacentIsNeighbour(g, cell, b);
        assert d in order;
        var k :| 0 <= k < 8 && order[k] == d;
        assert Settled(g, owners, country, cell, order[k]);
      }
      assert Done(g, owners, country, box, cell);
    }

    /** Neighbour order that dives toward the nearest bound. */
    function BoundaryOffsets(x: nat, y: nat, midX: int, midY: int): nat {
      (if x <= midX then 0 else 2) + (if y <= midY then 0 else 1)
    }

    /** Starts a component with a single stacked cell. */
    method Seed(g: Board, owners: array<nat>, country: nat, start: nat, box: Bounds, ghost before: set<nat>, ghost outside: set<nat>)
      requires owners !in Buffers() && Valid() && stamp > 0 && marks.Length == g.Size() == owners.Length
      requires before == Visited() && outside == Outside() && start < g.Size()
      requires owners[start] != country && start !in before && start !in outside && box.Contains(g.width, start)
      requires 0 <= budget && 1 + budget <= LOCAL_SEARCH_BUDGET
      modifies this`seen, this`depth, this`part, marks, component, stack
      ensures owners[..] == old(owners[..]) && seen == 1
      ensures Advanced(g, owners[..], country, start, box, before, outside, {})
    {
      depth, seen := 0, 0;
      marks[start] := stamp;
      component[seen] := start;
      seen := seen + 1;
      stack[depth] := start;
      depth := depth + 1;
      part := {start};
      ReachSelf(g.width, Free(owners[..], country), start);
      assert Visited() == before + {start};
      assert component[..seen] == [start];
      assert stack[..depth] == [start];
    }

    /** Takes the top of the stack in hand. */
    method Pop(g: Board, ghost owners: seq<nat>, ghost country: nat, ghost start: nat, ghost box: Bounds,
               ghost before: set<nat>, ghost outside: set<nat>) returns (cell: nat)
      requires Advanced(g, owners, country, start, box, before, outside, {}) && depth > 0
      modifies this`depth
      ensures depth == old(depth) - 1 && cell in part
      ensures Advanced(g, owners, country, start, box, before, outside, {cell})
    {
      hide Row, Col, Reach;
      ghost var stacked := stack[..depth];
      depth := depth - 1;
      cell := stack[depth];
      assert stacked == stack[..depth] + [cell];
    }

    /** The component escapes: its marks become exterior marks. */
    method SettleOpen(g: Board, owners: array<nat>, ghost country: nat, ghost start: nat, ghost box: Bounds,
                      ghost before: set<nat>, ghost outside: set<nat>, outsideMark: int) returns (verdict: Verdict)
      requires owners !in Buffers() && outsideMark == -stamp && owners.Length == g.Size()
      requires Flooding(g, owners[..], country, start, box, before) && Outside() == outside
      requires Closed(g.width, Free(owners[..], country), before)
      requires forall c :: c in part || c in outside ==> Escapes(g, Free(owners[..], country), c)
      modifies this`holeCount, marks, holeBuf
      ensures verdict == Open && Sound(g, owners[..], country) && owners[..] == old(owners[..])
      ensures Visited() == before && holeCount == old(holeCount) && holeBuf[..] == old(holeBuf[..])
    {
      hide Row, Col, Closed, Reach, Escapes;
      verdict := SettleComponent(true, outsideMark);
      assert Visited() == before;
    }

    /** Nothing is left to expand: the component is enclosed and goes to the holes. */
    method SettleHole(g: Board, owners: array<nat>, ghost country: nat, ghost start: nat, ghost box: Bounds,
                      ghost before: set<nat>, ghost outside: set<nat>, outsideMark: int) returns (verdict: Verdict)
      requires owners !in Buffers() && outsideMark == -stamp && owners.Length == g.Size() && box.Within(g)
      requires Advanced(g, owners[..], country, start, box, before, outside, {}) && depth == 0
      requires Closed(g.width, Free(owners[..], country), before) && holeCount + seen <= LOCAL_SEARCH_BUDGET
      requires forall c :: c in outside ==> Escapes(g, Free(owners[..], country), c)
      modifies this`holeCount, marks, holeBuf
      ensures verdict == Hole && Sound(g, owners[..], country) && owners[..] == old(owners[..])
      ensures start in Enclosed(g, owners[..], country) && part == Component(g.width, Free(owners[..], country), start)
      ensures Visited() == before + part && part !! before && holeCount == old(holeCount) + seen
      ensures holeBuf[..holeCount] == old(holeBuf[..holeCount]) + component[..seen]
      ensures forall c :: c in component[..seen] <==> c in part
      ensures forall i, j :: 0 <= i < j < seen ==> component[i] != component[j]
    {
      hide Row, Col, Reach, Escapes;
      PartIsEnclosed(g, owners[..], country, start, box);
      verdict := SettleComponent(false, outsideMark);
      assert marks[..] == old(marks[..]);
      assert Visited() == before + part;
    }

    lemma PartIsEnclosed(g: Board, owners: seq<nat>, country: nat, start: nat, box: Bounds)
      requires depth == 0 && start in part && box.Within(g)
      requires forall c :: c in part ==> c in Free(owners, country) && Reach(g.width, Free(owners, country), start, c)
      requires Frontier(g, owners, country, box, {})
      ensures Closed(g.width, Free(owners, country), part)
      ensures start in Enclosed(g, owners, country) && part == Component(g.width, Free(owners, country), start)
    {
      hide Row, Col, Reach, Escapes;
      assert forall c :: c in part ==> Done(g, owners, country, box, c);
      ClosedIsComponent(g.width, Free(owners, country), part, start);
      forall c | c in part
        ensures !OnEdge(g, c)
      {
        assert Done(g, owners, country, box, c);
      }
      ClosedIsEnclosed(g, Free(owners, country), part, start);
    }

    /** Floods one component from a start strictly inside the box. */
    method FloodComponent(g: Board, owners: array<nat>, country: nat, start: nat, box: Bounds, midX: int, midY: int, outsideMark: int)
      returns (verdict: Verdict)
      requires owners !in Buffers() && Sound(g, owners[..], country) && Covers(g, box, owners[..], country)
      requires outsideMark == -stamp && start < g.Size() && owners.Length == g.Size()
      requires owners[start] != country && start !in Visited() && start !in Outside()
      requires !box.AtBoundary(Col(g.width, start), Row(g.width, start))
      requires budget >= 0 && holeCount + 1 + budget <= LOCAL_SEARCH_BUDGET
      modifies this`seen, this`depth, this`part, this`budget, this`holeCount, marks, component, stack, holeBuf
      ensures Valid() && owners[..] == old(owners[..])
      ensures verdict != Exhausted ==>
        Sound(g, owners[..], country) && budget >= 0 && holeCount + budget <= LOCAL_SEARCH_BUDGET
      ensures verdict == Open ==>
        Escapes(g, Free(owners[..], country), start) && Visited() == old(Visited()) &&
        holeCount == old(holeCount) && holeBuf[..] == old(holeBuf[..])
      ensures verdict == Hole ==>
        start in Enclosed(g, owners[..], country) &&
        Visited() == old(Visited()) + part && part !! old(Visited()) &&
        part == Component(g.width, Free(owners[..], country), start) &&
        holeCount == old(holeCount) + seen && holeBuf[..holeCount] == old(holeBuf[..holeCount]) + component[..seen] &&
        (forall c :: c in component[..seen] <==> c in part) &&
        (forall i, j :: 0 <= i < j < seen ==> component[i] != component[j])
    {
      hide Row, Col, Closed, Reach, Escapes, Frontier;
      ghost var before, outside := Visited(), Outside();
      Seed(g, owners, country, start, box, before, outside);
      while depth > 0
        invariant 0 <= depth && owners[..] == old(owners[..]) && holeBuf[..] == old(holeBuf[..])
        invariant Advanced(g, owners[..], country, start, box, before, outside, {})
        invariant holeCount == old(holeCount) && holeCount + seen + budget <= LOCAL_SEARCH_BUDGET
        decreases budget + depth
      {
        var cell := Pop(g, owners[..], country, start, box, before, outside);
        CoordinatesAreQuotients(g.width, cell);
        var x, y := cell % g.width, cell / g.width;
        if x <= box.left || x >= box.right || y <= box.top || y >= box.bottom {
          BoundaryEscapes(g, owners[..], country, cell, box);
          ConnectedEscapes(g, Free(owners[..], country), part, start, cell);
          verdict := SettleOpen(g, owners, country, start, box, before, outside, outsideMark);
          return;
        }
        var stop, v := Expand(g, owners, country, start, cell, box, BoundaryOffsets(x, y, midX, midY), outsideMark, before, outside);
        if stop {
          if v == Exhausted {
            return Exhausted;
          }
          ghost var o :| o in outside && Reach(g.width, Free(owners[..], country), start, o);
          ConnectedEscapes(g, Free(owners[..], country), part, start, o);
          verdict := SettleOpen(g, owners, country, start, box, before, outside, outsideMark);
          return;
        }
      }
      verdict := SettleHole(g, owners, country, start, box, before, outside, outsideMark);
    }

    /** After k starts: the visited cells are exactly the pockets found so far, and the buffer lists them once. */
    ghost predicate Resolved(g: Board, owners: seq<nat>, country: nat, starts: seq<nat>, k: nat)
      reads this, marks, holeBuf
      requires k <= |starts|
    {
      Sound(g, owners, country) && Visited() == Pockets(g, owners, country, starts, k) &&
      budget >= 0 && holeCount + budget <= LOCAL_SEARCH_BUDGET && holeBuf.Length == 2 * LOCAL_SEARCH_BUDGET + 1 &&
      (forall c :: c in holeBuf[..holeCount] <==> c in Visited()) &&
      forall i, j :: 0 <= i < j < holeCount ==> holeBuf[i] != holeBuf[j]
    }

    /** One start of the search; false when the budget is spent. */
    method ResolveStart(g: Board, owners: array<nat>, country: nat, starts: seq<nat>, k: nat, box: Bounds,
                        midX: int, midY: int, outsideMark: int) returns (ok: bool)
      requires owners !in Buffers() && owners.Length == g.Size() && Covers(g, box, owners[..], country)
      requires k < |starts| && starts[k] < g.Size() && outsideMark == -stamp
      requires Resolved(g, owners[..], country, starts, k)
      modifies this`seen, this`depth, this`part, this`budget, this`holeCount, marks, component, stack, holeBuf
      ensures Valid() && owners[..] == old(owners[..])
      ensures ok ==> Resolved(g, owners[..], country, starts, k + 1)
    {
      hide Row, Col, Reach, Escapes, Closed, Pockets, Component;
      var start := starts[k];
      if AlreadyMarked(owners, country, start) {
        PocketsSkip(g, owners[..], country, starts, k);
        return true;
      }
      var exits := HasStraightExit(g, owners, country, start, box);
      if exits {
        StraightExitEscapes(g, owners[..], country, start, box);
        PocketsSkip(g, owners[..], country, starts, k);
        marks[start] := outsideMark;
        assert Visited() == old(Visited());
        return true;
      }
      if budget == 0 {
        budget := -1;
        return false;
      }
      budget := budget - 1;
      ghost var listed := holeBuf[..holeCount];
      var verdict := FloodComponent(g, owners, country, start, box, midX, midY, outsideMark);
      if verdict == Exhausted {
        return false;
      }
      if verdict == Open {
        PocketsSkip(g, owners[..], country, starts, k);
        assert holeBuf[..holeCount] == listed;
      } else {
        PocketsGrow(g, owners[..], country, starts, k);
        AppendsDistinct(listed, component[..seen], holeBuf[..holeCount]);
      }
      ok := true;
    }

    /** Resolves every start within one shared budget, or gives up. */
    method LocalEnclosures(g: Board, owners: array<nat>, country: nat, starts: seq<nat>, box: Bounds) returns (holes: Option<seq<nat>>)
      requires Valid() && owners !in Buffers() && owners.Length == g.Size() && Covers(g, box, owners[..], country)
      requires forall s :: s in starts ==> s < g.Size()
      modifies this, Buffers()
      ensures Valid() && fresh(Buffers() - old(Buffers())) && owners[..] == old(owners[..])
      ensures holes.Some? ==> Strict(holes.value)
      ensures holes.Some? ==> forall cell :: cell in holes.value <==> cell in Pockets(g, owners[..], country, starts, |starts|)
    {
      hide Row, Col, Reach, Escapes, Closed;
      var outsideMark := NextStamp(g.Size());
      var midX, midY := (box.left + box.right) / 2, (box.top + box.bottom) / 2;
      budget, holeCount := LOCAL_SEARCH_BUDGET, 0;
      NoPockets(g, owners[..], country, starts);
      for k := 0 to |starts|
        invariant fresh(Buffers() - old(Buffers())) && owners !in Buffers() && owners[..] == old(owners[..])
        invariant outsideMark == -stamp && Resolved(g, owners[..], country, starts, k)
      {
        assert starts[k] in starts;
        var ok := ResolveStart(g, owners, country, starts, k, box, midX, midY, outsideMark);
        if !ok {
          return None;
        }
      }
      var sorted := SortAscending(holeBuf[..holeCount]);
      holes := Some(sorted);
    }
  }
}
