/** What every claim keeps, between ticks and during one.

    Books: each country's count is the number of cells it owns, owned cells are land,
    and every box covers its country.  Watch: for each country, either no land is
    enclosed by it, or every enclosed pocket of land holds a queued start. */
module Claims {
  import opened Basics
  import opened Grid
  import opened Enclosure
  import opened Territory

  ghost function Owned(owners: seq<nat>, country: nat): set<nat> {
    set cell: nat | cell < |owners| && owners[cell] == country
  }

  /** The conserved quantities of the world. */
  ghost predicate Books(t: Atlas, s: State) {
    t.Valid() && |s.owners| == t.g.Size() && 0 !in s.countries &&
    (forall cell :: 0 <= cell < |s.owners| && s.owners[cell] != 0 ==> t.land[cell] && s.owners[cell] in s.countries) &&
    (forall c :: c in s.countries ==> s.countries[c].count == |Owned(s.owners, c)|) &&
    (forall c :: c in s.countries && s.countries[c].count != 0 ==> c in s.bounds && Covers(t.g, s.bounds[c], s.owners, c)) &&
    (forall c :: c in s.bounds ==> s.bounds[c].Within(t.g)) &&
    (forall id :: id in s.players ==> s.players[id].country in s.countries)
  }

  /** No land is enclosed by the country. */
  ghost predicate Safe(t: Atlas, owners: seq<nat>, country: nat)
    requires |t.land| == |owners|
  {
    forall cell :: cell in Enclosed(t.g, owners, country) ==> !t.land[cell]
  }

  /** Every pocket of land the country encloses is queued: its search is the whole
      country, or a queued start lies in the pocket. */
  ghost predicate Watched(t: Atlas, owners: seq<nat>, queue: map<nat, Search>, country: nat)
    requires |t.land| == |owners|
  {
    country in queue &&
    (queue[country].Whole? ||
     forall cell :: cell in Enclosed(t.g, owners, country) && t.land[cell] ==>
       exists q :: q in queue[country].starts && Reach(t.g.width, Free(owners, country), q, cell))
  }

  ghost predicate StartsOnBoard(t: Atlas, queue: map<nat, Search>) {
    forall c :: c in queue && queue[c].From? ==> forall q :: q in queue[c].starts ==> q < t.g.Size()
  }

  /** Country c is safe, or it is still ahead in this pass with its pockets queued. */
  ghost predicate Attended(t: Atlas, s: State, c: nat)
    requires |t.land| == |s.owners| && s.cursor <= |s.changed|
  {
    Safe(t, s.owners, c) || (c in s.changed[s.cursor..] && Watched(t, s.owners, s.queue, c))
  }

  /** The invariant of claims and of the enclosure pass. */
  ghost predicate Inv(t: Atlas, s: State) {
    Books(t, s) && s.cursor <= |s.changed| && StartsOnBoard(t, s.queue) &&
    forall c :: c in s.countries ==> Attended(t, s, c)
  }

  // ----- queues only grow -----

  /** Everything queued in one map is still queued in the other. */
  ghost predicate Covered(queue: map<nat, Search>, more: map<nat, Search>, country: nat) {
    country in queue ==>
      country in more &&
      (more[country].Whole? || (queue[country].From? && forall q :: q in queue[country].starts ==> q in more[country].starts))
  }

  ghost predicate Holds(queue: map<nat, Search>, country: nat, cell: nat) {
    country in queue && (queue[country].Whole? || cell in queue[country].starts)
  }

  lemma QueuedHolds(queue: map<nat, Search>, country: nat, cell: nat)
    ensures Holds(Queued(queue, country, cell), country, cell)
    ensures forall c :: Covered(queue, Queued(queue, country, cell), c)
    ensures forall c :: c != country ==>
      (c in queue <==> c in Queued(queue, country, cell)) && (c in queue ==> Queued(queue, country, cell)[c] == queue[c])
  {
  }

  lemma {:induction false} QueuedAllHolds(queue: map<nat, Search>, country: nat, cells: seq<nat>)
    ensures forall q :: q in cells ==> Holds(QueuedAll(queue, country, cells), country, q)
    ensures forall c :: Covered(queue, QueuedAll(queue, country, cells), c)
    ensures forall c :: c != country ==>
      (c in queue <==> c in QueuedAll(queue, country, cells)) && (c in queue ==> QueuedAll(queue, country, cells)[c] == queue[c])
    decreases |cells|
  {
    if cells != [] {
      var next := Queued(queue, country, cells[0]);
      QueuedHolds(queue, country, cells[0]);
      QueuedAllHolds(next, country, cells[1..]);
      assert Covered(next, QueuedAll(next, country, cells[1..]), country);
    }
  }

  lemma {:induction false} QueuedAllOnBoard(t: Atlas, queue: map<nat, Search>, country: nat, cells: seq<nat>)
    requires StartsOnBoard(t, queue) && forall q :: q in cells ==> q < t.g.Size()
    ensures StartsOnBoard(t, QueuedAll(queue, country, cells))
    decreases |cells|
  {
    if cells != [] {
      assert forall k :: 0 <= k < |cells| ==> cells[k] in cells;
      QueuedOnBoard(t, queue, country, cells[0]);
      QueuedAllOnBoard(t, Queued(queue, country, cells[0]), country, cells[1..]);
    }
  }

  lemma QueuedOnBoard(t: Atlas, queue: map<nat, Search>, country: nat, cell: nat)
    requires StartsOnBoard(t, queue) && cell < t.g.Size()
    ensures StartsOnBoard(t, Queued(queue, country, cell))
  {
  }

  lemma {:induction false} RingCellsAreAll(g: Board, cell: nat, order: seq<nat>, i: nat)
    requires forall k :: 0 <= k < |order| ==> order[k] < 8
    requires i in order && HasNeighbour(g, cell, i)
    ensures Neighbour(g, cell, i) in RingCells(g, cell, order)
  {
    if order[0] != i {
      RingCellsAreAll(g, cell, order[1..], i);
    }
  }

  lemma {:induction false} RingCellsOnBoard(g: Board, cell: nat, order: seq<nat>)
    requires forall k :: 0 <= k < |order| ==> order[k] < 8
    ensures forall q :: q in RingCells(g, cell, order) ==> q < g.Size()
  {
    if order != [] {
      RingCellsOnBoard(g, cell, order[1..]);
    }
  }

  // ----- the claimant -----

  /** After the search candidates of a claim are queued, the claimant's pockets are watched. */
  lemma ClaimantIsWatched(t: Atlas, s: State, cell: nat, country: nat, mover: Trigger)
    requires t.Valid() && |s.owners| == t.g.Size() && cell < |s.owners| && s.owners[cell] != country
    requires Safe(t, s.owners, country) || Watched(t, s.owners, s.queue, country)
    requires country in s.bounds ==> Covers(t.g, s.bounds[country], s.owners[cell := country], country)
    ensures
      var moved := s.(owners := s.owners[cell := country]);
      var after := Candidates(t, moved, cell, country, mover);
      Safe(t, after.owners, country) || Watched(t, after.owners, after.queue, country)
  {
    var moved := s.(owners := s.owners[cell := country]);
    var after := Candidates(t, moved, cell, country, mover);
    if !(country in s.queue && s.queue[country].Whole?) {
      forall p | p in Enclosed(t.g, after.owners, country) && t.land[p]
        ensures exists q :: Holds(after.queue, country, q) && Reach(t.g.width, Free(after.owners, country), q, p)
      {
        PocketIsQueued(t, s, cell, country, mover, p);
      }
    }
  }

  /** A pocket that reached the claimed cell still reaches a neighbour on the ring. */
  lemma RingReaches(g: Board, owners: seq<nat>, cell: nat, country: nat, p: nat) returns (n: nat)
    requires |owners| == g.Size() && cell < |owners| && owners[cell] != country
    requires p in Free(owners[cell := country], country) && Reach(g.width, Free(owners, country), p, cell)
    ensures n in RingCells(g, cell, ROW_ORDER) && Reach(g.width, Free(owners[cell := country], country), n, p)
  {
    hide Reach;
    var w, free, rest := g.width, Free(owners, country), Free(owners[cell := country], country);
    ClaimShrinksFree(owners, country, cell);
    var next: nat;
    n, next := ReachLeaves(w, free, rest, p, cell);
    assert free * rest == rest && next == cell;
    ReachInside(w, rest, p, n);
    var i := AdjacentIsNeighbour(g, cell, n);
    assert i in ROW_ORDER by {
      assert ROW_ORDER[0] == 0 && ROW_ORDER[1] == 1 && ROW_ORDER[2] == 2 && ROW_ORDER[3] == 7 && ROW_ORDER[4] == 3 &&
        ROW_ORDER[5] == 6 && ROW_ORDER[6] == 5 && ROW_ORDER[7] == 4;
    }
    RingCellsAreAll(g, cell, ROW_ORDER, i);
    ReachSym(w, rest, p, n);
  }

  lemma PocketIsQueued(t: Atlas, s: State, cell: nat, country: nat, mover: Trigger, p: nat)
    requires t.Valid() && |s.owners| == t.g.Size() && cell < |s.owners| && s.owners[cell] != country
    requires Safe(t, s.owners, country) || Watched(t, s.owners, s.queue, country)
    requires country in s.bounds ==> Covers(t.g, s.bounds[country], s.owners[cell := country], country)
    requires !(country in s.queue && s.queue[country].Whole?)
    requires p in Enclosed(t.g, s.owners[cell := country], country) && t.land[p]
    ensures
      var after := Candidates(t, s.(owners := s.owners[cell := country]), cell, country, mover);
      exists q :: Holds(after.queue, country, q) && Reach(t.g.width, Free(after.owners, country), q, p)
  {
    var w := t.g.width;
    var moved := s.(owners := s.owners[cell := country]);
    var after := Candidates(t, moved, cell, country, mover);
    var free, rest := Free(s.owners, country), Free(moved.owners, country);
    ClaimShrinksFree(s.owners, country, cell);
    hide RingCells, Gate, QueuedAll, Reach, Holds, Covered, Uncut;
    if (country in s.queue && cell in s.queue[country].starts) || country !in s.bounds {
      var ring := RingCells(t.g, cell, ROW_ORDER);
      QueuedAllHolds(s.queue, country, ring);
      if Reach(w, free, p, cell) {
        var n := RingReaches(t.g, s.owners, cell, country, p);
        assert Holds(after.queue, country, n);
      } else {
        UncutApart(t.g, s.owners, country, cell, p);
        OldStartStillReaches(t, s, cell, country, after.queue, p);
      }
    } else {
      var box := s.bounds[country];
      GateNamesEveryCut(t.g, s.owners, country, cell, box, p);
      var gate := Gate(t.g, moved.owners, country, cell, box);
      if gate.Some? {
        QueuedAllHolds(s.queue, country, gate.value);
      }
      if gate.Some? && exists n :: n in gate.value && Reach(w, rest, p, n) {
        var n :| n in gate.value && Reach(w, rest, p, n);
        ReachSym(w, rest, p, n);
      } else {
        OldStartStillReaches(t, s, cell, country, after.queue, p);
      }
    }
  }

  /** In an uncut pocket, the start that was queued before still does its work. */
  lemma OldStartStillReaches(t: Atlas, s: State, cell: nat, country: nat, more: map<nat, Search>, p: nat)
    requires |t.land| == |s.owners| && |s.owners| == t.g.Size() && cell < |s.owners| && s.owners[cell] != country
    requires Safe(t, s.owners, country) || Watched(t, s.owners, s.queue, country)
    requires !(country in s.queue && s.queue[country].Whole?)
    requires !(country in s.queue && cell in s.queue[country].starts) || !Reach(t.g.width, Free(s.owners, country), p, cell)
    requires p in Free(s.owners, country) && p < |t.land| && t.land[p] && Uncut(t.g, s.owners, country, cell, p)
    requires Covered(s.queue, more, country)
    ensures exists q :: Holds(more, country, q) && Reach(t.g.width, Free(s.owners[cell := country], country), q, p)
  {
    var w, free := t.g.width, Free(s.owners, country);
    assert p in Enclosed(t.g, s.owners, country);
    var q :| q in s.queue[country].starts && Reach(w, free, q, p);
    ReachSym(w, free, q, p);
    assert q != cell;
    assert Holds(more, country, q);
    ReachSym(w, Free(s.owners[cell := country], country), p, q);
  }

  // ----- the country that loses the cell, and the others -----

  /** A loss only opens ground; the lost cell itself is queued unless it provably escapes. */
  lemma LoserIsWatched(t: Atlas, owners: seq<nat>, queue: map<nat, Search>, more: map<nat, Search>, cell: nat, owner: nat, country: nat)
    requires |t.land| == |owners| && |owners| == t.g.Size() && cell < |owners| && owners[cell] == owner && owner != country
    requires Safe(t, owners, owner) || Watched(t, owners, queue, owner)
    requires Covered(queue, more, owner)
    requires Escapes(t.g, Free(owners[cell := country], owner), cell) || Holds(more, owner, cell)
    ensures Safe(t, owners[cell := country], owner) || Watched(t, owners[cell := country], more, owner)
  {
    var w, free, grown := t.g.width, Free(owners, owner), Free(owners[cell := country], owner);
    assert grown == free + {cell};
    if !Safe(t, owners[cell := country], owner) && !(owner in more && more[owner].Whole?) {
      var p0 :| p0 in Enclosed(t.g, owners[cell := country], owner) && t.land[p0];
      forall p | p in Enclosed(t.g, owners[cell := country], owner) && t.land[p]
        ensures exists q :: Holds(more, owner, q) && Reach(w, grown, q, p)
      {
        if p == cell {
          ReachSelf(w, grown, cell);
        } else {
          if Escapes(t.g, free, p) {
            EscapesGrows(t.g, free, grown, p);
          }
          assert p in Enclosed(t.g, owners, owner);
          assert owner in queue && queue[owner].From?;
          var q :| q in queue[owner].starts && Reach(w, free, q, p);
          ReachGrows(w, free, grown, q, p);
          assert Holds(more, owner, q);
        }
      }
    }
  }

  /** A change of hands between two countries is invisible to a third. */
  lemma BystanderUnmoved(g: Board, owners: seq<nat>, cell: nat, country: nat, other: nat)
    requires cell < |owners| && other != country && other != owners[cell]
    ensures Free(owners[cell := country], other) == Free(owners, other)
    ensures Enclosed(g, owners[cell := country], other) == Enclosed(g, owners, other)
    ensures Owned(owners[cell := country], other) == Owned(owners, other)
  {
  }

  lemma OwnedMoves(owners: seq<nat>, cell: nat, country: nat)
    requires cell < |owners| && owners[cell] != country
    ensures |Owned(owners[cell := country], country)| == |Owned(owners, country)| + 1
    ensures |Owned(owners[cell := country], owners[cell])| == |Owned(owners, owners[cell])| - 1
  {
    var after := owners[cell := country];
    assert Owned(after, country) == Owned(owners, country) + {cell};
    assert Owned(owners, owners[cell]) == Owned(after, owners[cell]) + {cell};
  }

  lemma OwnedNone(owners: seq<nat>, country: nat)
    requires |Owned(owners, country)| == 0
    ensures forall cell :: 0 <= cell < |owners| ==> owners[cell] != country
  {
    assert forall cell :: 0 <= cell < |owners| && owners[cell] == country ==> cell in Owned(owners, country);
  }

  lemma NothingOwnedIsSafe(t: Atlas, owners: seq<nat>, country: nat)
    requires |t.land| == |owners| && |owners| == t.g.Size() && |Owned(owners, country)| == 0
    ensures Safe(t, owners, country)
  {
    OwnedNone(owners, country);
    forall cell | cell in Free(owners, country)
      ensures Escapes(t.g, Free(owners, country), cell)
    {
      NothingOwnedEscapes(t.g, owners, country, cell);
    }
  }

  /** A stretched box covers one more cell. */
  lemma ExtendedCovers(t: Atlas, owners: seq<nat>, bounds: map<nat, Bounds>, country: nat, cell: nat)
    requires |owners| == t.g.Size() && cell < |owners|
    requires forall c :: c in bounds ==> bounds[c].Within(t.g)
    requires (country in bounds && Covers(t.g, bounds[country], owners, country)) || forall q :: 0 <= q < |owners| ==> owners[q] != country
    ensures
      var more := Extended(t.g, bounds, country, cell);
      country in more && Covers(t.g, more[country], owners[cell := country], country) &&
      forall c :: c in more ==> more[c].Within(t.g)
  {
    RowsAreBounded(t.g, cell);
  }

  predicate Encloses(outer: Bounds, inner: Bounds) {
    outer.left <= inner.left && inner.right <= outer.right && outer.top <= inner.top && inner.bottom <= outer.bottom
  }

  /** And it is the smallest box that does: every box around the old one and the cell
      encloses it, and no other country's box is touched. */
  lemma ExtendedIsLeast(g: Board, bounds: map<nat, Bounds>, country: nat, cell: nat, box: Bounds)
    requires box.Contains(g.width, cell) && (country in bounds ==> Encloses(box, bounds[country]))
    ensures
      var more := Extended(g, bounds, country, cell);
      more.Keys == bounds.Keys + {country} && Encloses(box, more[country]) &&
      forall c :: c in bounds && c != country ==> more[c] == bounds[c]
  {
    hide Row, Col;
  }

  // ----- one whole claim -----

  /** The state of a claim once the claimant's side is booked. */
  ghost function Booked(t: Atlas, s: State, cell: nat, country: nat, fromFill: bool, mover: Trigger): State
    requires t.Valid() && |s.owners| == t.g.Size() && cell < |s.owners|
  {
    var moved := s.(owners := s.owners[cell := country], bounds := Extended(t.g, s.bounds, country, cell),
                    changed := Add(s.changed, country));
    var searched := Candidates(t, moved, cell, country, mover);
    Gain(searched.(dirtyChunks := searched.dirtyChunks + {t.ChunkOf(cell)},
                   dirtyCountries := searched.dirtyCountries + {country}), country, 1, fromFill, mover)
  }

  lemma ClaimIsBookedThenLost(t: Atlas, s: State, cell: nat, country: nat, fromFill: bool, mover: Trigger)
    requires t.Valid() && |s.owners| == t.g.Size() && cell < |s.owners|
    requires t.land[cell] && s.owners[cell] != country
    ensures
      var b := Booked(t, s, cell, country, fromFill, mover);
      Claim(t, s, cell, country, fromFill, mover) ==
        if s.owners[cell] != 0 then Loss(t, b, s.owners[cell], cell, fromFill, mover) else b
  {
  }

  lemma GateIsRisk(g: Board, owners: seq<nat>, country: nat, cell: nat, box: Bounds)
    requires |owners| == g.Size() && cell < |owners| && Gate(g, owners, country, cell, box).Some?
    ensures Gate(g, owners, country, cell, box).value == AtRisk(g, owners, country, cell, box, 8)
  {
  }

  lemma ExtendedHas(g: Board, bounds: map<nat, Bounds>, country: nat, cell: nat)
    ensures Extended(g, bounds, country, cell).Keys == bounds.Keys + {country}
    ensures forall c :: c in bounds && c != country ==> Extended(g, bounds, country, cell)[c] == bounds[c]
  {
  }

  /** Queueing candidates touches the queue and the triggers, nothing else. */
  lemma CandidatesFields(t: Atlas, s: State, cell: nat, country: nat, mover: Trigger)
    requires |s.owners| == t.g.Size() && cell < |s.owners|
    ensures
      var c := Candidates(t, s, cell, country, mover);
      c == s.(queue := c.queue, triggers := c.triggers)
  {
    hide Gate, QueuedAll, RingCells;
  }

  /** Booking a gain touches the country's count and the capturer's credit. */
  lemma GainFields(s: State, country: nat, n: nat, fromFill: bool, mover: Trigger)
    requires country in s.countries
    ensures
      var a := Gain(s, country, n, fromFill, mover);
      a == s.(countries := s.countries[country := s.countries[country].(count := s.countries[country].count + n)],
              players := a.players, dirtyPlayers := a.dirtyPlayers, cuePlayers := a.cuePlayers) &&
      a.players.Keys == s.players.Keys &&
      (forall id :: id in s.players ==> a.players[id].country == s.players[id].country)
  {
  }

  /** What booking the gain leaves in each field that the invariant reads. */
  lemma BookedFields(t: Atlas, s: State, cell: nat, country: nat, fromFill: bool, mover: Trigger)
    requires t.Valid() && |s.owners| == t.g.Size() && cell < |s.owners| && s.owners[cell] != country
    requires country in s.countries
    ensures
      var b := Booked(t, s, cell, country, fromFill, mover);
      b.owners == s.owners[cell := country] &&
      b.bounds == Extended(t.g, s.bounds, country, cell) &&
      b.changed == Add(s.changed, country) && b.cursor == s.cursor &&
      b.countries == s.countries[country := s.countries[country].(count := s.countries[country].count + 1)] &&
      b.players.Keys == s.players.Keys &&
      (forall id :: id in s.players ==> b.players[id].country == s.players[id].country)
  {
    hide Candidates, Gain, Row, Col, Extended, At, Add;
    var moved := s.(owners := s.owners[cell := country], bounds := Extended(t.g, s.bounds, country, cell),
                    changed := Add(s.changed, country));
    CandidatesFields(t, moved, cell, country, mover);
    var searched := Candidates(t, moved, cell, country, mover);
    GainFields(searched.(dirtyChunks := searched.dirtyChunks + {t.ChunkOf(cell)},
                         dirtyCountries := searched.dirtyCountries + {country}), country, 1, fromFill, mover);
  }

  /** Starts on the board stay there, no start is lost, and only one country's queue changes. */
  ghost predicate QueueGrows(t: Atlas, before: map<nat, Search>, after: map<nat, Search>, country: nat) {
    StartsOnBoard(t, after) &&
    (forall c :: Covered(before, after, c)) &&
    (forall c :: c != country ==> (c in before <==> c in after) && (c in before ==> after[c] == before[c]))
  }

  lemma QueuedAllGrows(t: Atlas, queue: map<nat, Search>, country: nat, cells: seq<nat>)
    requires StartsOnBoard(t, queue) && forall q :: q in cells ==> q < t.g.Size()
    ensures QueueGrows(t, queue, QueuedAll(queue, country, cells), country)
  {
    hide QueuedAll, StartsOnBoard, Covered;
    QueuedAllHolds(queue, country, cells);
    QueuedAllOnBoard(t, queue, country, cells);
  }

  lemma SameQueueGrows(t: Atlas, queue: map<nat, Search>, country: nat)
    requires StartsOnBoard(t, queue)
    ensures QueueGrows(t, queue, queue, country)
  {
  }

  lemma CandidatesQueue(t: Atlas, s: State, cell: nat, country: nat, mover: Trigger)
    requires t.Valid() && |s.owners| == t.g.Size() && cell < |s.owners| && s.owners[cell] == country
    requires StartsOnBoard(t, s.queue)
    ensures QueueGrows(t, s.queue, Candidates(t, s, cell, country, mover).queue, country)
  {
    hide Gate, QueuedAll, QueueGrows, RingCells, StartsOnBoard;
    RingCellsOnBoard(t.g, cell, ROW_ORDER);
    SameQueueGrows(t, s.queue, country);
    QueuedAllGrows(t, s.queue, country, RingCells(t.g, cell, ROW_ORDER));
    if country in s.bounds {
      var box := s.bounds[country];
      var gate := Gate(t.g, s.owners, country, cell, box);
      if gate.Some? {
        GateIsRisk(t.g, s.owners, country, cell, box);
        AtRiskAreFree(t.g, s.owners, country, cell, box, 8);
        QueuedAllGrows(t, s.queue, country, gate.value);
      }
    }
  }

  lemma BookedQueue(t: Atlas, s: State, cell: nat, country: nat, fromFill: bool, mover: Trigger)
    requires t.Valid() && |s.owners| == t.g.Size() && cell < |s.owners| && s.owners[cell] != country
    requires country in s.countries && StartsOnBoard(t, s.queue)
    ensures
      var b := Booked(t, s, cell, country, fromFill, mover);
      StartsOnBoard(t, b.queue) &&
      (forall c :: Covered(s.queue, b.queue, c)) &&
      (forall c :: c != country ==> (c in s.queue <==> c in b.queue) && (c in s.queue ==> b.queue[c] == s.queue[c]))
  {
    hide Candidates, Extended, Add, Counted, StartsOnBoard, Covered;
    var moved := s.(owners := s.owners[cell := country], bounds := Extended(t.g, s.bounds, country, cell),
                    changed := Add(s.changed, country));
    CandidatesQueue(t, moved, cell, country, mover);
  }

  lemma BookedWatchesClaimant(t: Atlas, s: State, cell: nat, country: nat, mover: Trigger)
    requires Books(t, s) && cell < |s.owners| && s.owners[cell] != country && country in s.countries
    requires Safe(t, s.owners, country) || Watched(t, s.owners, s.queue, country)
    ensures
      var b := Booked(t, s, cell, country, false, mover);
      Safe(t, b.owners, country) || Watched(t, b.owners, b.queue, country)
  {
    ClaimedBoxCovers(t, s, cell, country);
    var early := s.(bounds := Extended(t.g, s.bounds, country, cell), changed := Add(s.changed, country));
    ClaimantIsWatched(t, early, cell, country, mover);
  }

  lemma ClaimedBoxCovers(t: Atlas, s: State, cell: nat, country: nat)
    requires Books(t, s) && cell < |s.owners| && country in s.countries
    ensures
      var more := Extended(t.g, s.bounds, country, cell);
      country in more && Covers(t.g, more[country], s.owners[cell := country], country) &&
      forall c :: c in more ==> more[c].Within(t.g)
  {
    if s.countries[country].count == 0 {
      OwnedNone(s.owners, country);
    }
    ExtendedCovers(t, s.owners, s.bounds, country, cell);
  }

  /** The invariant between the two halves of a claim: the loser still counts the lost cell. */
  ghost predicate Between(t: Atlas, s: State, loser: nat) {
    t.Valid() && |s.owners| == t.g.Size() && 0 !in s.countries &&
    (forall cell :: 0 <= cell < |s.owners| && s.owners[cell] != 0 ==> t.land[cell] && s.owners[cell] in s.countries) &&
    (forall c :: c in s.countries ==> s.countries[c].count == |Owned(s.owners, c)| + if c == loser then 1 else 0) &&
    (forall c :: c in s.countries && s.countries[c].count != 0 ==> c in s.bounds && Covers(t.g, s.bounds[c], s.owners, c)) &&
    (forall c :: c in s.bounds ==> s.bounds[c].Within(t.g)) &&
    (forall id :: id in s.players ==> s.players[id].country in s.countries) &&
    s.cursor <= |s.changed| && StartsOnBoard(t, s.queue) &&
    forall c :: c in s.countries && c != loser ==> Attended(t, s, c)
  }

  lemma AddKeeps<T>(s: seq<T>, x: T, from: nat)
    requires from <= |s|
    ensures |Add(s, x)| >= |s| && Add(s, x)[..from] == s[..from]
    ensures forall y :: y in s[from..] ==> y in Add(s, x)[from..]
    ensures from == 0 ==> x in Add(s, x)[from..]
  {
    var more := Add(s, x);
    assert more[..|s|] == s;
    forall y | y in s[from..]
      ensures y in more[from..]
    {
      var k :| 0 <= k < |s[from..]| && s[from..][k] == y;
      assert more[from..][k] == y;
    }
    if from == 0 {
      assert more[0..] == more;
    }
  }

  lemma BookedIsBetween(t: Atlas, s: State, cell: nat, country: nat, mover: Trigger)
    requires Inv(t, s) && s.cursor == 0 && cell < |s.owners| && t.land[cell] && s.owners[cell] != country
    requires country in s.countries
    ensures Between(t, Booked(t, s, cell, country, false, mover), s.owners[cell])
  {
    hide Booked, Extended, Row, Col, Enclosed, Covers, Add;
    var b := Booked(t, s, cell, country, false, mover);
    var loser := s.owners[cell];
    BookedFields(t, s, cell, country, false, mover);
    BookedQueue(t, s, cell, country, false, mover);
    OwnedMoves(s.owners, cell, country);
    AddKeeps(s.changed, country, 0);
    ClaimedBoxCovers(t, s, cell, country);
    ExtendedHas(t.g, s.bounds, country, cell);
    forall c | c in b.countries
      ensures b.countries[c].count == |Owned(b.owners, c)| + if c == loser then 1 else 0
    {
      if c != country && c != loser {
        BystanderUnmoved(t.g, s.owners, cell, country, c);
      }
    }
    forall c | c in b.countries && b.countries[c].count != 0
      ensures c in b.bounds && Covers(t.g, b.bounds[c], b.owners, c)
    {
      if c != country {
        StillCovers(t.g, s.bounds[c], s.owners, c, cell, country);
      }
    }
    forall c | c in b.countries && c != loser
      ensures Attended(t, b, c)
    {
      if c == country {
        BookedWatchesClaimant(t, s, cell, country, mover);
      } else {
        BystanderUnmoved(t.g, s.owners, cell, country, c);
        BystanderAttended(t, s, b, c);
      }
    }
  }

  lemma StillCovers(g: Board, box: Bounds, owners: seq<nat>, c: nat, cell: nat, country: nat)
    requires Covers(g, box, owners, c) && c != country && cell < |owners|
    ensures Covers(g, box, owners[cell := country], c)
  {
  }

  lemma BystanderAttended(t: Atlas, s: State, b: State, c: nat)
    requires |t.land| == |s.owners| == |b.owners| && s.cursor == b.cursor <= |s.changed| <= |b.changed|
    requires Free(b.owners, c) == Free(s.owners, c) && Enclosed(t.g, b.owners, c) == Enclosed(t.g, s.owners, c)
    requires Covered(s.queue, b.queue, c) && (forall y :: y in s.changed[s.cursor..] ==> y in b.changed[b.cursor..])
    requires Attended(t, s, c)
    ensures Attended(t, b, c)
  {
    hide Escapes, Reach;
    if !Safe(t, b.owners, c) && b.queue[c].From? {
      forall cell | cell in Enclosed(t.g, b.owners, c) && t.land[cell]
        ensures exists q :: q in b.queue[c].starts && Reach(t.g.width, Free(b.owners, c), q, cell)
      {
        var q :| q in s.queue[c].starts && Reach(t.g.width, Free(s.owners, c), q, cell);
        assert q in b.queue[c].starts;
      }
    }
  }

  // ----- deletion -----

  lemma {:induction false} WithoutIs(s: seq<nat>, x: nat)
    ensures x !in Without(s, x) && |Without(s, x)| <= |s|
    ensures forall y :: y != x ==> (y in Without(s, x) <==> y in s)
    ensures x !in s ==> Without(s, x) == s
  {
    if s != [] {
      WithoutIs(s[1..], x);
    }
  }

  lemma {:induction false} WithoutSplits(a: seq<nat>, b: seq<nat>, x: nat)
    ensures Without(a + b, x) == Without(a, x) + Without(b, x)
  {
    if a == [] {
      assert a + b == b;
    } else {
      assert (a + b)[1..] == a[1..] + b;
      WithoutSplits(a[1..], b, x);
    }
  }

  /** Deletion keeps every other country's place on its side of the cursor. */
  lemma DeletedKeepsPlace(s: State, country: nat)
    requires s.cursor <= |s.changed|
    ensures
      var d := Deleted(s, country);
      d.cursor <= |d.changed| &&
      (forall y :: y != country ==> (y in d.changed[d.cursor..] <==> y in s.changed[s.cursor..])) &&
      (forall y :: y != country ==> (y in d.changed[..d.cursor] <==> y in s.changed[..s.cursor])) &&
      (forall y :: y in d.changed[..d.cursor] ==> y in s.changed[..s.cursor])
  {
    var before, after := s.changed[..s.cursor], s.changed[s.cursor..];
    assert s.changed == before + after;
    WithoutSplits(before, after, country);
    WithoutIs(before, country);
    WithoutIs(after, country);
    var d := Deleted(s, country);
    if d != s {
      assert d.changed[..d.cursor] == Without(before, country);
      assert d.changed[d.cursor..] == Without(after, country);
    }
  }

  /** Deleting a country that owns nothing keeps the books. */
  lemma DeletedKeepsInv(t: Atlas, s: State, country: nat)
    requires Inv(t, s)
    ensures Inv(t, Deleted(s, country))
  {
    hide Without, Enclosed, Covers;
    var d := Deleted(s, country);
    DeletedKeepsPlace(s, country);
    if d != s {
      OwnedNone(s.owners, country);
      forall c | c in d.countries
        ensures Attended(t, d, c)
      {
        assert Attended(t, s, c);
      }
    }
  }

  // ----- the loser's half -----

  lemma ChargeFields(s: State, owner: nat, n: nat, fromFill: bool, mover: Trigger)
    requires owner in s.countries
    ensures
      var a := Charge(s, owner, n, fromFill, mover);
      a == s.(countries := a.countries, cueCountries := a.cueCountries) &&
      a.countries.Keys == s.countries.Keys &&
      a.countries[owner].count == s.countries[owner].count - n &&
      (forall c :: c in s.countries && c != owner ==> a.countries[c] == s.countries[c])
  {
  }

  lemma ReclaimQueue(t: Atlas, s: State, owner: nat, cell: nat)
    requires |s.owners| == t.g.Size() && cell < |s.owners| && StartsOnBoard(t, s.queue)
    requires owner in s.bounds ==> Covers(t.g, s.bounds[owner], s.owners, owner)
    ensures
      var queue := Reclaim(t, s, owner, cell, false).queue;
      StartsOnBoard(t, queue) && (forall c :: Covered(s.queue, queue, c)) &&
      (Escapes(t.g, Free(s.owners, owner), cell) || Holds(queue, owner, cell))
  {
    QueuedHolds(s.queue, owner, cell);
    QueuedOnBoard(t, s.queue, owner, cell);
    if owner in s.bounds && StraightExit(t.g, s.owners, owner, cell, s.bounds[owner]) {
      StraightExitEscapes(t.g, s.owners, owner, cell, s.bounds[owner]);
    }
  }

  /** The loser's state just before it is perhaps deleted. */
  ghost function Listed(t: Atlas, s: State, owner: nat, cell: nat, fromFill: bool, mover: Trigger): State
    requires |s.owners| == t.g.Size() && cell < |s.owners| && owner in s.countries
  {
    var charged := Charge(s, owner, 1, fromFill, mover);
    var listed := Noted(charged, owner);
    var queue := if charged.countries[owner].count != 0 then Reclaim(t, listed, owner, cell, fromFill).queue else listed.queue;
    listed.(queue := queue)
  }

  lemma LossIsListedThenDeleted(t: Atlas, s: State, owner: nat, cell: nat, fromFill: bool, mover: Trigger)
    requires |s.owners| == t.g.Size() && cell < |s.owners| && owner in s.countries
    ensures Loss(t, s, owner, cell, fromFill, mover) == Deleted(Listed(t, s, owner, cell, fromFill, mover), owner)
  {
    hide StraightExit, Queued;
  }

  lemma ListedFields(t: Atlas, s: State, owner: nat, cell: nat, mover: Trigger)
    requires |s.owners| == t.g.Size() && cell < |s.owners| && owner in s.countries && s.cursor == 0
    requires StartsOnBoard(t, s.queue)
    requires s.countries[owner].count - 1 != 0 && owner in s.bounds ==> Covers(t.g, s.bounds[owner], s.owners, owner)
    ensures
      var last := Listed(t, s, owner, cell, false, mover);
      last.owners == s.owners && last.bounds == s.bounds && last.players == s.players && last.cursor == 0 &&
      last.changed == Add(s.changed, owner) && last.countries.Keys == s.countries.Keys &&
      last.countries[owner].count == s.countries[owner].count - 1 &&
      (forall c :: c in s.countries && c != owner ==> last.countries[c] == s.countries[c]) &&
      StartsOnBoard(t, last.queue) && (forall c :: Covered(s.queue, last.queue, c)) &&
      (s.countries[owner].count - 1 != 0 ==>
        Escapes(t.g, Free(s.owners, owner), cell) || Holds(last.queue, owner, cell))
  {
    hide Enclosed, Covers, Add, StraightExit, Reclaim, Charge, Queued, Escapes;
    ChargeFields(s, owner, 1, false, mover);
    var charged := Charge(s, owner, 1, false, mover);
    var listed := Noted(charged, owner);
    if charged.countries[owner].count != 0 {
      ReclaimQueue(t, listed, owner, cell);
    }
  }

  lemma LossRestoresInv(t: Atlas, s: State, owner: nat, cell: nat, mover: Trigger, prev: seq<nat>)
    requires Between(t, s, owner) && s.cursor == 0 && owner in s.countries && cell < |s.owners|
    requires cell < |prev| && prev[cell] == owner && s.owners[cell] != owner && s.owners == prev[cell := s.owners[cell]]
    requires |prev| == t.g.Size() && (Safe(t, prev, owner) || Watched(t, prev, s.queue, owner))
    ensures Inv(t, Loss(t, s, owner, cell, false, mover))
  {
    hide Enclosed, Covers, Add, Deleted, Loss, Listed, Safe, Watched, StartsOnBoard, Covered, Holds;
    var last := Listed(t, s, owner, cell, false, mover);
    LossIsListedThenDeleted(t, s, owner, cell, false, mover);
    ListedFields(t, s, owner, cell, mover);
    ListedBooks(t, s, owner, last);
    ListedAttends(t, s, owner, cell, prev, last);
    DeletedKeepsInv(t, last, owner);
  }

  lemma ListedBooks(t: Atlas, s: State, owner: nat, last: State)
    requires Between(t, s, owner) && owner in s.countries
    requires last.owners == s.owners && last.bounds == s.bounds && last.players == s.players
    requires last.countries.Keys == s.countries.Keys && last.countries[owner].count == s.countries[owner].count - 1
    requires forall c :: c in s.countries && c != owner ==> last.countries[c] == s.countries[c]
    ensures Books(t, last)
  {
    hide Covers, Owned, StartsOnBoard, Attended;
  }

  lemma ListedAttends(t: Atlas, s: State, owner: nat, cell: nat, prev: seq<nat>, last: State)
    requires Between(t, s, owner) && s.cursor == 0 == last.cursor && owner in s.countries && cell < |s.owners|
    requires cell < |prev| && prev[cell] == owner && s.owners[cell] != owner && s.owners == prev[cell := s.owners[cell]]
    requires |prev| == t.g.Size() && (Safe(t, prev, owner) || Watched(t, prev, s.queue, owner))
    requires last.owners == s.owners && last.changed == Add(s.changed, owner) && last.countries.Keys == s.countries.Keys
    requires forall c :: Covered(s.queue, last.queue, c)
    requires last.countries[owner].count == |Owned(last.owners, owner)|
    requires last.countries[owner].count != 0 ==>
      Escapes(t.g, Free(s.owners, owner), cell) || Holds(last.queue, owner, cell)
    ensures last.cursor <= |last.changed| && forall c :: c in last.countries ==> Attended(t, last, c)
  {
    hide Covers, Add, Safe, Watched, Escapes, Enclosed, Holds, Covered, Owned;
    AddKeeps(s.changed, owner, 0);
    if last.countries[owner].count != 0 {
      LoserIsWatched(t, prev, s.queue, last.queue, cell, owner, s.owners[cell]);
    } else {
      NothingOwnedIsSafe(t, s.owners, owner);
    }
    forall c | c in last.countries && c != owner
      ensures Attended(t, last, c)
    {
      BystanderAttended(t, s, last, c);
    }
  }

  /** Every claim by a live country keeps the books, and keeps every pocket watched. */
  lemma ClaimKeepsInv(t: Atlas, s: State, cell: nat, country: nat, mover: Trigger)
    requires Inv(t, s) && s.cursor == 0 && cell < |s.owners| && country in s.countries
    ensures Inv(t, Claim(t, s, cell, country, false, mover))
  {
    hide Enclosed, Covers, Loss, Booked, Claim;
    if t.land[cell] && s.owners[cell] != country {
      var b := Booked(t, s, cell, country, false, mover);
      ClaimIsBookedThenLost(t, s, cell, country, false, mover);
      BookedIsBetween(t, s, cell, country, mover);
      BookedFields(t, s, cell, country, false, mover);
      if s.owners[cell] != 0 {
        BookedQueue(t, s, cell, country, false, mover);
        assert Attended(t, s, s.owners[cell]);
        if !Safe(t, s.owners, s.owners[cell]) {
          WatchedByMore(t, s.owners, s.queue, b.queue, s.owners[cell]);
        }
        LossRestoresInv(t, b, s.owners[cell], cell, mover, s.owners);
      }
    } else {
      ClaimIsNothing(t, s, cell, country, false, mover);
    }
  }

  lemma ClaimIsNothing(t: Atlas, s: State, cell: nat, country: nat, fromFill: bool, mover: Trigger)
    requires t.Valid() && |s.owners| == t.g.Size() && cell < |s.owners|
    requires !t.land[cell] || s.owners[cell] == country
    ensures Claim(t, s, cell, country, fromFill, mover) == s
  {
  }

  lemma WatchedByMore(t: Atlas, owners: seq<nat>, queue: map<nat, Search>, more: map<nat, Search>, c: nat)
    requires |t.land| == |owners| && Covered(queue, more, c) && Watched(t, owners, queue, c)
    ensures Watched(t, owners, more, c)
  {
    hide Escapes, Reach;
    if more[c].From? {
      forall cell | cell in Enclosed(t.g, owners, c) && t.land[cell]
        ensures exists q :: q in more[c].starts && Reach(t.g.width, Free(owners, c), q, cell)
      {
        var q :| q in queue[c].starts && Reach(t.g.width, Free(owners, c), q, cell);
        assert q in more[c].starts;
      }
    }
  }
}
