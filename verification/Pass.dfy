/** One enclosure pass.

    The pass visits every changed country at most once.  That is enough: when a
    country captures a pocket, the pocket's wall is land that an already visited
    country does not enclose, so nothing the visited country lost can be cut off. */
module Pass {
  import opened Basics
  import opened Grid
  import opened Enclosure
  import opened Territory
  import opened Claims
  import opened Capture

  ghost function Cells(cells: seq<nat>): set<nat> {
    set c | c in cells
  }

  /** Whole enclosed components of a country, with all the land it encloses among them. */
  ghost predicate Region(t: Atlas, owners: seq<nat>, country: nat, cells: set<nat>)
    requires |t.land| == |owners|
  {
    cells <= Enclosed(t.g, owners, country) &&
    Closed(t.g.width, Free(owners, country), cells) &&
    forall c :: c in Enclosed(t.g, owners, country) && t.land[c] ==> c in cells
  }

  /** The owners after a capture: the land of the region changes hands. */
  ghost predicate Taken(t: Atlas, owners: seq<nat>, after: seq<nat>, cells: set<nat>, country: nat) {
    |t.land| == |owners| == |after| &&
    forall c :: 0 <= c < |owners| ==> after[c] == if c in cells && t.land[c] then country else owners[c]
  }

  lemma {:induction false} HaulOwners(t: Atlas, owners: seq<nat>, queue: map<nat, Search>, cells: seq<nat>, country: nat)
    requires t.Valid() && |owners| == t.g.Size() && forall k :: 0 <= k < |cells| ==> cells[k] < |owners|
    ensures Taken(t, owners, TakeAll(t, owners, queue, cells, country).owners, Cells(cells), country)
    decreases |cells|
  {
    hide Row, Col, At, Queued, Hulled;
    if cells != [] {
      var n := |cells| - 1;
      HaulOwners(t, owners, queue, cells[..n], country);
      assert Cells(cells) == Cells(cells[..n]) + {cells[n]};
    }
  }

  /** Every cell taken from a country is queued for it. */
  ghost predicate QueuesLosses(t: Atlas, owners: seq<nat>, queue: map<nat, Search>, h: Haul, country: nat)
    requires |owners| == |h.owners|
  {
    StartsOnBoard(t, h.queue) && (forall c :: Covered(queue, h.queue, c)) &&
    forall p :: 0 <= p < |owners| && h.owners[p] != owners[p] && owners[p] != 0 ==> Holds(h.queue, owners[p], p)
  }

  lemma {:induction false} HaulQueues(t: Atlas, owners: seq<nat>, queue: map<nat, Search>, cells: seq<nat>, country: nat)
    requires t.Valid() && |owners| == t.g.Size() && forall k :: 0 <= k < |cells| ==> cells[k] < |owners|
    requires StartsOnBoard(t, queue)
    ensures QueuesLosses(t, owners, queue, TakeAll(t, owners, queue, cells, country), country)
    decreases |cells|
  {
    hide Row, Col, At, Hulled, Queued, Covered, StartsOnBoard;
    if cells == [] {
      CoversItself(queue);
    } else {
      var n := |cells| - 1;
      var h := TakeAll(t, owners, queue, cells[..n], country);
      HaulQueues(t, owners, queue, cells[..n], country);
      HaulOwners(t, owners, queue, cells[..n], country);
      if Takes(t, h.owners, cells[n], country) && h.owners[cells[n]] != 0 {
        QueuedHolds(h.queue, h.owners[cells[n]], cells[n]);
        QueuedOnBoard(t, h.queue, h.owners[cells[n]], cells[n]);
        CoveredTrans(queue, h.queue, Queued(h.queue, h.owners[cells[n]], cells[n]));
        HoldsMore(h.queue, Queued(h.queue, h.owners[cells[n]], cells[n]));
      }
    }
  }

  lemma CoversItself(queue: map<nat, Search>)
    ensures forall c :: Covered(queue, queue, c)
  {
  }

  lemma CoveredTrans(a: map<nat, Search>, b: map<nat, Search>, c: map<nat, Search>)
    requires (forall k :: Covered(a, b, k)) && (forall k :: Covered(b, c, k))
    ensures forall k :: Covered(a, c, k)
  {
    forall k
      ensures Covered(a, c, k)
    {
      assert Covered(a, b, k) && Covered(b, c, k);
    }
  }

  lemma HoldsMore(a: map<nat, Search>, b: map<nat, Search>)
    requires forall k :: Covered(a, b, k)
    ensures forall k, q :: Holds(a, k, q) ==> Holds(b, k, q)
  {
    forall k, q | Holds(a, k, q)
      ensures Holds(b, k, q)
    {
      assert Covered(a, b, k);
    }
  }

  // ----- the capturing country -----

  /** After capturing a region, the country encloses no more land. */
  lemma CapturerIsSafe(t: Atlas, owners: seq<nat>, after: seq<nat>, country: nat, cells: set<nat>)
    requires |t.land| == |owners| && |owners| == t.g.Size()
    requires Region(t, owners, country, cells) && Taken(t, owners, after, cells, country)
    ensures Safe(t, after, country)
  {
    var free, rest := Free(owners, country), Free(after, country);
    forall p | p in rest && t.land[p]
      ensures Escapes(t.g, rest, p)
    {
      assert Escapes(t.g, free, p);
      var e: nat :| OnEdge(t.g, e) && Reach(t.g.width, free, p, e);
      var route :| RouteBetween(t.g.width, free, route, p, e);
      forall k | 0 <= k < |route|
        ensures route[k] in rest
      {
        assert RouteBetween(t.g.width, free, route[k..], route[k], e);
        assert Escapes(t.g, free, route[k]);
      }
      assert RouteBetween(t.g.width, rest, route, p, e);
    }
  }

  // ----- the countries that were safe -----

  /** A pocket without edge cells can be left to the west; the step out meets its wall. */
  lemma {:induction false} WallToTheWest(g: Board, cells: set<nat>, p: nat) returns (last: nat, wall: nat)
    requires p in cells && forall c :: c in cells ==> c < g.Size() && !OnEdge(g, c)
    ensures last in cells && wall < g.Size() && wall !in cells && Adjacent(g.width, last, wall)
    ensures Reach(g.width, cells, p, last)
    decreases Col(g.width, p)
  {
    RowsAreBounded(g, p);
    ReachSelf(g.width, cells, p);
    var west := Neighbour(g, p, 7);
    if west in cells {
      ReachStep(g.width, cells, p, west);
      last, wall := WallToTheWest(g, cells, west);
      ReachTrans(g.width, cells, p, west, last);
    } else {
      last, wall := p, west;
    }
  }

  /** The wall argument: what a safe country loses to a capture still escapes. */
  lemma SafeStaysSafe(t: Atlas, owners: seq<nat>, after: seq<nat>, country: nat, cells: set<nat>, other: nat)
    requires |t.land| == |owners| && |owners| == t.g.Size() && other != country && other != 0
    requires forall c :: 0 <= c < |owners| && owners[c] != 0 ==> t.land[c]
    requires country != 0 && Region(t, owners, country, cells) && Taken(t, owners, after, cells, country)
    requires Safe(t, owners, other)
    ensures Safe(t, after, other)
  {
    var free, grown := Free(owners, other), Free(after, other);
    assert free <= grown;
    forall p | p in grown && t.land[p]
      ensures Escapes(t.g, grown, p)
    {
      if p in free {
        assert Escapes(t.g, free, p);
        EscapesGrows(t.g, free, grown, p);
      } else {
        RegionIsInner(t, owners, country, cells);
        var last, wall := WallToTheWest(t.g, cells, p);
        WallIsOwned(t, owners, country, cells, last, wall);
        assert wall in free && t.land[wall];
        assert Escapes(t.g, free, wall);
        EscapesGrows(t.g, free, grown, wall);
        assert cells <= grown;
        ReachGrows(t.g.width, cells, grown, p, last);
        ReachStep(t.g.width, grown, last, wall);
        ReachTrans(t.g.width, grown, p, last, wall);
        EscapesVia(t.g, grown, p, wall);
      }
    }
  }

  lemma RegionIsInner(t: Atlas, owners: seq<nat>, country: nat, cells: set<nat>)
    requires |t.land| == |owners| && |owners| == t.g.Size() && Region(t, owners, country, cells)
    ensures forall c :: c in cells ==> c < t.g.Size() && !OnEdge(t.g, c)
  {
    forall c | c in cells
      ensures c < t.g.Size() && !OnEdge(t.g, c)
    {
      if OnEdge(t.g, c) {
        EscapesAtEdge(t.g, Free(owners, country), c);
      }
    }
  }

  lemma WallIsOwned(t: Atlas, owners: seq<nat>, country: nat, cells: set<nat>, last: nat, wall: nat)
    requires |t.land| == |owners| && |owners| == t.g.Size() && Region(t, owners, country, cells)
    requires last in cells && wall < |owners| && wall !in cells && Adjacent(t.g.width, last, wall)
    ensures owners[wall] == country
  {
  }

  // ----- the countries still to come -----

  lemma WatchedStaysWatched(t: Atlas, owners: seq<nat>, after: seq<nat>, queue: map<nat, Search>, more: map<nat, Search>,
                            country: nat, cells: set<nat>, other: nat)
    requires |t.land| == |owners| && |owners| == t.g.Size() && other != country && other != 0
    requires Taken(t, owners, after, cells, country)
    requires Watched(t, owners, queue, other) && Covered(queue, more, other)
    requires forall p :: 0 <= p < |owners| && after[p] != owners[p] && owners[p] == other ==> Holds(more, other, p)
    ensures Watched(t, after, more, other)
  {
    var w, free, grown := t.g.width, Free(owners, other), Free(after, other);
    assert free <= grown;
    if more[other].From? {
      forall p | p in Enclosed(t.g, after, other) && t.land[p]
        ensures exists q :: q in more[other].starts && Reach(w, grown, q, p)
      {
        if p in free {
          if Escapes(t.g, free, p) {
            EscapesGrows(t.g, free, grown, p);
          }
          assert p in Enclosed(t.g, owners, other);
          var q :| q in queue[other].starts && Reach(w, free, q, p);
          ReachGrows(w, free, grown, q, p);
          assert q in more[other].starts;
        } else {
          ReachSelf(w, grown, p);
          assert Holds(more, other, p);
        }
      }
    }
  }

  // ----- settling the losers keeps the invariant -----

  /** The invariant while some losers have not been charged yet. */
  ghost predicate Owing(t: Atlas, s: State, debtors: seq<nat>, losses: map<nat, nat>) {
    t.Valid() && |s.owners| == t.g.Size() && 0 !in s.countries &&
    (forall cell :: 0 <= cell < |s.owners| && s.owners[cell] != 0 ==> t.land[cell] && s.owners[cell] in s.countries) &&
    (forall c :: c in s.countries ==>
      s.countries[c].count == |Owned(s.owners, c)| + if c in debtors then LossOf(losses, c) else 0) &&
    (forall c :: c in s.countries && s.countries[c].count != 0 ==> c in s.bounds && Covers(t.g, s.bounds[c], s.owners, c)) &&
    (forall c :: c in s.bounds ==> s.bounds[c].Within(t.g)) &&
    (forall id :: id in s.players ==> s.players[id].country in s.countries) &&
    s.cursor <= |s.changed| && StartsOnBoard(t, s.queue) &&
    forall c :: c in s.countries ==> Attended(t, s, c)
  }

  /** Nobody but the deleted country loses its place or its queue. */
  lemma DeletedAttends(t: Atlas, s: State, o: nat, c: nat)
    requires |t.land| == |s.owners| && s.cursor <= |s.changed| && Attended(t, s, c) && (c != o || Deleted(s, o) == s)
    ensures Deleted(s, o).cursor <= |Deleted(s, o).changed| && Attended(t, Deleted(s, o), c)
  {
    hide Safe, Watched, Without;
    DeletedKeepsPlace(s, o);
    if c != o && c in Deleted(s, o).queue {
      WatchedSameQueue(t, s.owners, s.queue, Deleted(s, o).queue, c);
    } else if c != o {
      NotQueuedNotWatched(t, s.owners, s.queue, c);
    }
  }

  lemma WatchedSameQueue(t: Atlas, owners: seq<nat>, queue: map<nat, Search>, other: map<nat, Search>, c: nat)
    requires |t.land| == |owners| && c in other && c in queue && other[c] == queue[c]
    ensures Watched(t, owners, queue, c) <==> Watched(t, owners, other, c)
  {
    hide Reach, Enclosed;
  }

  lemma NotQueuedNotWatched(t: Atlas, owners: seq<nat>, queue: map<nat, Search>, c: nat)
    requires |t.land| == |owners| && c !in queue
    ensures !Watched(t, owners, queue, c)
  {
  }

  lemma DeletedKeepsOwing(t: Atlas, s: State, o: nat, debtors: seq<nat>, losses: map<nat, nat>)
    requires Owing(t, s, debtors, losses) && o !in debtors
    ensures Owing(t, Deleted(s, o), debtors, losses)
  {
    hide Without, Covers, Attended, Owned;
    var d := Deleted(s, o);
    DeletedKeepsPlace(s, o);
    if d != s {
      OwnedNone(s.owners, o);
      forall c | c in d.countries
        ensures Attended(t, d, c)
      {
        DeletedAttends(t, s, o, c);
      }
    }
  }

  /** A longer list of changed countries leaves everyone attended. */
  lemma MoreChangedAttends(t: Atlas, s: State, a: State, c: nat)
    requires |t.land| == |s.owners| && s.cursor <= |s.changed| && Attended(t, s, c)
    requires a.owners == s.owners && a.queue == s.queue && a.cursor == s.cursor <= |a.changed|
    requires forall y :: y in s.changed[s.cursor..] ==> y in a.changed[s.cursor..]
    ensures Attended(t, a, c)
  {
    hide Safe, Watched;
  }

  lemma ChargedAndNoted(s: State, o: nat, n: nat, mover: Trigger)
    ensures
      var a := Noted(Charge(s, o, n, true, mover), o);
      a.owners == s.owners && a.bounds == s.bounds && a.queue == s.queue && a.players == s.players && a.cursor == s.cursor &&
      a.changed == Add(s.changed, o) && a.countries.Keys == s.countries.Keys &&
      (o in s.countries ==> a.countries[o].count == s.countries[o].count - n) &&
      forall c :: c in s.countries && c != o ==> a.countries[c] == s.countries[c]
  {
    hide Add;
  }

  lemma ChargedKeepsOwing(t: Atlas, s: State, o: nat, debtors: seq<nat>, rest: seq<nat>, losses: map<nat, nat>, mover: Trigger)
    requires Owing(t, s, debtors, losses) && o in debtors && o !in rest && forall c :: c in debtors <==> c == o || c in rest
    ensures Owing(t, Noted(Charge(s, o, LossOf(losses, o), true, mover), o), rest, losses)
  {
    hide Covers, Attended, Owned, StartsOnBoard, Add, Charge, Noted;
    var a := Noted(Charge(s, o, LossOf(losses, o), true, mover), o);
    AddKeeps(s.changed, o, s.cursor);
    ChargedAndNoted(s, o, LossOf(losses, o), mover);
    forall c | c in a.countries
      ensures Attended(t, a, c)
    {
      MoreChangedAttends(t, s, a, c);
    }
  }

  lemma {:induction false} SettlingKeepsOwing(t: Atlas, s: State, losers: seq<nat>, losses: map<nat, nat>, mover: Trigger, n: nat)
    requires n <= |losers| && Owing(t, s, losers, losses)
    requires forall i, j :: 0 <= i < j < |losers| ==> losers[i] != losers[j]
    ensures Owing(t, SettleLosers(s, losers[..n], losses, mover), losers[n..], losses)
    decreases n
  {
    hide Owing, Charge, Noted, Deleted;
    assert losers[0..] == losers;
    if n > 0 {
      var o, x := losers[n - 1], SettleLosers(s, losers[..n - 1], losses, mover);
      SettlingKeepsOwing(t, s, losers, losses, mover, n - 1);
      assert losers[..n][..n - 1] == losers[..n - 1];
      assert losers[n - 1..] == [o] + losers[n..];
      ChargedKeepsOwing(t, x, o, losers[n - 1..], losers[n..], losses, mover);
      DeletedKeepsOwing(t, Noted(Charge(x, o, LossOf(losses, o), true, mover), o), o, losers[n..], losses);
    }
  }

  // ----- one capture keeps the invariant -----

  /** A capture is due: the country at hand has been passed by the cursor and needs no watch. */
  ghost predicate Due(t: Atlas, s: State, country: nat) {
    Books(t, s) && s.cursor <= |s.changed| && StartsOnBoard(t, s.queue) &&
    country in s.countries && s.countries[country].count != 0 && country in s.changed &&
    forall c :: c in s.countries && c != country ==> Attended(t, s, c)
  }

  lemma CaptureAttends(t: Atlas, s: State, h: Haul, cells: set<nat>, country: nat, c: nat)
    requires Due(t, s, country) && c in s.countries
    requires Region(t, s.owners, country, cells) && Taken(t, s.owners, h.owners, cells, country)
    requires QueuesLosses(t, s.owners, s.queue, h, country)
    ensures Safe(t, h.owners, c) || (c in s.changed[s.cursor..] && Watched(t, h.owners, h.queue, c))
  {
    hide Enclosed, Covers, Reach, Region, Taken, Owned, Holds, Covered;
    if c == country {
      CapturerIsSafe(t, s.owners, h.owners, country, cells);
    } else if Safe(t, s.owners, c) {
      SafeStaysSafe(t, s.owners, h.owners, country, cells, c);
    } else {
      assert Attended(t, s, c);
      WatchedStaysWatched(t, s.owners, h.owners, s.queue, h.queue, country, cells, c);
    }
  }

  lemma MergedCovers(t: Atlas, s: State, cells: seq<nat>, country: nat)
    requires Due(t, s, country) && forall k :: 0 <= k < |cells| ==> cells[k] < |s.owners|
    ensures
      var h := TakeAll(t, s.owners, s.queue, cells, country);
      h.box.Some? ==>
        h.box.value.Within(t.g) && Covers(t.g, Merged(s.bounds, country, h.box.value)[country], h.owners, country) &&
        (forall c :: c in Merged(s.bounds, country, h.box.value) ==> Merged(s.bounds, country, h.box.value)[c].Within(t.g))
  {
    BoxHoldsTaken(t, s.owners, s.queue, cells, country);
    hide Owned, Row, Col, Enclosed;
  }

  /** The hull of the haul contains every cell that changed hands. */
  lemma {:induction false} BoxHoldsTaken(t: Atlas, owners: seq<nat>, queue: map<nat, Search>, cells: seq<nat>, country: nat)
    requires t.Valid() && |owners| == t.g.Size() && forall k :: 0 <= k < |cells| ==> cells[k] < |owners|
    ensures
      var h := TakeAll(t, owners, queue, cells, country);
      (h.box.Some? ==> h.box.value.Within(t.g)) &&
      forall p :: 0 <= p < |owners| && h.owners[p] != owners[p] ==> h.box.Some? && h.box.value.Contains(t.g.width, p)
    decreases |cells|
  {
    hide Row, Col, At, Queued;
    if cells != [] {
      var n := |cells| - 1;
      BoxHoldsTaken(t, owners, queue, cells[..n], country);
      RowsAreBounded(t.g, cells[n]);
    }
  }

  lemma HoistedFields(s: State, h: Haul, country: nat, mover: Trigger)
    requires h.box.Some? && country in s.countries
    ensures
      var y := Hoisted(s, h, country, mover);
      y.owners == h.owners && y.queue == h.queue && y.cursor == s.cursor && y.changed == Add(s.changed, country) &&
      y.bounds == Merged(s.bounds, country, h.box.value) &&
      y.countries == s.countries[country := s.countries[country].(count := s.countries[country].count + h.taken)] &&
      y.players.Keys == s.players.Keys &&
      (forall id :: id in s.players ==> y.players[id].country == s.players[id].country)
  {
    hide Merged, Add;
  }

  lemma HoistedAttends(t: Atlas, s: State, h: Haul, cells: set<nat>, country: nat, mover: Trigger, c: nat)
    requires Due(t, s, country) && c in s.countries && h.box.Some?
    requires Region(t, s.owners, country, cells) && Taken(t, s.owners, h.owners, cells, country)
    requires QueuesLosses(t, s.owners, s.queue, h, country)
    ensures
      var y := Hoisted(s, h, country, mover);
      |t.land| == |y.owners| && y.cursor <= |y.changed| && Attended(t, y, c)
  {
    hide Enclosed, Owned, Covers, Region, Safe, Watched, Hoisted, Merged, Holds, Covered;
    HoistedFields(s, h, country, mover);
    AddKeeps(s.changed, country, s.cursor);
    CaptureAttends(t, s, h, cells, country, c);
  }

  lemma HoistedIsOwing(t: Atlas, s: State, cells: seq<nat>, country: nat, mover: Trigger)
    requires Due(t, s, country) && forall k :: 0 <= k < |cells| ==> cells[k] < |s.owners|
    requires Region(t, s.owners, country, Cells(cells))
    ensures
      var h := TakeAll(t, s.owners, s.queue, cells, country);
      h.box.Some? ==> Owing(t, Hoisted(s, h, country, mover), h.losers, h.losses)
  {
    hide Enclosed, Reach, Owned, Region, Attended, Covers, Hoisted, Merged, Row, Col;
    var h := TakeAll(t, s.owners, s.queue, cells, country);
    HaulOwners(t, s.owners, s.queue, cells, country);
    HaulIsTallied(t, s.owners, s.queue, cells, country);
    HaulQueues(t, s.owners, s.queue, cells, country);
    if h.box.Some? {
      HoistedFields(s, h, country, mover);
      MergedCovers(t, s, cells, country);
      MergedHas(s.bounds, country, h.box.value);
      AddKeeps(s.changed, country, s.cursor);
      var y := Hoisted(s, h, country, mover);
      forall c | c in y.countries
        ensures Attended(t, y, c)
      {
        HoistedAttends(t, s, h, Cells(cells), country, mover, c);
      }
      forall c | c in y.countries && y.countries[c].count != 0
        ensures c in y.bounds && Covers(t.g, y.bounds[c], y.owners, c)
      {
        if c != country {
          FewerStillCovered(t.g, s.bounds[c], s.owners, h.owners, c);
        }
      }
    }
  }

  lemma MergedHas(bounds: map<nat, Bounds>, country: nat, box: Bounds)
    ensures country in Merged(bounds, country, box)
    ensures forall c :: c in bounds && c != country ==> c in Merged(bounds, country, box) && Merged(bounds, country, box)[c] == bounds[c]
  {
  }

  lemma FewerStillCovered(g: Board, box: Bounds, owners: seq<nat>, after: seq<nat>, c: nat)
    requires Covers(g, box, owners, c) && |after| == |owners|
    requires forall p :: 0 <= p < |owners| && after[p] == c ==> owners[p] == c
    ensures Covers(g, box, after, c)
  {
  }

  lemma OwingNothing(t: Atlas, s: State, losses: map<nat, nat>)
    requires Owing(t, s, [], losses)
    ensures Inv(t, s)
  {
  }

  lemma NothingMoreIsDue(t: Atlas, s: State, country: nat)
    requires Due(t, s, country) && Safe(t, s.owners, country)
    ensures Inv(t, s)
  {
    hide Safe, Watched, Owned, Covers;
  }

  /** Capturing a whole region keeps the invariant, and the capturer needs no more care. */
  lemma CaptureKeepsInv(t: Atlas, s: State, cells: seq<nat>, country: nat, mover: Trigger)
    requires Due(t, s, country) && forall k :: 0 <= k < |cells| ==> cells[k] < |s.owners|
    requires Region(t, s.owners, country, Cells(cells))
    ensures Inv(t, Captured(t, s, cells, country, mover))
  {
    hide Enclosed, Covers, Safe, Watched, Owned, Region, Owing, Hoisted, SettleLosers, TakeAll, Inv, Taken, Attended;
    var h := TakeAll(t, s.owners, s.queue, cells, country);
    HaulIsTallied(t, s.owners, s.queue, cells, country);
    if h.taken == 0 {
      HaulOwners(t, s.owners, s.queue, cells, country);
      CapturerIsSafe(t, s.owners, h.owners, country, Cells(cells));
      NothingMoreIsDue(t, s, country);
    } else {
      HoistedIsOwing(t, s, cells, country, mover);
      SettlingKeepsOwing(t, Hoisted(s, h, country, mover), h.losers, h.losses, mover, |h.losers|);
      assert h.losers[..|h.losers|] == h.losers && h.losers[|h.losers|..] == [];
      OwingNothing(t, Captured(t, s, cells, country, mover), h.losses);
    }
  }

  // ----- the plain pass -----

  /** The members of a set below n, in ascending order. */
  ghost function Listing(cells: set<nat>, n: nat): (r: seq<nat>)
    ensures Strict(r) && forall c :: c in r <==> c in cells && c < n
  {
    if n == 0 then []
    else
      var before := Listing(cells, n - 1);
      assert forall k :: 0 <= k < |before| ==> before[k] in before;
      before + if n - 1 in cells then [n - 1] else []
  }

  /** What one turn of the pass would do with a plain flood of the whole board. */
  ghost function PlainStep(t: Atlas, s: State): State
    requires t.Valid() && |s.owners| == t.g.Size() && s.cursor < |s.changed|
  {
    var c := s.changed[s.cursor];
    var next := s.(cursor := s.cursor + 1);
    if c !in s.queue || c !in s.countries || s.countries[c].count == 0 then next
    else
      EntriesAreMembers(Listing(Enclosed(t.g, s.owners, c), t.g.Size()), t.g.Size());
      Captured(t, next.(queue := s.queue[c := Whole]), Listing(Enclosed(t.g, s.owners, c), t.g.Size()), c, TriggerOf(s, c))
  }

  lemma EntriesAreMembers(cells: seq<nat>, n: nat)
    requires forall c :: c in cells ==> c < n
    ensures forall k :: 0 <= k < |cells| ==> cells[k] < n
  {
    forall k | 0 <= k < |cells|
      ensures cells[k] < n
    {
      assert cells[k] in cells;
    }
  }

  function TriggerOf(s: State, country: nat): Trigger {
    if country in s.triggers then Some(s.triggers[country]) else None
  }

  /** How many turns are left: the entries ahead, and the countries not listed yet. */
  ghost function TurnsLeft(s: State): nat
    requires s.cursor <= |s.changed|
  {
    |s.changed| - s.cursor + |s.countries.Keys - Cells(s.changed)|
  }

  lemma TurnIsDue(t: Atlas, s: State)
    requires Inv(t, s) && s.cursor < |s.changed|
    requires s.changed[s.cursor] in s.countries && s.countries[s.changed[s.cursor]].count != 0
    ensures Due(t, s.(cursor := s.cursor + 1, queue := s.queue[s.changed[s.cursor] := Whole]), s.changed[s.cursor])
  {
    hide Safe, Enclosed, Covers, Owned, Reach;
    var c := s.changed[s.cursor];
    var due := s.(cursor := s.cursor + 1, queue := s.queue[c := Whole]);
    forall d | d in due.countries && d != c
      ensures Attended(t, due, d)
    {
      assert Attended(t, s, d);
      AheadWithoutFirst(s.changed, s.cursor, d);
    }
  }

  lemma AheadWithoutFirst(changed: seq<nat>, cursor: nat, d: nat)
    requires cursor < |changed| && d != changed[cursor]
    ensures d in changed[cursor..] ==> d in changed[cursor + 1..]
  {
    assert changed[cursor..] == [changed[cursor]] + changed[cursor + 1..];
  }

  lemma SkipKeepsInv(t: Atlas, s: State)
    requires Inv(t, s) && s.cursor < |s.changed|
    requires
      var c := s.changed[s.cursor];
      c !in s.queue || c !in s.countries || s.countries[c].count == 0
    ensures Inv(t, s.(cursor := s.cursor + 1))
  {
    hide Safe, Enclosed, Covers, Owned, Reach;
    var c := s.changed[s.cursor];
    var next := s.(cursor := s.cursor + 1);
    forall d | d in next.countries
      ensures Attended(t, next, d)
    {
      assert Attended(t, s, d);
      if d != c {
        AheadWithoutFirst(s.changed, s.cursor, d);
      } else if s.countries[c].count == 0 {
        NothingOwnedIsSafe(t, s.owners, c);
      }
    }
  }

  lemma EnclosedIsRegion(t: Atlas, owners: seq<nat>, country: nat)
    requires |t.land| == |owners|
    ensures Region(t, owners, country, Enclosed(t.g, owners, country))
  {
    var w, free := t.g.width, Free(owners, country);
    forall a, b | a in Enclosed(t.g, owners, country) && b in free && Adjacent(w, a, b)
      ensures b in Enclosed(t.g, owners, country)
    {
      ReachStep(w, free, a, b);
      if Escapes(t.g, free, b) {
        EscapesVia(t.g, free, a, b);
      }
    }
  }

  lemma PlainStepKeepsInv(t: Atlas, s: State)
    requires Inv(t, s) && s.cursor < |s.changed|
    ensures Inv(t, PlainStep(t, s)) && TurnsLeft(PlainStep(t, s)) < TurnsLeft(s)
  {
    hide Due, Captured, Listing, TurnsLeft, Enclosed, Attended, StartsOnBoard, Owned, Covers;
    var c := s.changed[s.cursor];
    StepLeavesLess(s, s.queue[c := Whole]);
    if c !in s.queue || c !in s.countries || s.countries[c].count == 0 {
      SkipKeepsInv(t, s);
    } else {
      var due := s.(cursor := s.cursor + 1, queue := s.queue[c := Whole]);
      EntriesAreMembers(Listing(Enclosed(t.g, s.owners, c), t.g.Size()), t.g.Size());
      TurnIsDue(t, s);
      EnclosedIsRegion(t, s.owners, c);
      ListingIsWhole(t.g, s.owners, c);
      CaptureKeepsInv(t, due, Listing(Enclosed(t.g, s.owners, c), t.g.Size()), c, TriggerOf(s, c));
      CaptureLeavesNoMore(t, due, Listing(Enclosed(t.g, s.owners, c), t.g.Size()), c, TriggerOf(s, c));
    }
  }

  lemma ListingIsWhole(g: Board, owners: seq<nat>, country: nat)
    requires |owners| == g.Size()
    ensures Cells(Listing(Enclosed(g, owners, country), g.Size())) == Enclosed(g, owners, country)
  {
  }

  lemma StepLeavesLess(s: State, queue: map<nat, Search>)
    requires s.cursor < |s.changed|
    ensures TurnsLeft(s.(cursor := s.cursor + 1, queue := queue)) < TurnsLeft(s)
    ensures TurnsLeft(s.(cursor := s.cursor + 1)) < TurnsLeft(s)
  {
  }

  lemma SettleLeavesNoMore(s: State, o: nat, m: nat, mover: Trigger)
    requires s.cursor <= |s.changed| && o in s.countries
    ensures
      var a := SettleLoser(s, o, m, mover);
      a.cursor <= |a.changed| && TurnsLeft(a) <= TurnsLeft(s)
  {
    hide Without, Held;
    var listed := Noted(Charge(s, o, m, true, mover), o);
    AddKeeps(s.changed, o, s.cursor);
    ChargeFields(s, o, m, true, mover);
    NoteLeavesNoMore(s, listed, o);
    DeletedLeavesNoMore(listed, o);
  }

  lemma NoteLeavesNoMore(s: State, listed: State, o: nat)
    requires s.cursor <= |s.changed| && o in s.countries && listed.cursor == s.cursor
    requires listed.changed == Add(s.changed, o) && listed.countries.Keys == s.countries.Keys
    ensures listed.cursor <= |listed.changed| && TurnsLeft(listed) <= TurnsLeft(s)
  {
    if o !in s.changed {
      assert Cells(listed.changed) == Cells(s.changed) + {o};
      assert s.countries.Keys - Cells(s.changed) == (listed.countries.Keys - Cells(listed.changed)) + {o};
    }
  }

  lemma DeletedLeavesNoMore(s: State, o: nat)
    requires s.cursor <= |s.changed|
    ensures Deleted(s, o).cursor <= |Deleted(s, o).changed| && TurnsLeft(Deleted(s, o)) <= TurnsLeft(s)
  {
    var d := Deleted(s, o);
    DeletedKeepsPlace(s, o);
    if d != s {
      var before, after := s.changed[..s.cursor], s.changed[s.cursor..];
      assert s.changed == before + after;
      WithoutSplits(before, after, o);
      WithoutIs(after, o);
      WithoutIs(s.changed, o);
      var fewer, all := d.countries.Keys - Cells(d.changed), s.countries.Keys - Cells(s.changed);
      assert fewer <= all;
      SubsetIsSmaller(fewer, all);
    }
  }

  lemma SubsetIsSmaller(a: set<nat>, b: set<nat>)
    requires a <= b
    ensures |a| <= |b|
  {
    assert b == a + (b - a);
  }

  lemma {:induction false} SettlingLeavesNoMore(s: State, losers: seq<nat>, losses: map<nat, nat>, mover: Trigger)
    requires s.cursor <= |s.changed| && forall o :: o in losers ==> o in s.countries
    requires forall i, j :: 0 <= i < j < |losers| ==> losers[i] != losers[j]
    ensures
      var a := SettleLosers(s, losers, losses, mover);
      a.cursor <= |a.changed| && TurnsLeft(a) <= TurnsLeft(s)
    decreases |losers|
  {
    hide SettleLoser, TurnsLeft;
    if losers != [] {
      var n := |losers| - 1;
      SettlingLeavesNoMore(s, losers[..n], losses, mover);
      assert losers[n] in losers && losers[n] !in losers[..n];
      SettledFacts(s, losers[..n], losses, mover, losers[n]);
      SettleLeavesNoMore(SettleLosers(s, losers[..n], losses, mover), losers[n], LossOf(losses, losers[n]), mover);
    }
  }

  lemma CaptureLeavesNoMore(t: Atlas, s: State, cells: seq<nat>, country: nat, mover: Trigger)
    requires Due(t, s, country) && forall k :: 0 <= k < |cells| ==> cells[k] < |s.owners|
    ensures
      var a := Captured(t, s, cells, country, mover);
      a.cursor <= |a.changed| && TurnsLeft(a) <= TurnsLeft(s)
  {
    hide Enclosed, Covers, Safe, Watched, Owned, Hoisted, Attended, SettleLosers, TakeAll, TurnsLeft;
    var h := TakeAll(t, s.owners, s.queue, cells, country);
    HaulIsTallied(t, s.owners, s.queue, cells, country);
    if h.taken != 0 {
      HoistedLeavesSame(s, h, country, mover);
      LosersAreLive(t, s, h, country);
      SettlingLeavesNoMore(Hoisted(s, h, country, mover), h.losers, h.losses, mover);
    }
  }

  lemma HoistedLeavesSame(s: State, h: Haul, country: nat, mover: Trigger)
    requires h.box.Some? && country in s.countries && country in s.changed && s.cursor <= |s.changed|
    ensures
      var y := Hoisted(s, h, country, mover);
      y.cursor <= |y.changed| && TurnsLeft(y) == TurnsLeft(s) && y.countries.Keys == s.countries.Keys
  {
    hide Hoisted;
    HoistedFields(s, h, country, mover);
    var y := Hoisted(s, h, country, mover);
    assert y.countries.Keys == s.countries.Keys && y.changed == s.changed;
  }

  lemma LosersAreLive(t: Atlas, s: State, h: Haul, country: nat)
    requires Books(t, s) && |h.owners| == |s.owners| && Tallied(t, s.owners, h, country)
    requires forall o :: o in h.losses ==> h.losses[o] > 0
    ensures forall o :: o in h.losers ==> o in s.countries
  {
    forall o | o in h.losers
      ensures o in s.countries
    {
      assert |Owned(s.owners, o)| > 0;
      var c :| c in Owned(s.owners, o);
      assert s.owners[c] == o;
    }
  }

  /** The end of a pass: nothing listed, nothing queued. */
  function Cleared(s: State): State {
    s.(changed := [], cursor := 0, queue := map[], triggers := map[])
  }

  /** The reference: every changed country in turn takes all the land it encloses. */
  ghost function PlainPass(t: Atlas, s: State): State
    requires Inv(t, s)
    decreases TurnsLeft(s)
  {
    if s.cursor == |s.changed| then s
    else
      PlainStepKeepsInv(t, s);
      PlainPass(t, PlainStep(t, s))
  }

  /** The pass seals the world: no country is left with enclosed land, and the books balance. */
  lemma {:induction false} PassSeals(t: Atlas, s: State)
    requires Inv(t, s)
    ensures
      var r := PlainPass(t, s);
      Books(t, r) && forall c :: c != 0 ==> Safe(t, r.owners, c)
    decreases TurnsLeft(s)
  {
    if s.cursor == |s.changed| {
      forall c | c != 0
        ensures Safe(t, s.owners, c)
      {
        if c in s.countries {
          assert Attended(t, s, c);
        } else {
          assert Owned(s.owners, c) == {};
          NothingOwnedIsSafe(t, s.owners, c);
        }
      }
    } else {
      PlainStepKeepsInv(t, s);
      PassSeals(t, PlainStep(t, s));
    }
  }

  // ----- the fast fills refine the plain flood -----

  function LandOf(t: Atlas, cells: seq<nat>): (r: seq<nat>)
    requires forall k :: 0 <= k < |cells| ==> cells[k] < |t.land|
    ensures forall c :: c in r <==> c in cells && t.land[c]
    ensures forall k :: 0 <= k < |r| ==> r[k] < |t.land|
    decreases |cells|
  {
    if cells == [] then []
    else
      var n := |cells| - 1;
      assert cells == cells[..n] + [cells[n]];
      LandOf(t, cells[..n]) + if t.land[cells[n]] then [cells[n]] else []
  }

  lemma {:induction false} LandOfIsAscending(t: Atlas, cells: seq<nat>)
    requires forall k :: 0 <= k < |cells| ==> cells[k] < |t.land|
    requires Strict(cells)
    ensures Strict(LandOf(t, cells))
    decreases |cells|
  {
    if cells != [] {
      var n := |cells| - 1;
      LandOfIsAscending(t, cells[..n]);
      var before := LandOf(t, cells[..n]);
      assert forall k :: 0 <= k < |before| ==> before[k] in before;
      assert forall c :: c in cells[..n] ==> c < cells[n];
    }
  }

  /** Water in a haul changes nothing. */
  lemma {:induction false} HaulIgnoresWater(t: Atlas, owners: seq<nat>, queue: map<nat, Search>, cells: seq<nat>, country: nat)
    requires t.Valid() && |owners| == t.g.Size() && forall k :: 0 <= k < |cells| ==> cells[k] < |owners|
    ensures TakeAll(t, owners, queue, cells, country) == TakeAll(t, owners, queue, LandOf(t, cells), country)
    decreases |cells|
  {
    hide Row, Col, At, Queued, Hulled;
    if cells != [] {
      var n := |cells| - 1;
      HaulIgnoresWater(t, owners, queue, cells[..n], country);
      var before := LandOf(t, cells[..n]);
      if t.land[cells[n]] {
        assert (before + [cells[n]])[..|before|] == before;
      } else {
        assert before + [] == before;
      }
    }
  }

  lemma LastIsLargest(a: seq<nat>)
    requires Strict(a)
    ensures a != [] ==>
      var m := |a| - 1;
      a[m] in a && (forall c :: c in a ==> c <= a[m]) && (forall c :: c in a[..m] <==> c in a && c != a[m])
  {
    if a != [] {
      var m := |a| - 1;
      assert a == a[..m] + [a[m]];
    }
  }

  lemma {:induction false} AscendingIsUnique(a: seq<nat>, b: seq<nat>)
    requires Strict(a) && Strict(b) && forall c :: c in a <==> c in b
    ensures a == b
    decreases |a|
  {
    LastIsLargest(a);
    LastIsLargest(b);
    if a != [] {
      var m, n := |a| - 1, |b| - 1;
      AscendingIsUnique(a[..m], b[..n]);
      assert a == a[..m] + [a[m]] && b == b[..n] + [b[n]];
    }
  }

  /** Two ascending fills with the same land capture alike: a budget that runs out, and
      the pockets of water a local search leaves out, never show in the result. */
  lemma SameLandSameCapture(t: Atlas, s: State, a: seq<nat>, b: seq<nat>, country: nat, mover: Trigger)
    requires t.Valid() && |s.owners| == t.g.Size() && Strict(a) && Strict(b)
    requires (forall k :: 0 <= k < |a| ==> a[k] < |s.owners|) && (forall k :: 0 <= k < |b| ==> b[k] < |s.owners|)
    requires forall c :: 0 <= c < |s.owners| && t.land[c] ==> (c in a <==> c in b)
    ensures Captured(t, s, a, country, mover) == Captured(t, s, b, country, mover)
  {
    hide SettleHaul, TakeAll;
    HaulIgnoresWater(t, s.owners, s.queue, a, country);
    HaulIgnoresWater(t, s.owners, s.queue, b, country);
    LandOfIsAscending(t, a);
    LandOfIsAscending(t, b);
    AscendingIsUnique(LandOf(t, a), LandOf(t, b));
  }

  /** Pockets around the queued starts hold all the enclosed land of a watched country. */
  lemma WatchedPocketsHoldTheLand(t: Atlas, s: State, country: nat)
    requires Inv(t, s) && country in s.countries && country in s.queue && s.queue[country].From?
    ensures
      var starts := s.queue[country].starts;
      forall c :: c in Enclosed(t.g, s.owners, country) && t.land[c] ==>
        exists j :: 0 <= j < |starts| && Reach(t.g.width, Free(s.owners, country), starts[j], c)
  {
    hide Reach, Escapes, Covers, Owned;
    var starts := s.queue[country].starts;
    assert Attended(t, s, country);
    forall c | c in Enclosed(t.g, s.owners, country) && t.land[c]
      ensures exists j :: 0 <= j < |starts| && Reach(t.g.width, Free(s.owners, country), starts[j], c)
    {
      var q :| q in starts && Reach(t.g.width, Free(s.owners, country), q, c);
      var j :| 0 <= j < |starts| && starts[j] == q;
    }
  }
}
