/** The search queues after a bulk capture.

    Everything but the queues is what one claim per cell leaves.  A queue differs for one
    kind of country only: a loser that has no land left but is kept by a live holder.  The
    loop queues its last cell; a claim at count zero does not. */
module CaptureQueues {
  import opened Basics
  import opened Grid
  import opened Enclosure
  import opened Territory
  import opened Claims
  import opened Capture

  function Entry(queue: map<nat, Search>, c: nat): Option<Search> {
    if c in queue then Some(queue[c]) else None
  }

  /** The cell country c loses last. */
  function LastLost(t: Atlas, s: State, cells: seq<nat>, country: nat, c: nat): Option<nat>
    requires t.Valid() && |s.owners| == t.g.Size() && forall k :: 0 <= k < |cells| ==> cells[k] < |s.owners|
    decreases |cells|
  {
    if cells == [] then None
    else
      var n := |cells| - 1;
      var owners := TakeAll(t, s.owners, s.queue, cells[..n], country).owners;
      if c != 0 && Takes(t, owners, cells[n], country) && owners[cells[n]] == c then Some(cells[n])
      else LastLost(t, s, cells[..n], country, c)
  }

  /** Country c has lost its last cell and stays because someone holds it. */
  predicate Stranded(each: State, last: Option<nat>, c: nat) {
    last.Some? && c in each.countries && each.countries[c].count == 0
  }

  /** How the loop's queue relates to that of the claims so far. */
  ghost predicate Matches(s: State, each: State, h: Haul, last: Option<nat>, c: nat) {
    (last.Some? <==> c in h.losers) && (last.Some? ==> c in s.countries) &&
    (last.Some? && c !in each.countries ==> c !in each.queue) &&
    (last.None? || c in each.countries ==>
      Entry(h.queue, c) == Entry(if Stranded(each, last, c) then Queued(each.queue, c, last.value) else each.queue, c))
  }

  /** What losing a cell does to the loser's count and queue. */
  ghost predicate LostOne(s: State, after: State, o: nat, cell: nat)
    requires o in s.countries
  {
    var left := s.countries[o].count - 1;
    if o in after.countries then
      after.countries[o].count == left &&
      Entry(after.queue, o) == Entry(if left != 0 then Queued(s.queue, o, cell) else s.queue, o)
    else left == 0 && o !in after.queue
  }

  /** What one claim for a processed country does to the queue. */
  lemma ClaimQueues(t: Atlas, s: State, cell: nat, country: nat, mover: Trigger, c: nat)
    requires t.Valid() && |s.owners| == t.g.Size() && cell < |s.owners| && Takes(t, s.owners, cell, country)
    requires country in s.queue && s.queue[country].Whole?
    requires s.owners[cell] != 0 ==> s.owners[cell] in s.countries
    ensures
      var o, claimed := s.owners[cell], Claim(t, s, cell, country, true, mover);
      (o == 0 || c != o ==> Entry(claimed.queue, c) == Entry(s.queue, c)) &&
      (c != o && c != country ==>
        (c in claimed.countries <==> c in s.countries) && (c in s.countries ==> claimed.countries[c].count == s.countries[c].count)) &&
      (o != 0 ==> LostOne(s, claimed, o, cell))
  {
    hide Candidates, Queued, StraightExit, Extended, Add, Without, Row, Col, At, Held, Claim;
    var o, b := s.owners[cell], Booked(t, s, cell, country, true, mover);
    ClaimIsBookedThenLost(t, s, cell, country, true, mover);
    ProcessedGain(t, s, cell, country, mover);
    GainedCounts(t, s, cell, country, mover, c);
    if o != 0 {
      QueuedHolds(s.queue, o, cell);
      GainedCounts(t, s, cell, country, mover, o);
      LossQueues(t, b, o, cell, mover, c);
    }
  }

  lemma GainedCounts(t: Atlas, s: State, cell: nat, country: nat, mover: Trigger, c: nat)
    requires t.Valid() && |s.owners| == t.g.Size() && cell < |s.owners|
    requires country in s.queue && s.queue[country].Whole?
    ensures
      var b := Booked(t, s, cell, country, true, mover);
      (c in b.countries <==> c in s.countries) && (c in s.countries && c != country ==> b.countries[c] == s.countries[c])
  {
    hide Candidates, Extended, Add, Row, Col, At, Booked;
    ProcessedGain(t, s, cell, country, mover);
    assert Blank(Booked(t, s, cell, country, true, mover)).countries == GainOnce(t, Blank(s), cell, country, mover).countries;
  }

  lemma LossQueues(t: Atlas, s: State, o: nat, cell: nat, mover: Trigger, c: nat)
    requires |s.owners| == t.g.Size() && cell < |s.owners| && o in s.countries
    ensures
      var l := Loss(t, s, o, cell, true, mover);
      LostOne(s, l, o, cell) &&
      (c != o ==> Entry(l.queue, c) == Entry(s.queue, c)) &&
      (c != o ==> (c in l.countries <==> c in s.countries)) &&
      (c != o && c in s.countries ==> l.countries[c] == s.countries[c])
  {
    hide StraightExit, Add, Without, Held;
  }

  /** A country that still owns a cell to lose is still listed, with land. */
  lemma LoserHasLand(t: Atlas, s: State, h: Haul, cell: nat, country: nat, mover: Trigger)
    requires Books(t, s) && s.cursor <= |s.changed| && |h.owners| == |s.owners| && cell < |h.owners|
    requires Takes(t, h.owners, cell, country) && Tallied(t, s.owners, h, country) && h.owners[cell] != 0
    ensures
      var o, settled := h.owners[cell], SettleHaul(s, h, country, mover);
      o in s.countries && o in settled.countries && settled.countries[o].count != 0
  {
    hide Owned, Covers, Hoisted;
    var o := h.owners[cell];
    TakesForeign(t, h, cell, country);
    OwnerIsLive(t, s, h, cell, country);
    if h.taken != 0 && h.box.Some? {
      HoistedKeepsPlace(s, h, country, mover);
      SettledFacts(Hoisted(s, h, country, mover), h.losers, h.losses, mover, o);
    }
  }

  /** Cell by cell, the loop's queue matches that of the claims. */
  lemma {:induction false} QueuesMatch(t: Atlas, s: State, cells: seq<nat>, country: nat, mover: Trigger, c: nat)
    requires Books(t, s) && s.cursor <= |s.changed| && country in s.countries
    requires country in s.queue && s.queue[country].Whole?
    requires forall k :: 0 <= k < |cells| ==> cells[k] < |s.owners|
    ensures Matches(s, ClaimEach(t, s, cells, country, mover), TakeAll(t, s.owners, s.queue, cells, country),
                    LastLost(t, s, cells, country, c), c)
    decreases |cells|
  {
    hide Claim, SettleHaul, Tallied, Owned, Covers, TakeOne;
    if cells != [] {
      var n := |cells| - 1;
      QueuesMatch(t, s, cells[..n], country, mover, c);
      PriorAgrees(t, s, cells[..n], country, mover);
      var prior, each := TakeAll(t, s.owners, s.queue, cells[..n], country), ClaimEach(t, s, cells[..n], country, mover);
      if Takes(t, prior.owners, cells[n], country) {
        if prior.owners[cells[n]] != 0 {
          LoserHasLand(t, s, prior, cells[n], country, mover);
        }
        OneMoreMatches(t, s, each, prior, LastLost(t, s, cells[..n], country, c), cells[n], country, mover, c);
      } else {
        ClaimIsNothing(t, each, cells[n], country, true, mover);
        TakesNothing(t, prior, cells[n], country);
      }
    }
  }

  lemma PriorAgrees(t: Atlas, s: State, cells: seq<nat>, country: nat, mover: Trigger)
    requires Books(t, s) && s.cursor <= |s.changed| && country in s.countries
    requires country in s.queue && s.queue[country].Whole?
    requires forall k :: 0 <= k < |cells| ==> cells[k] < |s.owners|
    ensures
      var each, h := ClaimEach(t, s, cells, country, mover), TakeAll(t, s.owners, s.queue, cells, country);
      each.owners == h.owners && each.countries == SettleHaul(s, h, country, mover).countries &&
      Tallied(t, s.owners, h, country) && country !in h.losers && 0 !in h.losers && country in each.queue && each.queue[country].Whole?
  {
    hide SettleHaul, ClaimEach, TakeAll, Owned, Covers;
    var each, h := ClaimEach(t, s, cells, country, mover), TakeAll(t, s.owners, s.queue, cells, country);
    BulkEqualsEachClaim(t, s, cells, country, mover);
    HaulIsTallied(t, s.owners, s.queue, cells, country);
    SettledOwners(t, s, h, country, mover);
    assert Blank(each) == Blank(SettleHaul(s, h, country, mover));
  }

  lemma OneMoreMatches(t: Atlas, s: State, each: State, h: Haul, last: Option<nat>, cell: nat, country: nat, mover: Trigger, c: nat)
    requires t.Valid() && |each.owners| == t.g.Size() && cell < |each.owners| && h.owners == each.owners
    requires Takes(t, h.owners, cell, country) && Matches(s, each, h, last, c) && country !in h.losers && 0 !in h.losers
    requires country in each.queue && each.queue[country].Whole?
    requires h.owners[cell] != 0 ==>
      h.owners[cell] in s.countries && h.owners[cell] in each.countries && each.countries[h.owners[cell]].count != 0
    ensures Matches(s, Claim(t, each, cell, country, true, mover), TakeOne(t, h, cell, country),
                    if c != 0 && h.owners[cell] == c then Some(cell) else last, c)
  {
    hide Claim, Row, Col, At, Stretch, Queued;
    var o := h.owners[cell];
    ClaimQueues(t, each, cell, country, mover, c);
    var claimed := Claim(t, each, cell, country, true, mover);
    if last.Some? {
      QueuedAlike(each.queue, claimed.queue, c, last.value);
    }
    if o != 0 {
      QueuedHolds(h.queue, o, cell);
      QueuedAlike(h.queue, each.queue, o, cell);
      QueuedAlike(each.queue, claimed.queue, o, cell);
    }
  }

  lemma QueuedAlike(p: map<nat, Search>, q: map<nat, Search>, c: nat, cell: nat)
    ensures Entry(p, c) == Entry(q, c) ==> Entry(Queued(p, c, cell), c) == Entry(Queued(q, c, cell), c)
  {
  }

  // ----- settling drops the queues of deleted losers -----

  /** A deleted country's queue goes; every other stays. */
  ghost predicate DropsWith(s: State, after: State, c: nat) {
    if c in s.countries && c !in after.countries then c !in after.queue else Entry(after.queue, c) == Entry(s.queue, c)
  }

  lemma SettleDrops(s: State, o: nat, m: nat, mover: Trigger, c: nat)
    ensures
      var a := SettleLoser(s, o, m, mover);
      DropsWith(s, a, c) && (c !in s.countries ==> c !in a.countries)
  {
    hide Without, Add, Held;
  }

  lemma {:induction false} LosersDrop(s: State, losers: seq<nat>, losses: map<nat, nat>, mover: Trigger, c: nat)
    ensures
      var a := SettleLosers(s, losers, losses, mover);
      DropsWith(s, a, c) && (c !in s.countries ==> c !in a.countries)
    decreases |losers|
  {
    hide SettleLoser;
    if losers != [] {
      var n := |losers| - 1;
      LosersDrop(s, losers[..n], losses, mover, c);
      SettleDrops(SettleLosers(s, losers[..n], losses, mover), losers[n], LossOf(losses, losers[n]), mover, c);
    }
  }

  lemma HaulDrops(s: State, h: Haul, country: nat, mover: Trigger, c: nat)
    requires h.taken == 0 || h.box.None? ==> h.queue == s.queue
    ensures
      var a := SettleHaul(s, h, country, mover);
      if c in s.countries && c !in a.countries then c !in a.queue else Entry(a.queue, c) == Entry(h.queue, c)
  {
    hide Merged, Add;
    if h.taken != 0 && h.box.Some? {
      LosersDrop(Hoisted(s, h, country, mover), h.losers, h.losses, mover, c);
    }
  }

  lemma {:induction false} NothingTakenKeepsQueue(t: Atlas, owners: seq<nat>, queue: map<nat, Search>, cells: seq<nat>, country: nat)
    requires t.Valid() && |owners| == t.g.Size() && forall k :: 0 <= k < |cells| ==> cells[k] < |owners|
    ensures
      var h := TakeAll(t, owners, queue, cells, country);
      h.taken == 0 || h.box.None? ==> h.queue == queue
    decreases |cells|
  {
    hide Row, Col, At, Stretch, Queued;
    if cells != [] {
      NothingTakenKeepsQueue(t, owners, queue, cells[..|cells| - 1], country);
    }
  }

  /** The exact difference: the loop's queue for c is that of the claims, except that a
      country left without land but kept has its last cell queued as well. */
  lemma BulkQueues(t: Atlas, s: State, cells: seq<nat>, country: nat, mover: Trigger, c: nat)
    requires Books(t, s) && s.cursor <= |s.changed| && country in s.countries
    requires country in s.queue && s.queue[country].Whole?
    requires forall k :: 0 <= k < |cells| ==> cells[k] < |s.owners|
    ensures
      var each, bulk := ClaimEach(t, s, cells, country, mover), Captured(t, s, cells, country, mover);
      var last := LastLost(t, s, cells, country, c);
      Entry(bulk.queue, c) == Entry(if Stranded(each, last, c) then Queued(each.queue, c, last.value) else each.queue, c)
  {
    hide SettleHaul, ClaimEach, TakeAll, Tallied, Queued, Owned, Covers, LastLost;
    var h := TakeAll(t, s.owners, s.queue, cells, country);
    PriorAgrees(t, s, cells, country, mover);
    QueuesMatch(t, s, cells, country, mover, c);
    NothingTakenKeepsQueue(t, s.owners, s.queue, cells, country);
    HaulDrops(s, h, country, mover, c);
    OnlyLosersLeave(t, s, cells, country, mover, c);
  }

  lemma OnlyLosersLeave(t: Atlas, s: State, cells: seq<nat>, country: nat, mover: Trigger, c: nat)
    requires Books(t, s) && s.cursor <= |s.changed| && country in s.countries
    requires country in s.queue && s.queue[country].Whole?
    requires forall k :: 0 <= k < |cells| ==> cells[k] < |s.owners|
    ensures
      var h := TakeAll(t, s.owners, s.queue, cells, country);
      c in s.countries && c !in SettleHaul(s, h, country, mover).countries ==> c in h.losers
  {
    hide ClaimEach, TakeAll, Owned, Covers, Hoisted;
    var h := TakeAll(t, s.owners, s.queue, cells, country);
    HaulIsTallied(t, s.owners, s.queue, cells, country);
    if h.taken != 0 && h.box.Some? {
      HoistedKeepsPlace(s, h, country, mover);
      HoistedKeepsClaimant(s, h, country, mover);
      SettledFacts(Hoisted(s, h, country, mover), h.losers, h.losses, mover, c);
    }
  }

  lemma HoistedKeepsClaimant(s: State, h: Haul, country: nat, mover: Trigger)
    requires h.box.Some? && country in s.countries
    ensures country in Hoisted(s, h, country, mover).countries
  {
    hide Merged, Add;
  }

  /** The queues agree at c unless c is stranded and its last cell adds something to them. */
  lemma QueuesAgreeExactly(t: Atlas, s: State, cells: seq<nat>, country: nat, mover: Trigger, c: nat)
    requires Books(t, s) && s.cursor <= |s.changed| && country in s.countries
    requires country in s.queue && s.queue[country].Whole?
    requires forall k :: 0 <= k < |cells| ==> cells[k] < |s.owners|
    ensures
      var each, bulk := ClaimEach(t, s, cells, country, mover), Captured(t, s, cells, country, mover);
      var last := LastLost(t, s, cells, country, c);
      Entry(bulk.queue, c) == Entry(each.queue, c) <==> !Stranded(each, last, c) || Knows(Entry(each.queue, c), last.value)
    ensures
      var each, bulk := ClaimEach(t, s, cells, country, mover), Captured(t, s, cells, country, mover);
      c in each.countries && each.countries[c].count != 0 ==> Entry(bulk.queue, c) == Entry(each.queue, c)
  {
    hide ClaimEach, Captured, LastLost, Owned, Covers;
    BulkQueues(t, s, cells, country, mover, c);
  }

  /** Queueing the cell again would change nothing. */
  predicate Knows(search: Option<Search>, cell: nat) {
    search.Some? && (search.value.Whole? || (cell in search.value.starts && |search.value.starts| != LOCAL_SEARCH_BUDGET))
  }

  // ----- a loser that is held but has lost everything -----

  /** A country somebody plays for outlives its last cell. */
  lemma HeldStays(t: Atlas, s: State, cell: nat, country: nat, mover: Trigger)
    requires t.Valid() && |s.owners| == t.g.Size() && cell < |s.owners| && Takes(t, s.owners, cell, country)
    requires country in s.queue && s.queue[country].Whole?
    requires s.owners[cell] != 0 && s.owners[cell] in s.countries && Held(s, s.owners[cell])
    ensures s.owners[cell] in Claim(t, s, cell, country, true, mover).countries
  {
    hide Claim, Without, Add, Held, Extended, Row, Col, At;
    var o, gained := s.owners[cell], GainOnce(t, Blank(s), cell, country, mover);
    ClaimIsBookkeeping(t, s, cell, country, mover);
    HeldDependsOnPlayers(s, Blank(s), o);
    GainKeepsHolders(t, Blank(s), cell, country, mover, o);
    var charged := Noted(Charge(gained, o, 1, true, mover), o);
    HeldDependsOnPlayers(gained, charged, o);
    assert Blank(Claim(t, s, cell, country, true, mover)).countries == charged.countries;
  }

  /** Taking the last cell of a country that is held and has nothing queued: the loop
      queues that cell, the claim does not. */
  lemma HeldLoserDiffers(t: Atlas, s: State, cell: nat, country: nat, mover: Trigger)
    requires Books(t, s) && s.cursor <= |s.changed| && country in s.countries
    requires country in s.queue && s.queue[country].Whole? && cell < |s.owners| && t.land[cell]
    requires
      var o := s.owners[cell];
      o != 0 && o != country && o in s.countries && s.countries[o].count == 1 && Held(s, o) && o !in s.queue
    ensures
      var each, bulk := ClaimEach(t, s, [cell], country, mover), Captured(t, s, [cell], country, mover);
      s.owners[cell] !in each.queue && s.owners[cell] in bulk.queue
  {
    hide Claim, Captured, TakeAll, Held, Owned, Covers;
    var o := s.owners[cell];
    assert [cell][..0] == [];
    assert ClaimEach(t, s, [cell], country, mover) == Claim(t, s, cell, country, true, mover);
    BlankHaulOwners(t, s, country);
    HeldStays(t, s, cell, country, mover);
    ClaimQueues(t, s, cell, country, mover, o);
    QueuesAgreeExactly(t, s, [cell], country, mover, o);
  }

  lemma BlankHaulOwners(t: Atlas, s: State, country: nat)
    requires t.Valid() && |s.owners| == t.g.Size()
    ensures TakeAll(t, s.owners, s.queue, [], country).owners == s.owners
  {
  }

  /** Such a world: two cells, one each, and somebody plays for country 2. */
  lemma HeldLoserExists()
    ensures
      var t := Atlas(Board(2, 1), [true, true], 1, 1, 2);
      var s := State([2, 1], map[1 := Country(1, 1, true, 0), 2 := Country(2, 1, true, 0)],
                     map["p" := Player(2, true, 0, 0, 0, 0, 0, 0)],
                     map[1 := Bounds(1, 1, 0, 0), 2 := Bounds(0, 0, 0, 0)], [1], 0, map[1 := Whole], map[],
                     {}, {}, {}, {}, {}, {}, map[]);
      Books(t, s) && Blank(ClaimEach(t, s, [0], 1, None)) == Blank(Captured(t, s, [0], 1, None)) &&
      ClaimEach(t, s, [0], 1, None) != Captured(t, s, [0], 1, None)
  {
    var t := Atlas(Board(2, 1), [true, true], 1, 1, 2);
    var s := State([2, 1], map[1 := Country(1, 1, true, 0), 2 := Country(2, 1, true, 0)],
                   map["p" := Player(2, true, 0, 0, 0, 0, 0, 0)],
                   map[1 := Bounds(1, 1, 0, 0), 2 := Bounds(0, 0, 0, 0)], [1], 0, map[1 := Whole], map[],
                   {}, {}, {}, {}, {}, {}, map[]);
    assert Owned(s.owners, 1) == {1} && Owned(s.owners, 2) == {0};
    assert Col(2, 0) == 0 && Col(2, 1) == 1 && Row(2, 0) == 0 && Row(2, 1) == 0;
    assert s.players["p"].country == 2;
    hide ClaimEach, Captured, Owned, Covers;
    BulkEqualsEachClaim(t, s, [0], 1, None);
    HeldLoserDiffers(t, s, 0, 1, None);
  }
}
