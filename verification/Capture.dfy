/** The bulk capture of an enclosure fill.

    The loop takes a whole region at once and hoists the bookkeeping out of it.
    BulkEqualsEachClaim says that, but for the search queues, this is exactly one claim per
    cell, in ascending order. */
module Capture {
  import opened Basics
  import opened Grid
  import opened Enclosure
  import opened Territory
  import opened Claims

  /** What the loop over the cells has gathered. */
  datatype Haul = Haul(owners: seq<nat>, queue: map<nat, Search>, taken: nat, losers: seq<nat>, losses: map<nat, nat>,
                       chunks: set<int>, box: Option<Bounds>)

  predicate Takes(t: Atlas, owners: seq<nat>, cell: nat, country: nat)
    requires cell < |owners| == |t.land|
  {
    t.land[cell] && owners[cell] != country
  }

  function LossOf(losses: map<nat, nat>, owner: nat): nat {
    if owner in losses then losses[owner] else 0
  }

  function Hulled(box: Option<Bounds>, x: nat, y: nat): Bounds {
    if box.None? then Bounds(x, x, y, y) else Stretch(box.value, x, y)
  }

  function TakeOne(t: Atlas, h: Haul, cell: nat, country: nat): Haul
    requires t.Valid() && |h.owners| == t.g.Size() && cell < |h.owners|
  {
    var owner := h.owners[cell];
    if !Takes(t, h.owners, cell, country) then h
    else
      var x, y := Col(t.g.width, cell), Row(t.g.width, cell);
      var moved := h.(owners := h.owners[cell := country], taken := h.taken + 1,
                      chunks := h.chunks + {t.ChunkOf(cell)}, box := Some(Hulled(h.box, x, y)));
      if owner == 0 then moved
      else moved.(queue := Queued(h.queue, owner, cell), losers := Add(h.losers, owner),
                  losses := h.losses[owner := LossOf(h.losses, owner) + 1])
  }

  function TakeAll(t: Atlas, owners: seq<nat>, queue: map<nat, Search>, cells: seq<nat>, country: nat): (h: Haul)
    requires t.Valid() && |owners| == t.g.Size() && forall k :: 0 <= k < |cells| ==> cells[k] < |owners|
    ensures |h.owners| == |owners|
    decreases |cells|
  {
    if cells == [] then Haul(owners, queue, 0, [], map[], {}, None)
    else
      var n := |cells| - 1;
      TakeOne(t, TakeAll(t, owners, queue, cells[..n], country), cells[n], country)
  }

  // ----- settling -----

  function Merged(bounds: map<nat, Bounds>, country: nat, box: Bounds): map<nat, Bounds> {
    if country !in bounds then bounds[country := box]
    else
      var own := bounds[country];
      bounds[country := Bounds(Min(own.left, box.left), Max(own.right, box.right), Min(own.top, box.top), Max(own.bottom, box.bottom))]
  }

  /** The claimant's side, booked once for the whole haul. */
  function Hoisted(s: State, h: Haul, country: nat, mover: Trigger): State
    requires h.box.Some?
  {
    Gain(s.(owners := h.owners, queue := h.queue, dirtyChunks := s.dirtyChunks + h.chunks,
            bounds := Merged(s.bounds, country, h.box.value), changed := Add(s.changed, country),
            dirtyCountries := s.dirtyCountries + {country}), country, h.taken, true, mover)
  }

  /** One loser, charged with all its lost cells at once. */
  function SettleLoser(s: State, owner: nat, count: nat, mover: Trigger): State {
    Deleted(Noted(Charge(s, owner, count, true, mover), owner), owner)
  }

  function SettleLosers(s: State, losers: seq<nat>, losses: map<nat, nat>, mover: Trigger): State
    decreases |losers|
  {
    if losers == [] then s
    else
      var n := |losers| - 1;
      SettleLoser(SettleLosers(s, losers[..n], losses, mover), losers[n], LossOf(losses, losers[n]), mover)
  }

  function SettleHaul(s: State, h: Haul, country: nat, mover: Trigger): State {
    if h.taken == 0 || h.box.None? then s
    else SettleLosers(Hoisted(s, h, country, mover), h.losers, h.losses, mover)
  }

  /** A bulk capture for a country the pass has already marked as processed. */
  function Captured(t: Atlas, s: State, cells: seq<nat>, country: nat, mover: Trigger): State
    requires t.Valid() && |s.owners| == t.g.Size() && forall k :: 0 <= k < |cells| ==> cells[k] < |s.owners|
  {
    SettleHaul(s, TakeAll(t, s.owners, s.queue, cells, country), country, mover)
  }

  /** The same region, one claim per cell. */
  ghost function ClaimEach(t: Atlas, s: State, cells: seq<nat>, country: nat, mover: Trigger): (r: State)
    requires t.Valid() && |s.owners| == t.g.Size() && forall k :: 0 <= k < |cells| ==> cells[k] < |s.owners|
    ensures |r.owners| == |s.owners|
    decreases |cells|
  {
    if cells == [] then s
    else
      var n := |cells| - 1;
      ClaimKeepsSize(t, ClaimEach(t, s, cells[..n], country, mover), cells[n], country, true, mover);
      Claim(t, ClaimEach(t, s, cells[..n], country, mover), cells[n], country, true, mover)
  }

  lemma LossKeepsOwners(t: Atlas, s: State, owner: nat, cell: nat, fromFill: bool, mover: Trigger)
    requires |s.owners| == t.g.Size() && cell < |s.owners|
    ensures Loss(t, s, owner, cell, fromFill, mover).owners == s.owners
  {
    hide StraightExit, Queued, Add, Without;
  }

  lemma BookedOwners(t: Atlas, s: State, cell: nat, country: nat, fromFill: bool, mover: Trigger)
    requires t.Valid() && |s.owners| == t.g.Size() && cell < |s.owners|
    ensures Booked(t, s, cell, country, fromFill, mover).owners == s.owners[cell := country]
  {
    hide Candidates, Extended, Add;
    var moved := s.(owners := s.owners[cell := country], bounds := Extended(t.g, s.bounds, country, cell),
                    changed := Add(s.changed, country));
    CandidatesFields(t, moved, cell, country, mover);
  }

  lemma ClaimKeepsSize(t: Atlas, s: State, cell: nat, country: nat, fromFill: bool, mover: Trigger)
    requires t.Valid() && |s.owners| == t.g.Size() && cell < |s.owners|
    ensures |Claim(t, s, cell, country, fromFill, mover).owners| == |s.owners|
  {
    hide Claim, Booked, Loss;
    if t.land[cell] && s.owners[cell] != country {
      ClaimIsBookedThenLost(t, s, cell, country, fromFill, mover);
      BookedOwners(t, s, cell, country, fromFill, mover);
      if s.owners[cell] != 0 {
        LossKeepsOwners(t, Booked(t, s, cell, country, fromFill, mover), s.owners[cell], cell, fromFill, mover);
      }
    } else {
      ClaimIsNothing(t, s, cell, country, fromFill, mover);
    }
  }

  // ----- one claim per cell -----

  /** Everything but the search queue. */
  function Blank(s: State): State {
    s.(queue := map[])
  }

  /** The claimant's side of one claim, with nothing queued. */
  function GainOnce(t: Atlas, s: State, cell: nat, country: nat, mover: Trigger): State
    requires cell < |s.owners|
  {
    Gain(s.(owners := s.owners[cell := country], bounds := Extended(t.g, s.bounds, country, cell),
            changed := Add(s.changed, country), dirtyChunks := s.dirtyChunks + {t.ChunkOf(cell)},
            dirtyCountries := s.dirtyCountries + {country}), country, 1, true, mover)
  }

  /** For a processed country, a claim is a gain followed by the loser's settlement. */
  lemma ClaimIsBookkeeping(t: Atlas, s: State, cell: nat, country: nat, mover: Trigger)
    requires t.Valid() && |s.owners| == t.g.Size() && cell < |s.owners| && Takes(t, s.owners, cell, country)
    requires country in s.queue && s.queue[country].Whole?
    ensures
      var owner := s.owners[cell];
      var gained := GainOnce(t, Blank(s), cell, country, mover);
      var claimed := Claim(t, s, cell, country, true, mover);
      Blank(claimed) == (if owner == 0 then gained else SettleLoser(gained, owner, 1, mover)) &&
      country in claimed.queue && claimed.queue[country].Whole?
  {
    hide Gate, RingCells, QueuedAll, StraightExit, Extended, Add, Without, Row, Col, At, Held;
    ClaimIsBookedThenLost(t, s, cell, country, true, mover);
    ProcessedGain(t, s, cell, country, mover);
    if s.owners[cell] != 0 {
      BlankLoss(t, Booked(t, s, cell, country, true, mover), s.owners[cell], cell, country, mover);
    }
  }

  lemma ProcessedGain(t: Atlas, s: State, cell: nat, country: nat, mover: Trigger)
    requires t.Valid() && |s.owners| == t.g.Size() && cell < |s.owners|
    requires country in s.queue && s.queue[country].Whole?
    ensures
      var b := Booked(t, s, cell, country, true, mover);
      b.queue == s.queue && Blank(b) == GainOnce(t, Blank(s), cell, country, mover) && |b.owners| == |s.owners|
  {
    hide Candidates, Extended, Add, Row, Col, At, Gain;
    var moved := s.(owners := s.owners[cell := country], bounds := Extended(t.g, s.bounds, country, cell),
                    changed := Add(s.changed, country));
    ProcessedCandidates(t, moved, cell, country, mover);
    GainIgnoresQueue(moved.(dirtyChunks := s.dirtyChunks + {t.ChunkOf(cell)}, dirtyCountries := s.dirtyCountries + {country}),
                     country, 1, true, mover);
  }

  lemma ProcessedCandidates(t: Atlas, s: State, cell: nat, country: nat, mover: Trigger)
    requires |s.owners| == t.g.Size() && cell < |s.owners| && country in s.queue && s.queue[country].Whole?
    ensures Candidates(t, s, cell, country, mover) == s
  {
  }

  lemma GainIgnoresQueue(s: State, country: nat, n: nat, fromFill: bool, mover: Trigger)
    ensures Gain(s, country, n, fromFill, mover).queue == s.queue && Gain(s, country, n, fromFill, mover).owners == s.owners
    ensures Blank(Gain(s, country, n, fromFill, mover)) == Gain(Blank(s), country, n, fromFill, mover)
  {
  }

  lemma BlankLoss(t: Atlas, s: State, owner: nat, cell: nat, country: nat, mover: Trigger)
    requires |s.owners| == t.g.Size() && cell < |s.owners| && owner != country
    requires country in s.queue && s.queue[country].Whole?
    ensures
      var l := Loss(t, s, owner, cell, true, mover);
      Blank(l) == SettleLoser(Blank(s), owner, 1, mover) && country in l.queue && l.queue[country].Whole?
  {
    hide StraightExit, Add, Without;
    QueuedHolds(s.queue, owner, cell);
    if owner in s.countries {
      LossIsListedThenDeleted(t, s, owner, cell, true, mover);
    }
  }

  // ----- settling commutes -----

  lemma {:induction false} WithoutCommutes(s: seq<nat>, x: nat, y: nat)
    ensures Without(Without(s, x), y) == Without(Without(s, y), x)
  {
    if s != [] {
      WithoutCommutes(s[1..], x, y);
      WithoutSplits([s[0]], s[1..], x);
      WithoutSplits([s[0]], s[1..], y);
      assert s == [s[0]] + s[1..];
      WithoutSplits(Without([s[0]], x), Without(s[1..], x), y);
      WithoutSplits(Without([s[0]], y), Without(s[1..], y), x);
    }
  }

  lemma AddWithout(s: seq<nat>, x: nat, y: nat)
    requires x != y
    ensures Without(Add(s, x), y) == Add(Without(s, y), x)
  {
    WithoutIs(s, y);
    WithoutSplits(s, [x], y);
  }

  lemma CountsAndDebitsCommute(countries: map<nat, Country>, country: nat, owner: nat, count: nat, booked: bool)
    requires owner != country
    ensures Debited(Counted(countries, country, 1), owner, count, booked) == Counted(Debited(countries, owner, count, booked), country, 1)
    ensures Counted(countries, country, 1).Keys == Debited(countries, owner, count, booked).Keys == countries.Keys
    ensures owner in countries ==> Counted(countries, country, 1)[owner] == countries[owner]
    ensures country in countries ==> Debited(countries, owner, count, booked)[country] == countries[country]
  {
  }

  lemma GainCommutesWithCharge(t: Atlas, s: State, cell: nat, country: nat, owner: nat, count: nat, mover: Trigger)
    requires cell < |s.owners| && owner != country
    ensures Charge(s, owner, count, true, mover).owners == s.owners
    ensures Charge(GainOnce(t, s, cell, country, mover), owner, count, true, mover) ==
      GainOnce(t, Charge(s, owner, count, true, mover), cell, country, mover)
  {
    hide Extended, Add, At, Row, Col, Counted, Debited;
    CountsAndDebitsCommute(s.countries, country, owner, count, mover.Some?);
  }

  lemma GainCommutesWithNote(t: Atlas, s: State, cell: nat, country: nat, owner: nat, mover: Trigger)
    requires cell < |s.owners| && owner != country && country in s.changed
    ensures Noted(GainOnce(t, s, cell, country, mover), owner) == GainOnce(t, Noted(s, owner), cell, country, mover)
  {
    hide Extended, At, Row, Col;
  }

  lemma GainKeepsHolders(t: Atlas, s: State, cell: nat, country: nat, mover: Trigger, owner: nat)
    requires cell < |s.owners|
    ensures Held(GainOnce(t, s, cell, country, mover), owner) <==> Held(s, owner)
  {
    hide Extended, At, Row, Col, Add;
    var a := GainOnce(t, s, cell, country, mover);
    assert forall id :: id in s.players <==> id in a.players;
    assert forall id :: id in s.players ==> a.players[id].country == s.players[id].country;
  }

  lemma UpdatesAvoid(g: Board, s: State, cell: nat, country: nat, owner: nat)
    requires owner != country
    ensures Counted(s.countries, country, 1) - {owner} == Counted(s.countries - {owner}, country, 1)
    ensures owner in Counted(s.countries, country, 1) <==> owner in s.countries
    ensures owner in s.countries ==> Counted(s.countries, country, 1)[owner] == s.countries[owner]
    ensures country in s.countries - {owner} <==> country in s.countries
    ensures Extended(g, s.bounds, country, cell) - {owner} == Extended(g, s.bounds - {owner}, country, cell)
  {
    hide Row, Col;
  }

  lemma GainCommutesWithDeletion(t: Atlas, s: State, cell: nat, country: nat, owner: nat, mover: Trigger)
    requires cell < |s.owners| && owner != country && country in s.changed
    ensures Deleted(s, owner).owners == s.owners
    ensures Deleted(GainOnce(t, s, cell, country, mover), owner) == GainOnce(t, Deleted(s, owner), cell, country, mover)
  {
    hide At, Row, Col, Held, Without, Extended, Counted;
    GainKeepsHolders(t, s, cell, country, mover, owner);
    WithoutIs(s.changed, owner);
    UpdatesAvoid(t.g, s, cell, country, owner);
    if owner in s.countries && s.countries[owner].count == 0 && !Held(s, owner) {
      assert Add(Without(s.changed, owner), country) == Without(s.changed, owner);
      assert s.dirtyCountries + {country} - {owner} == s.dirtyCountries - {owner} + {country};
    }
  }

  /** The claimant gains, whoever has lost in between. */
  lemma GainCommutes(t: Atlas, s: State, cell: nat, country: nat, owner: nat, count: nat, mover: Trigger)
    requires cell < |s.owners| && owner != country && country in s.changed
    ensures SettleLoser(s, owner, count, mover).owners == s.owners
    ensures SettleLoser(GainOnce(t, s, cell, country, mover), owner, count, mover) ==
      GainOnce(t, SettleLoser(s, owner, count, mover), cell, country, mover)
  {
    hide Charge, GainOnce, Deleted;
    var charged := Charge(s, owner, count, true, mover);
    GainCommutesWithCharge(t, s, cell, country, owner, count, mover);
    ChargeKeepsChanged(s, owner, count, mover);
    GainCommutesWithNote(t, charged, cell, country, owner, mover);
    GainCommutesWithDeletion(t, Noted(charged, owner), cell, country, owner, mover);
  }

  lemma ChargeKeepsChanged(s: State, owner: nat, count: nat, mover: Trigger)
    ensures Charge(s, owner, count, true, mover).changed == s.changed
    ensures Charge(s, owner, count, true, mover).cursor == s.cursor
  {
  }

  lemma ChargesCommute(s: State, o: nat, m: nat, p: nat, n: nat, mover: Trigger)
    requires o != p
    ensures Charge(Charge(s, o, m, true, mover), p, n, true, mover) == Charge(Charge(s, p, n, true, mover), o, m, true, mover)
  {
  }

  lemma ChargeThenNote(s: State, o: nat, m: nat, p: nat, mover: Trigger)
    ensures Charge(Noted(s, p), o, m, true, mover) == Noted(Charge(s, o, m, true, mover), p)
  {
    hide Add;
  }

  lemma ChargeThenDelete(s: State, o: nat, m: nat, p: nat, mover: Trigger)
    requires o != p
    ensures Charge(Deleted(s, p), o, m, true, mover) == Deleted(Charge(s, o, m, true, mover), p)
  {
    hide Without, Debited, Held;
    DebitAvoids(s, o, m, p, mover);
  }

  lemma DebitAvoids(s: State, o: nat, m: nat, p: nat, mover: Trigger)
    requires o != p
    ensures Debited(s.countries, o, m, mover.Some?) - {p} == Debited(s.countries - {p}, o, m, mover.Some?)
    ensures p in Debited(s.countries, o, m, mover.Some?) <==> p in s.countries
    ensures p in s.countries ==> Debited(s.countries, o, m, mover.Some?)[p] == s.countries[p]
    ensures Held(Charge(s, o, m, true, mover), p) <==> Held(s, p)
  {
  }

  lemma NotesCommute(s: State, o: nat, p: nat)
    requires o in s.changed
    ensures Noted(Noted(s, p), o) == Noted(Noted(s, o), p)
  {
  }

  lemma NoteThenDelete(s: State, o: nat, p: nat)
    requires o != p && s.cursor <= |s.changed|
    ensures Noted(Deleted(s, p), o) == Deleted(Noted(s, o), p)
  {
    hide Without, Held;
    AddWithout(s.changed, o, p);
    AddKeeps(s.changed, o, s.cursor);
    assert Held(Noted(s, o), p) <==> Held(s, p) by { HeldDependsOnPlayers(Noted(s, o), s, p); }
    assert s.dirtyCountries + {o} - {p} == s.dirtyCountries - {p} + {o};
  }

  lemma HeldDependsOnPlayers(a: State, b: State, p: nat)
    requires a.players == b.players
    ensures Held(a, p) <==> Held(b, p)
  {
  }

  lemma DeletionsCommute(s: State, o: nat, p: nat)
    requires o != p && s.cursor <= |s.changed|
    ensures Deleted(Deleted(s, p), o) == Deleted(Deleted(s, o), p)
  {
    hide Without;
    DeletionSparesOthers(s, o, p);
    DeletionSparesOthers(s, p, o);
    if Gone(s, o) && Gone(s, p) {
      BothDeleted(s, o, p);
    }
  }

  lemma DeletionSparesOthers(s: State, o: nat, p: nat)
    requires o != p
    ensures Gone(Deleted(s, p), o) <==> Gone(s, o)
  {
    hide Without;
  }

  lemma BothDeleted(s: State, o: nat, p: nat)
    requires o != p && s.cursor <= |s.changed| && Gone(s, o) && Gone(s, p)
    requires Gone(Deleted(s, p), o) && Gone(Deleted(s, o), p)
    ensures Deleted(Deleted(s, p), o) == Deleted(Deleted(s, o), p)
  {
    hide Without, Gone;
    CursorsCommute(s.changed, s.cursor, o, p);
    assert s.countries - {p} - {o} == s.countries - {o} - {p};
    assert s.bounds - {p} - {o} == s.bounds - {o} - {p};
    assert s.queue - {p} - {o} == s.queue - {o} - {p};
    assert s.ownerCodes - {p} - {o} == s.ownerCodes - {o} - {p};
    assert s.dirtyCountries - {p} - {o} == s.dirtyCountries - {o} - {p};
    assert s.removedCountries + {p} + {o} == s.removedCountries + {o} + {p};
  }

  lemma CursorsCommute(changed: seq<nat>, cursor: nat, o: nat, p: nat)
    requires cursor <= |changed|
    ensures Without(Without(changed, p), o) == Without(Without(changed, o), p)
    ensures |Without(changed[..cursor], o)| <= |Without(changed, o)| && |Without(changed[..cursor], p)| <= |Without(changed, p)|
    ensures |Without(Without(changed, p)[..|Without(changed[..cursor], p)|], o)| ==
            |Without(Without(changed, o)[..|Without(changed[..cursor], o)|], p)|
  {
    var before, after := changed[..cursor], changed[cursor..];
    assert changed == before + after;
    WithoutSplits(before, after, o);
    WithoutSplits(before, after, p);
    WithoutCommutes(before, o, p);
    WithoutCommutes(changed, o, p);
    assert Without(changed, o)[..|Without(before, o)|] == Without(before, o);
    assert Without(changed, p)[..|Without(before, p)|] == Without(before, p);
  }

  lemma SettleKeepsCursor(s: State, o: nat, m: nat, mover: Trigger)
    requires s.cursor <= |s.changed|
    ensures SettleLoser(s, o, m, mover).cursor <= |SettleLoser(s, o, m, mover).changed|
  {
    hide Without, Held, Debited;
    AddKeeps(s.changed, o, s.cursor);
    DeletedKeepsPlace(Noted(Charge(s, o, m, true, mover), o), o);
  }

  /** Losses of different countries settle in either order, once the later one is listed. */
  lemma SettlementsCommute(s: State, o: nat, m: nat, p: nat, n: nat, mover: Trigger)
    requires o != p && o in s.changed && s.cursor <= |s.changed|
    ensures SettleLoser(SettleLoser(s, p, n, mover), o, m, mover) == SettleLoser(SettleLoser(s, o, m, mover), p, n, mover)
  {
    hide Charge, Noted, Deleted;
    var cp, co := Charge(s, p, n, true, mover), Charge(s, o, m, true, mover);
    var both := Charge(cp, o, m, true, mover);
    ChargesCommute(s, o, m, p, n, mover);
    ChargeKeepsChanged(s, p, n, mover);
    ChargeKeepsChanged(s, o, m, mover);
    ChargeKeepsChanged(cp, o, m, mover);
    NotedPlaces(cp, p);
    NotedPlaces(co, o);
    NotedPlaces(both, p);
    NotedPlaces(both, o);
    // o after p
    ChargeThenDelete(Noted(cp, p), o, m, p, mover);
    ChargeThenNote(cp, o, m, p, mover);
    NoteThenDelete(Noted(both, p), o, p);
    // p after o
    ChargeThenDelete(Noted(co, o), p, n, o, mover);
    ChargeThenNote(co, p, n, o, mover);
    NoteThenDelete(Noted(both, o), p, o);
    NotesCommute(both, o, p);
    NotedPlaces(Noted(both, p), o);
    DeletionsCommute(Noted(Noted(both, p), o), o, p);
  }

  lemma NotedPlaces(s: State, o: nat)
    requires s.cursor <= |s.changed|
    ensures Noted(s, o).cursor == s.cursor <= |Noted(s, o).changed| && forall y :: y in s.changed ==> y in Noted(s, o).changed
  {
  }

  /** Two instalments by one country are one, as long as it keeps some land. */
  lemma InstalmentsMerge(s: State, o: nat, m: nat, n: nat, mover: Trigger)
    requires o in s.countries && s.countries[o].count - m != 0
    ensures SettleLoser(SettleLoser(s, o, m, mover), o, n, mover) == SettleLoser(s, o, m + n, mover)
  {
    hide Deleted, Add;
    var first := Noted(Charge(s, o, m, true, mover), o);
    NotDeleted(first, o);
    ChargeThenNote(Charge(s, o, m, true, mover), o, n, o, mover);
    NoteTwice(Charge(Charge(s, o, m, true, mover), o, n, true, mover), o);
    ChargesAdd(s, o, m, n, mover);
  }

  lemma ChargesAdd(s: State, o: nat, m: nat, n: nat, mover: Trigger)
    requires o in s.countries
    ensures Charge(Charge(s, o, m, true, mover), o, n, true, mover) == Charge(s, o, m + n, true, mover)
  {
    assert Debited(Debited(s.countries, o, m, mover.Some?), o, n, mover.Some?) == Debited(s.countries, o, m + n, mover.Some?);
  }

  lemma NotDeleted(s: State, o: nat)
    requires o in s.countries ==> s.countries[o].count != 0
    ensures Deleted(s, o) == s
  {
  }

  lemma NoteTwice(s: State, o: nat)
    ensures Noted(Noted(s, o), o) == Noted(s, o)
  {
  }

  // ----- a whole list of losers -----

  lemma SettleKeepsRest(s: State, o: nat, m: nat, mover: Trigger)
    requires s.cursor <= |s.changed|
    ensures
      var a := SettleLoser(s, o, m, mover);
      a.owners == s.owners && a.cursor <= |a.changed| &&
      (forall y :: y != o && y in s.changed ==> y in a.changed) &&
      (forall c :: c != o ==> (c in s.countries <==> c in a.countries) && (c in s.countries ==> a.countries[c] == s.countries[c])) &&
      (o in s.countries && s.countries[o].count - m != 0 ==>
        o in a.changed && o in a.countries && a.countries[o].count == s.countries[o].count - m)
  {
    hide Without, Held;
    SettleKeepsCursor(s, o, m, mover);
    WithoutIs(Add(s.changed, o), o);
  }

  lemma {:induction false} SettledFacts(s: State, losers: seq<nat>, losses: map<nat, nat>, mover: Trigger, o: nat)
    requires s.cursor <= |s.changed|
    requires forall i, j :: 0 <= i < j < |losers| ==> losers[i] != losers[j]
    ensures
      var a := SettleLosers(s, losers, losses, mover);
      a.owners == s.owners && a.cursor <= |a.changed| &&
      (o !in losers ==>
        (o in s.changed ==> o in a.changed) &&
        (o in s.countries <==> o in a.countries) && (o in s.countries ==> a.countries[o] == s.countries[o])) &&
      (o in losers && o in s.countries && s.countries[o].count - LossOf(losses, o) != 0 ==>
        o in a.changed && o in a.countries && a.countries[o].count == s.countries[o].count - LossOf(losses, o))
    decreases |losers|
  {
    hide SettleLoser;
    if losers != [] {
      var n := |losers| - 1;
      SettledFacts(s, losers[..n], losses, mover, o);
      var x := SettleLosers(s, losers[..n], losses, mover);
      SettleKeepsRest(x, losers[n], LossOf(losses, losers[n]), mover);
      assert o in losers <==> o in losers[..n] || o == losers[n];
      assert o == losers[n] ==> o !in losers[..n];
    }
  }

  lemma {:induction false} GainBeforeLosers(t: Atlas, s: State, cell: nat, country: nat, losers: seq<nat>, losses: map<nat, nat>, mover: Trigger)
    requires cell < |s.owners| && country !in losers && country in s.changed && s.cursor <= |s.changed|
    requires forall i, j :: 0 <= i < j < |losers| ==> losers[i] != losers[j]
    ensures SettleLosers(s, losers, losses, mover).owners == s.owners
    ensures SettleLosers(GainOnce(t, s, cell, country, mover), losers, losses, mover) ==
      GainOnce(t, SettleLosers(s, losers, losses, mover), cell, country, mover)
    decreases |losers|
  {
    hide SettleLoser, GainOnce;
    if losers != [] {
      var n := |losers| - 1;
      GainBeforeLosers(t, s, cell, country, losers[..n], losses, mover);
      SettledFacts(s, losers[..n], losses, mover, country);
      GainCommutes(t, SettleLosers(s, losers[..n], losses, mover), cell, country, losers[n], LossOf(losses, losers[n]), mover);
    }
  }

  lemma {:induction false} OnlyListedLossesMatter(s: State, losers: seq<nat>, losses: map<nat, nat>, more: map<nat, nat>, mover: Trigger)
    requires forall o :: o in losers ==> LossOf(losses, o) == LossOf(more, o)
    ensures SettleLosers(s, losers, losses, mover) == SettleLosers(s, losers, more, mover)
    decreases |losers|
  {
    hide SettleLoser;
    if losers != [] {
      assert losers[|losers| - 1] in losers;
      OnlyListedLossesMatter(s, losers[..|losers| - 1], losses, more, mover);
    }
  }

  /** One more cell lost by a listed country. */
  lemma {:induction false} OneMoreLoss(s: State, losers: seq<nat>, losses: map<nat, nat>, o: nat, mover: Trigger)
    requires s.cursor <= |s.changed| && o in losers && o in s.countries
    requires forall i, j :: 0 <= i < j < |losers| ==> losers[i] != losers[j]
    requires s.countries[o].count - LossOf(losses, o) != 0
    ensures SettleLosers(s, losers, losses[o := LossOf(losses, o) + 1], mover) ==
      SettleLoser(SettleLosers(s, losers, losses, mover), o, 1, mover)
    decreases |losers|
  {
    hide SettleLoser;
    var n := |losers| - 1;
    var last, rest, more := losers[n], losers[..n], losses[o := LossOf(losses, o) + 1];
    var x := SettleLosers(s, rest, losses, mover);
    SettledFacts(s, rest, losses, mover, o);
    if last == o {
      assert o !in rest;
      OnlyListedLossesMatter(s, rest, losses, more, mover);
      InstalmentsMerge(x, o, LossOf(losses, o), 1, mover);
    } else {
      assert o in rest;
      OneMoreLoss(s, rest, losses, o, mover);
      SettlementsCommute(x, o, 1, last, LossOf(losses, last), mover);
    }
  }

  // ----- the haul counts what it takes -----

  ghost predicate Tallied(t: Atlas, owners: seq<nat>, h: Haul, country: nat)
    requires |h.owners| == |owners|
  {
    (forall i, j :: 0 <= i < j < |h.losers| ==> h.losers[i] != h.losers[j]) &&
    (forall o :: o in h.losers <==> o in h.losses) && (forall o :: o in h.losses ==> h.losses[o] > 0) && country !in h.losers && 0 !in h.losers &&
    (forall o :: o != country && o != 0 ==> |Owned(owners, o)| == |Owned(h.owners, o)| + LossOf(h.losses, o)) &&
    |Owned(h.owners, country)| == |Owned(owners, country)| + h.taken &&
    (h.taken > 0 <==> h.box.Some?) && (h.taken == 0 ==> h.losers == [] && h.chunks == {} && h.losses == map[] && h.owners == owners)
  }

  lemma {:induction false} HaulIsTallied(t: Atlas, owners: seq<nat>, queue: map<nat, Search>, cells: seq<nat>, country: nat)
    requires t.Valid() && |owners| == t.g.Size() && forall k :: 0 <= k < |cells| ==> cells[k] < |owners|
    ensures Tallied(t, owners, TakeAll(t, owners, queue, cells, country), country)
    decreases |cells|
  {
    if cells != [] {
      var n := |cells| - 1;
      HaulIsTallied(t, owners, queue, cells[..n], country);
      TakeKeepsTally(t, owners, TakeAll(t, owners, queue, cells[..n], country), cells[n], country);
    }
  }

  lemma TakeKeepsTally(t: Atlas, owners: seq<nat>, h: Haul, cell: nat, country: nat)
    requires t.Valid() && |owners| == |h.owners| == t.g.Size() && cell < |owners| && Tallied(t, owners, h, country)
    ensures Tallied(t, owners, TakeOne(t, h, cell, country), country)
  {
    hide Row, Col, At, Queued;
    if Takes(t, h.owners, cell, country) {
      OwnedMoves(h.owners, cell, country);
      forall o | o != country && o != h.owners[cell]
        ensures Owned(h.owners[cell := country], o) == Owned(h.owners, o)
      {
        BystanderUnmoved(t.g, h.owners, cell, country, o);
      }
    }
  }

  // ----- the bulk capture is one claim per cell -----

  function Unqueued(h: Haul): Haul {
    h.(queue := map[])
  }

  lemma BlankLoser(s: State, o: nat, m: nat, mover: Trigger)
    ensures Blank(SettleLoser(s, o, m, mover)) == SettleLoser(Blank(s), o, m, mover)
  {
    hide Without, Held, Add, Debited;
    var listed := Noted(Charge(s, o, m, true, mover), o);
    HeldDependsOnPlayers(listed, Blank(listed), o);
    var none: map<nat, Search> := map[];
    assert none - {o} == none;
  }

  lemma {:induction false} BlankLosers(s: State, losers: seq<nat>, losses: map<nat, nat>, mover: Trigger)
    ensures Blank(SettleLosers(s, losers, losses, mover)) == SettleLosers(Blank(s), losers, losses, mover)
    decreases |losers|
  {
    hide SettleLoser;
    if losers != [] {
      var n := |losers| - 1;
      BlankLosers(s, losers[..n], losses, mover);
      BlankLoser(SettleLosers(s, losers[..n], losses, mover), losers[n], LossOf(losses, losers[n]), mover);
    }
  }

  lemma BlankHaul(s: State, h: Haul, country: nat, mover: Trigger)
    ensures Blank(SettleHaul(s, h, country, mover)) == SettleHaul(Blank(s), Unqueued(h), country, mover)
  {
    if h.taken != 0 && h.box.Some? {
      BlankHoisted(s, h, country, mover);
      BlankLosers(Hoisted(s, h, country, mover), h.losers, h.losses, mover);
    }
  }

  lemma BlankHoisted(s: State, h: Haul, country: nat, mover: Trigger)
    requires h.box.Some?
    ensures Blank(Hoisted(s, h, country, mover)) == Hoisted(Blank(s), Unqueued(h), country, mover)
  {
    hide Add, Merged, Counted;
  }

  /** Adding one cell's gain to the hoisted sums. */
  function Grown(t: Atlas, h: Haul, cell: nat, country: nat): Haul
    requires cell < |h.owners|
  {
    h.(owners := h.owners[cell := country], taken := h.taken + 1, chunks := h.chunks + {t.ChunkOf(cell)},
       box := Some(Hulled(h.box, Col(t.g.width, cell), Row(t.g.width, cell))))
  }

  lemma HoistedGrows(t: Atlas, s: State, h: Haul, cell: nat, country: nat, mover: Trigger)
    requires cell < |h.owners| && |h.owners| == |s.owners| && country in s.countries
    requires h.taken > 0 <==> h.box.Some?
    requires h.taken == 0 ==> h.owners == s.owners && h.chunks == {} && h.queue == s.queue
    ensures Hoisted(s, Grown(t, h, cell, country), country, mover) ==
      GainOnce(t, if h.taken == 0 then s else Hoisted(s, h, country, mover), cell, country, mover)
  {
    hide Row, Col, At, Add, Merged, Extended, Gain;
    var base := if h.taken == 0 then s else Hoisted(s, h, country, mover);
    var grown := Grown(t, h, cell, country);
    var z := s.(owners := grown.owners, queue := h.queue, dirtyChunks := s.dirtyChunks + grown.chunks,
                bounds := Merged(s.bounds, country, grown.box.value), changed := Add(s.changed, country),
                dirtyCountries := s.dirtyCountries + {country});
    assert s.dirtyChunks + (h.chunks + {t.ChunkOf(cell)}) == s.dirtyChunks + h.chunks + {t.ChunkOf(cell)};
    if h.taken == 0 {
      FirstMerge(t.g, s.bounds, country, cell);
      assert s.dirtyChunks + {t.ChunkOf(cell)} == s.dirtyChunks + grown.chunks;
    } else {
      var y := s.(owners := h.owners, queue := h.queue, dirtyChunks := s.dirtyChunks + h.chunks,
                  bounds := Merged(s.bounds, country, h.box.value), changed := Add(s.changed, country),
                  dirtyCountries := s.dirtyCountries + {country});
      MergedGrows(t.g, s.bounds, country, h.box.value, cell);
      NoteTwice(s, country);
      GainUnderUpdates(y, z, country, h.taken, mover);
      GainsAdd(z, country, h.taken, mover);
      GainFields(y, country, h.taken, true, mover);
    }
  }

  lemma GainUnderUpdates(y: State, z: State, country: nat, n: nat, mover: Trigger)
    requires z == y.(owners := z.owners, bounds := z.bounds, changed := z.changed, dirtyChunks := z.dirtyChunks, dirtyCountries := z.dirtyCountries)
    ensures Gain(z, country, n, true, mover) == Gain(y, country, n, true, mover).(owners := z.owners, bounds := z.bounds,
      changed := z.changed, dirtyChunks := z.dirtyChunks, dirtyCountries := z.dirtyCountries)
  {
    hide Counted;
  }

  lemma GainShape(s: State, country: nat, n: nat, fromFill: bool, mover: Trigger)
    ensures
      var a := Gain(s, country, n, fromFill, mover);
      a == s.(countries := a.countries, players := a.players, dirtyPlayers := a.dirtyPlayers, cuePlayers := a.cuePlayers)
  {
  }

  /** Without credit only the count changes. */
  lemma GainCases(s: State, country: nat, n: nat, fromFill: bool, mover: Trigger)
    ensures country !in s.countries ==> Gain(s, country, n, fromFill, mover) == s
    ensures country in s.countries ==>
      var counted := s.countries[country := s.countries[country].(count := s.countries[country].count + n)];
      Gain(s, country, n, fromFill, mover) ==
        if !(fromFill && Named(mover) && mover.value in s.players) then s.(countries := counted)
        else
          var p := s.players[mover.value];
          s.(countries := counted, players := s.players[mover.value := p.(captured := p.captured + n)],
             dirtyPlayers := s.dirtyPlayers + {mover.value},
             cuePlayers := if p.isBot then s.cuePlayers else s.cuePlayers + {mover.value})
  {
  }

  lemma GainsAdd(s: State, country: nat, n: nat, mover: Trigger)
    ensures Gain(Gain(s, country, n, true, mover), country, 1, true, mover) == Gain(s, country, n + 1, true, mover)
  {
    var a, b := Gain(s, country, n, true, mover), Gain(s, country, n + 1, true, mover);
    GainShape(s, country, n, true, mover);
    GainShape(s, country, n + 1, true, mover);
    GainShape(a, country, 1, true, mover);
    CreditsOfGains(s, country, n, mover);
    hide Gain;
  }

  /** The players after one of them is paid for n cells. */
  function Paid(players: map<string, Player>, id: string, n: nat): map<string, Player>
    requires id in players
  {
    players[id := players[id].(captured := players[id].captured + n)]
  }

  lemma PaidTwice(players: map<string, Player>, id: string, n: nat)
    requires id in players
    ensures id in Paid(players, id, n) && Paid(players, id, n)[id].isBot == players[id].isBot
    ensures Paid(Paid(players, id, n), id, 1) == Paid(players, id, n + 1)
  {
  }

  lemma CountsAdd(countries: map<nat, Country>, country: nat, n: nat)
    ensures Counted(Counted(countries, country, n), country, 1) == Counted(countries, country, n + 1)
    ensures Counted(countries, country, n).Keys == countries.Keys
  {
  }

  lemma GainParts(s: State, country: nat, n: nat, mover: Trigger)
    ensures
      var a := Gain(s, country, n, true, mover);
      a.countries == Counted(s.countries, country, n) &&
      if country in s.countries && Named(mover) && mover.value in s.players then
        a.players == Paid(s.players, mover.value, n) && a.dirtyPlayers == s.dirtyPlayers + {mover.value} &&
        a.cuePlayers == if s.players[mover.value].isBot then s.cuePlayers else s.cuePlayers + {mover.value}
      else a.players == s.players && a.dirtyPlayers == s.dirtyPlayers && a.cuePlayers == s.cuePlayers
  {
  }

  lemma CreditsOfGains(s: State, country: nat, n: nat, mover: Trigger)
    ensures
      var a, b := Gain(Gain(s, country, n, true, mover), country, 1, true, mover), Gain(s, country, n + 1, true, mover);
      a.countries == b.countries && a.players == b.players && a.dirtyPlayers == b.dirtyPlayers && a.cuePlayers == b.cuePlayers
  {
    GainParts(s, country, n, mover);
    GainParts(s, country, n + 1, mover);
    GainParts(Gain(s, country, n, true, mover), country, 1, mover);
    CountsAdd(s.countries, country, n);
    if mover.Some? && mover.value in s.players {
      PaidTwice(s.players, mover.value, n);
    }
    hide Gain, Counted, Paid;
  }

  lemma FirstMerge(g: Board, bounds: map<nat, Bounds>, country: nat, cell: nat)
    ensures
      var x, y := Col(g.width, cell), Row(g.width, cell);
      Merged(bounds, country, Bounds(x, x, y, y)) == Extended(g, bounds, country, cell)
  {
    hide Row, Col;
  }

  lemma MergedGrows(g: Board, bounds: map<nat, Bounds>, country: nat, box: Bounds, cell: nat)
    ensures Extended(g, Merged(bounds, country, box), country, cell) ==
      Merged(bounds, country, Stretch(box, Col(g.width, cell), Row(g.width, cell)))
  {
    hide Row, Col;
  }

  /** The gain of one more cell slips in before the losers settle. */
  lemma HaulGains(t: Atlas, s: State, h: Haul, cell: nat, country: nat, mover: Trigger)
    requires |s.owners| == |h.owners| == t.g.Size() && s.cursor <= |s.changed| && country in s.countries && cell < |h.owners|
    requires Tallied(t, s.owners, h, country) && h.queue == s.queue == map[]
    ensures
      var before := SettleHaul(s, h, country, mover);
      var hoisted := Hoisted(s, Grown(t, h, cell, country), country, mover);
      before.owners == h.owners && hoisted.cursor <= |hoisted.changed| &&
      (forall c :: c != country && c in s.countries ==> c in hoisted.countries && hoisted.countries[c] == s.countries[c]) &&
      SettleLosers(hoisted, h.losers, h.losses, mover) == GainOnce(t, before, cell, country, mover)
  {
    hide SettleLoser, GainOnce, Hoisted, Owned, Row, Col, At, Stretch, Grown;
    HoistedGrows(t, s, h, cell, country, mover);
    HoistedKeepsPlace(s, h, country, mover);
    var y := if h.taken == 0 then s else Hoisted(s, h, country, mover);
    GainKeepsPlace(t, y, cell, country, mover);
    if h.taken > 0 {
      GainBeforeLosers(t, y, cell, country, h.losers, h.losses, mover);
    }
  }

  /** Each loser is listed once, with its losses. */
  ghost predicate ListedOnce(losers: seq<nat>, losses: map<nat, nat>) {
    (forall i, j :: 0 <= i < j < |losers| ==> losers[i] != losers[j]) && forall c :: c in losers <==> c in losses
  }

  lemma TallyLists(t: Atlas, owners: seq<nat>, h: Haul, country: nat)
    requires |h.owners| == |owners| && Tallied(t, owners, h, country)
    ensures ListedOnce(h.losers, h.losses) && Tallied(t, owners, Unqueued(h), country)
  {
    hide Owned;
  }

  lemma BooksShape(t: Atlas, s: State)
    requires Books(t, s)
    ensures t.Valid() && |s.owners| == t.g.Size() && Books(t, Blank(s))
  {
    hide Owned, Covers;
  }

  /** Settling with one more cell taken: the same losers, or one more loss. */
  lemma TakenSettles(t: Atlas, s: State, h: Haul, cell: nat, country: nat, mover: Trigger)
    requires t.Valid() && |h.owners| == t.g.Size() && cell < |h.owners| && Takes(t, h.owners, cell, country) && h.queue == map[]
    ensures Grown(t, h, cell, country).box.Some?
    ensures
      var o, hoisted := h.owners[cell], Hoisted(s, Grown(t, h, cell, country), country, mover);
      SettleHaul(s, Unqueued(TakeOne(t, h, cell, country)), country, mover) ==
        if o == 0 then SettleLosers(hoisted, h.losers, h.losses, mover)
        else SettleLosers(hoisted, Add(h.losers, o), h.losses[o := LossOf(h.losses, o) + 1], mover)
  {
    hide SettleLosers, Hoisted, TakeOne, Takes, Row, Col, At, Hulled;
    TakenIsGrown(t, h, cell, country);
    assert Unqueued(h) == h;
    HoistedIgnoresLosers(s, Unqueued(TakeOne(t, h, cell, country)), Grown(t, h, cell, country), country, mover);
  }

  lemma BlankGrows(t: Atlas, s: State, h: Haul, cell: nat, country: nat, mover: Trigger)
    requires Books(t, s) && s.cursor <= |s.changed| && country in s.countries && t.Valid()
    requires |h.owners| == |s.owners| == t.g.Size() == |t.land| && cell < |h.owners| && Takes(t, h.owners, cell, country)
    requires Tallied(t, s.owners, h, country) && ListedOnce(h.losers, h.losses) && h.queue == s.queue == map[]
    ensures
      var before, owner := SettleHaul(s, h, country, mover), h.owners[cell];
      before.owners == h.owners &&
      var gained := GainOnce(t, before, cell, country, mover);
      SettleHaul(s, Unqueued(TakeOne(t, h, cell, country)), country, mover) ==
        if owner == 0 then gained else SettleLoser(gained, owner, 1, mover)
  {
    hide *;
    HaulGains(t, s, h, cell, country, mover);
    TakenSettles(t, s, h, cell, country, mover);
    if h.owners[cell] != 0 {
      TakesForeign(t, h, cell, country);
      OwnerIsLive(t, s, h, cell, country);
      LoserJoins(Hoisted(s, Grown(t, h, cell, country), country, mover), h.losers, h.losses, h.owners[cell], mover);
    }
  }

  /** One step of the equivalence: settling a haul with one more cell in it. */
  lemma HaulGrows(t: Atlas, s: State, h: Haul, cell: nat, country: nat, mover: Trigger)
    requires Books(t, s) && s.cursor <= |s.changed| && country in s.countries
    requires |h.owners| == |s.owners| && cell < |h.owners| && Takes(t, h.owners, cell, country)
    requires Tallied(t, s.owners, h, country)
    ensures
      var before := SettleHaul(Blank(s), Unqueued(h), country, mover);
      var owner := h.owners[cell];
      before.owners == h.owners &&
      var gained := GainOnce(t, before, cell, country, mover);
      SettleHaul(Blank(s), Unqueued(TakeOne(t, h, cell, country)), country, mover) ==
        if owner == 0 then gained else SettleLoser(gained, owner, 1, mover)
  {
    BooksShape(t, s);
    TallyLists(t, s.owners, h, country);
    TakeIgnoresQueue(t, h, cell, country);
    hide SettleHaul, SettleLoser, GainOnce, Books, Tallied, TakeOne, Takes, ListedOnce;
    BlankGrows(t, Blank(s), Unqueued(h), cell, country, mover);
  }

  lemma TakeIgnoresQueue(t: Atlas, h: Haul, cell: nat, country: nat)
    requires t.Valid() && |h.owners| == t.g.Size() && cell < |h.owners|
    ensures Unqueued(TakeOne(t, Unqueued(h), cell, country)) == Unqueued(TakeOne(t, h, cell, country))
  {
    hide Row, Col, At, Stretch, Queued, Add;
  }

  lemma TakesForeign(t: Atlas, h: Haul, cell: nat, country: nat)
    requires cell < |h.owners| == |t.land| && Takes(t, h.owners, cell, country)
    ensures h.owners[cell] != country
  {
  }

  /** One more cell lost by o, listed already or not. */
  lemma LoserJoins(s: State, losers: seq<nat>, losses: map<nat, nat>, o: nat, mover: Trigger)
    requires s.cursor <= |s.changed| && o in s.countries && s.countries[o].count - LossOf(losses, o) != 0
    requires ListedOnce(losers, losses)
    ensures SettleLosers(s, Add(losers, o), losses[o := LossOf(losses, o) + 1], mover) ==
      SettleLoser(SettleLosers(s, losers, losses, mover), o, 1, mover)
  {
    hide SettleLoser;
    if o in losers {
      OneMoreLoss(s, losers, losses, o, mover);
    } else {
      OnlyListedLossesMatter(s, losers, losses, losses[o := 1], mover);
      assert Add(losers, o)[..|losers|] == losers;
    }
  }

  lemma TakenIsGrown(t: Atlas, h: Haul, cell: nat, country: nat)
    requires t.Valid() && |h.owners| == t.g.Size() && cell < |h.owners| && Takes(t, h.owners, cell, country)
    ensures
      var next, o := TakeOne(t, h, cell, country), h.owners[cell];
      Unqueued(next).(losers := h.losers, losses := h.losses) == Grown(t, Unqueued(h), cell, country) &&
      next.taken == h.taken + 1 && next.box.Some? &&
      (o == 0 ==> next.losers == h.losers && next.losses == h.losses) &&
      (o != 0 ==> next.losers == Add(h.losers, o) && next.losses == h.losses[o := LossOf(h.losses, o) + 1])
  {
    hide Row, Col, At, Stretch, Queued;
  }

  lemma HoistedIgnoresLosers(s: State, a: Haul, b: Haul, country: nat, mover: Trigger)
    requires a.box.Some? && a.(losers := b.losers, losses := b.losses) == b
    ensures Hoisted(s, a, country, mover) == Hoisted(s, b, country, mover)
  {
  }

  lemma HoistedKeepsPlace(s: State, h: Haul, country: nat, mover: Trigger)
    requires s.cursor <= |s.changed|
    ensures h.box.Some? ==>
      var a := Hoisted(s, h, country, mover);
      a.cursor == s.cursor <= |a.changed| && country in a.changed && a.owners == h.owners &&
      (forall c :: c != country && c in s.countries ==> c in a.countries && a.countries[c] == s.countries[c])
  {
    hide Merged;
  }

  lemma GainKeepsPlace(t: Atlas, s: State, cell: nat, country: nat, mover: Trigger)
    requires s.cursor <= |s.changed| && cell < |s.owners|
    ensures
      var a := GainOnce(t, s, cell, country, mover);
      a.cursor == s.cursor <= |a.changed| &&
      (forall c :: c != country && c in s.countries ==> c in a.countries && a.countries[c] == s.countries[c])
  {
    hide Extended, At, Row, Col;
  }

  lemma OwnerIsLive(t: Atlas, s: State, h: Haul, cell: nat, country: nat)
    requires Books(t, s) && |h.owners| == |s.owners| && cell < |h.owners| && Tallied(t, s.owners, h, country)
    requires h.owners[cell] != 0 && h.owners[cell] != country
    ensures
      var o := h.owners[cell];
      o in s.countries && s.countries[o].count - LossOf(h.losses, o) != 0
  {
    var o := h.owners[cell];
    assert cell in Owned(h.owners, o);
    assert |Owned(s.owners, o)| > 0;
    var c :| c in Owned(s.owners, o);
    assert s.owners[c] == o;
  }

  /** The bulk loop books exactly what one claim per cell, in ascending order, would have
      booked: owners, counts, captured and lost totals, boxes, dirty sets, cue sets, and
      the order and position of the list of changed countries: everything but the search
      queues, whose exact difference CaptureQueues states. */
  lemma {:induction false} BulkEqualsEachClaim(t: Atlas, s: State, cells: seq<nat>, country: nat, mover: Trigger)
    requires Books(t, s) && s.cursor <= |s.changed| && country in s.countries
    requires country in s.queue && s.queue[country].Whole?
    requires forall k :: 0 <= k < |cells| ==> cells[k] < |s.owners|
    ensures
      var each := ClaimEach(t, s, cells, country, mover);
      Blank(each) == Blank(Captured(t, s, cells, country, mover)) &&
      country in each.queue && each.queue[country].Whole?
    decreases |cells|
  {
    hide Claim, SettleHaul, TakeOne, SettleLoser, GainOnce, Tallied, Owned, Covers;
    var h := TakeAll(t, s.owners, s.queue, cells, country);
    BlankHaul(s, h, country, mover);
    if cells == [] {
      NothingTaken(s, h, country, mover);
    } else {
      var n := |cells| - 1;
      var prior := TakeAll(t, s.owners, s.queue, cells[..n], country);
      var each := ClaimEach(t, s, cells[..n], country, mover);
      BulkEqualsEachClaim(t, s, cells[..n], country, mover);
      BlankHaul(s, prior, country, mover);
      HaulIsTallied(t, s.owners, s.queue, cells[..n], country);
      SettledOwners(t, s, prior, country, mover);
      if Takes(t, prior.owners, cells[n], country) {
        HaulGrows(t, s, prior, cells[n], country, mover);
        ClaimIsBookkeeping(t, each, cells[n], country, mover);
      } else {
        ClaimIsNothing(t, each, cells[n], country, true, mover);
        TakesNothing(t, prior, cells[n], country);
      }
    }
  }

  lemma NothingTaken(s: State, h: Haul, country: nat, mover: Trigger)
    requires h.taken == 0
    ensures SettleHaul(s, h, country, mover) == s
  {
  }

  lemma TakesNothing(t: Atlas, h: Haul, cell: nat, country: nat)
    requires t.Valid() && |h.owners| == t.g.Size() && cell < |h.owners| && !Takes(t, h.owners, cell, country)
    ensures TakeOne(t, h, cell, country) == h
  {
  }

  lemma SettledOwners(t: Atlas, s: State, h: Haul, country: nat, mover: Trigger)
    requires |h.owners| == |s.owners| && s.cursor <= |s.changed| && Tallied(t, s.owners, h, country)
    ensures SettleHaul(s, h, country, mover).owners == h.owners
  {
    hide Hoisted;
    HoistedKeepsPlace(s, h, country, mover);
    if h.taken != 0 && h.box.Some? {
      SettledFacts(Hoisted(s, h, country, mover), h.losers, h.losses, mover, country);
    }
  }
}
