/** Country colours over whole histories, and the round trip they make possible:
    any world between ticks can be saved as chunk rows and restored as it was. */
module Palette {
  import opened Basics
  import opened Grid
  import opened Enclosure
  import opened Territory
  import opened Claims
  import opened Capture
  import opened Pass
  import opened Rounds
  import opened Chunks
  import opened Saves

  /** Every live country has its own colour, and its wire code is that colour. */
  ghost predicate Paletted(s: State) {
    0 !in s.ownerCodes && s.ownerCodes.Keys == s.countries.Keys &&
    (forall c :: c in s.countries ==> s.ownerCodes[c] == s.countries[c].color != 0) &&
    forall c, d :: c in s.countries && d in s.countries && c != d ==> s.countries[c].color != s.countries[d].color
  }

  lemma PalettedIsColored(s: State)
    requires Paletted(s)
    ensures Colored(s)
  {
  }

  /** The later state has some of the countries of the earlier one, in the same colours. */
  ghost predicate Fewer(s: State, r: State) {
    r.countries.Keys <= s.countries.Keys &&
    (forall c :: c in r.countries ==> r.countries[c].color == s.countries[c].color) &&
    r.ownerCodes == s.ownerCodes - (s.countries.Keys - r.countries.Keys) &&
    r.removedCountries == s.removedCountries + (s.countries.Keys - r.countries.Keys)
  }

  lemma FewerStayPaletted(s: State, r: State)
    requires Paletted(s) && Fewer(s, r)
    ensures Paletted(r)
  {
  }

  lemma FewerTwice(s: State, m: State, r: State)
    requires Fewer(s, m) && Fewer(m, r)
    ensures Fewer(s, r)
  {
  }

  lemma ChargeIsFewer(s: State, owner: nat, n: nat, fromFill: bool, mover: Trigger)
    ensures Fewer(s, Noted(Charge(s, owner, n, fromFill, mover), owner))
  {
    hide Add;
  }

  lemma DeletedIsFewer(s: State, c: nat)
    ensures Fewer(s, Deleted(s, c))
  {
    hide Held, Without;
    if Gone(s, c) {
      assert s.countries.Keys - (s.countries.Keys - {c}) == {c};
    }
  }

  lemma GainIsFewer(s: State, m: State, country: nat, n: nat, fromFill: bool, mover: Trigger)
    requires m.countries == s.countries && m.ownerCodes == s.ownerCodes && m.removedCountries == s.removedCountries
    ensures Fewer(s, Gain(m, country, n, fromFill, mover))
  {
  }

  lemma BookedIsFewer(t: Atlas, s: State, cell: nat, country: nat, fromFill: bool, mover: Trigger)
    requires t.Valid() && |s.owners| == t.g.Size() && cell < |s.owners|
    ensures Fewer(s, Booked(t, s, cell, country, fromFill, mover))
  {
    hide Candidates, Extended, Add, Gain, Fewer;
    var moved := s.(owners := s.owners[cell := country], bounds := Extended(t.g, s.bounds, country, cell),
                    changed := Add(s.changed, country));
    CandidatesFields(t, moved, cell, country, mover);
    var searched := Candidates(t, moved, cell, country, mover);
    GainIsFewer(s, searched.(dirtyChunks := searched.dirtyChunks + {t.ChunkOf(cell)},
                             dirtyCountries := searched.dirtyCountries + {country}), country, 1, fromFill, mover);
  }

  lemma LossIsFewer(t: Atlas, s: State, owner: nat, cell: nat, fromFill: bool, mover: Trigger)
    requires |s.owners| == t.g.Size() && cell < |s.owners|
    ensures Fewer(s, Loss(t, s, owner, cell, fromFill, mover))
  {
    hide StraightExit, Queued, Deleted, Charge, Noted;
    var noted := Noted(Charge(s, owner, 1, fromFill, mover), owner);
    ChargeIsFewer(s, owner, 1, fromFill, mover);
    DeletedIsFewer(noted, owner);
    FewerTwice(s, noted, Deleted(noted, owner));
  }

  lemma ClaimIsFewer(t: Atlas, s: State, cell: nat, country: nat, fromFill: bool, mover: Trigger)
    requires t.Valid() && |s.owners| == t.g.Size() && cell < |s.owners|
    ensures Fewer(s, Claim(t, s, cell, country, fromFill, mover))
  {
    hide Claim, Booked, Loss, Fewer;
    if t.land[cell] && s.owners[cell] != country {
      ClaimIsBookedThenLost(t, s, cell, country, fromFill, mover);
      BookedIsFewer(t, s, cell, country, fromFill, mover);
      BookedOwners(t, s, cell, country, fromFill, mover);
      if s.owners[cell] != 0 {
        var b := Booked(t, s, cell, country, fromFill, mover);
        LossIsFewer(t, b, s.owners[cell], cell, fromFill, mover);
        FewerTwice(s, b, Loss(t, b, s.owners[cell], cell, fromFill, mover));
      }
    } else {
      ClaimIsNothing(t, s, cell, country, fromFill, mover);
      FewerSelf(s);
    }
  }

  lemma FewerSelf(s: State)
    ensures Fewer(s, s)
  {
    assert s.countries.Keys - s.countries.Keys == {};
  }

  lemma {:induction false} SettlingIsFewer(s: State, losers: seq<nat>, losses: map<nat, nat>, mover: Trigger)
    ensures Fewer(s, SettleLosers(s, losers, losses, mover))
    decreases |losers|
  {
    hide Fewer, Deleted, Charge, Noted;
    if losers == [] {
      FewerSelf(s);
    } else {
      var n := |losers| - 1;
      var before := SettleLosers(s, losers[..n], losses, mover);
      SettlingIsFewer(s, losers[..n], losses, mover);
      ChargeIsFewer(before, losers[n], LossOf(losses, losers[n]), true, mover);
      var noted := Noted(Charge(before, losers[n], LossOf(losses, losers[n]), true, mover), losers[n]);
      DeletedIsFewer(noted, losers[n]);
      FewerTwice(s, before, noted);
      FewerTwice(s, noted, Deleted(noted, losers[n]));
    }
  }

  lemma HaulIsFewer(s: State, h: Haul, country: nat, mover: Trigger)
    ensures Fewer(s, SettleHaul(s, h, country, mover))
  {
    hide Fewer, Gain, SettleLosers, Add, Merged;
    FewerSelf(s);
    if h.box.Some? {
      GainIsFewer(s, s.(owners := h.owners, queue := h.queue, dirtyChunks := s.dirtyChunks + h.chunks,
                        bounds := Merged(s.bounds, country, h.box.value), changed := Add(s.changed, country),
                        dirtyCountries := s.dirtyCountries + {country}), country, h.taken, true, mover);
      var y := Hoisted(s, h, country, mover);
      SettlingIsFewer(y, h.losers, h.losses, mover);
      FewerTwice(s, y, SettleLosers(y, h.losers, h.losses, mover));
    }
  }

  lemma TurnIsFewer(t: Atlas, s: State)
    requires t.Valid() && |s.owners| == t.g.Size() && s.cursor < |s.changed|
    ensures Fewer(s, PlainStep(t, s))
  {
    hide Fewer, TakeAll, SettleHaul, Enclosed;
    var c := s.changed[s.cursor];
    var next := s.(cursor := s.cursor + 1);
    FewerFields(s, next);
    if c in s.queue && c in s.countries && s.countries[c].count != 0 {
      var due := next.(queue := s.queue[c := Whole]);
      var cells := Listing(Enclosed(t.g, s.owners, c), t.g.Size());
      EntriesAreMembers(cells, t.g.Size());
      FewerFields(s, due);
      HaulIsFewer(due, TakeAll(t, due.owners, due.queue, cells, c), c, TriggerOf(s, c));
      FewerTwice(s, due, Captured(t, due, cells, c, TriggerOf(s, c)));
    }
  }

  lemma FewerFields(s: State, r: State)
    requires r.countries == s.countries && r.ownerCodes == s.ownerCodes && r.removedCountries == s.removedCountries
    ensures Fewer(s, r)
  {
    FewerSelf(s);
  }

  lemma {:induction false} PassIsFewer(t: Atlas, s: State)
    requires Inv(t, s)
    ensures Fewer(s, PlainPass(t, s))
    decreases TurnsLeft(s)
  {
    hide Inv, PlainStep, TurnsLeft, Fewer;
    InvCursor(t, s);
    if s.cursor == |s.changed| {
      FewerSelf(s);
    } else {
      PlainStepKeepsInv(t, s);
      TurnIsFewer(t, s);
      PassIsFewer(t, PlainStep(t, s));
      FewerTwice(s, PlainStep(t, s), PlainPass(t, s));
    }
  }

  // ----- over histories -----

  /** Every event but the founding of a country leaves some of the countries. */
  lemma EventIsFewer(t: Atlas, s: State, e: Event)
    requires Settled(t, s) && Allowed(t, s, e) && !e.Create?
    ensures Fewer(s, Apply(t, s, e))
  {
    hide Inv, Claim, Surrounded, StepCost, Fewer, Deleted, Row, Col, At;
    LivePlayers(t, s);
    match e
    case Step(id, d) => MoveIsFewer(t, s, id, d);
    case Arrive(id, country, isBot, x, y) =>
      var arrived := s.(players := s.players[id := Player(country, isBot, x, y, x, y, 0, 0)], dirtyPlayers := s.dirtyPlayers + {id});
      FewerFields(s, arrived);
      ClaimIsFewer(t, arrived, CellAt(t.g, x, y), country, false, Some(id));
      FewerTwice(s, arrived, Apply(t, s, e));
    case Leave(id) =>
      var left := s.(players := s.players - {id}, dirtyPlayers := s.dirtyPlayers + {id});
      FewerFields(s, left);
      DeletedIsFewer(left, s.players[id].country);
      FewerTwice(s, left, Apply(t, s, e));
  }

  lemma EventKeepsPalette(t: Atlas, s: State, e: Event)
    requires Settled(t, s) && Allowed(t, s, e) && Paletted(s)
    ensures Paletted(Apply(t, s, e))
  {
    hide Settled, Fewer;
    if !e.Create? {
      EventIsFewer(t, s, e);
      FewerStayPaletted(s, Apply(t, s, e));
    }
  }

  lemma MoveIsFewer(t: Atlas, s: State, id: string, d: Direction)
    requires t.Valid() && |s.owners| == t.g.Size() && id in s.players && OnMap(t.g, s.players[id])
    ensures Fewer(s, Move(t, s, id, d))
  {
    hide Claim, Surrounded, StepCost, Fewer, Row, Col, At;
    var p := s.players[id];
    FewerSelf(s);
    FewerFields(s, Moved(s, id, p.(credit := 0)));
    FewerFields(s, Moved(s, id, p.(credit := p.credit + 1)));
    var x, y := WrapX(t.g.width, p.x + StepX(d)), p.y + StepY(d);
    if !d.Idle? && 0 <= y < t.g.height {
      var stepped := Stepped(t, s, id, x, y);
      FewerFields(s, stepped);
      ClaimIsFewer(t, stepped, CellAt(t.g, x, y), p.country, false, Some(id));
      FewerTwice(s, stepped, Claim(t, stepped, CellAt(t.g, x, y), p.country, false, Some(id)));
    }
  }

  lemma {:induction false} PlayKeepsPalette(t: Atlas, s: State, events: seq<Event>)
    requires Settled(t, s) && Paletted(s)
    ensures Play(t, s, events).Some? ==> Paletted(Play(t, s, events).value)
    decreases |events|
  {
    hide Settled, Apply, Paletted;
    if events != [] && Allowed(t, s, events[0]) {
      EventKeepsSettled(t, s, events[0]);
      EventKeepsPalette(t, s, events[0]);
      PlayKeepsPalette(t, Apply(t, s, events[0]), events[1..]);
    }
  }

  lemma {:induction false} HistoryIsPaletted(t: Atlas, ticks: seq<seq<Event>>)
    requires t.Valid()
    ensures History(t, ticks).Some? ==> Paletted(History(t, ticks).value)
    decreases |ticks|
  {
    hide Settled, Play, PlainPass, Fewer, Paletted;
    if ticks == [] {
      NobodyPaletted(t);
    } else {
      var n := |ticks| - 1;
      HistoryIsPaletted(t, ticks[..n]);
      if History(t, ticks[..n]).Some? {
        var s := History(t, ticks[..n]).value;
        PlayKeepsSettled(t, s, ticks[n]);
        PlayKeepsPalette(t, s, ticks[n]);
        if Play(t, s, ticks[n]).Some? {
          PassPalettes(t, Play(t, s, ticks[n]).value);
        }
      }
    }
  }

  lemma NobodyPaletted(t: Atlas)
    ensures Paletted(EmptyState(t))
  {
  }

  lemma PassPalettes(t: Atlas, s: State)
    requires Settled(t, s) && Paletted(s)
    ensures Inv(t, s) && Paletted(Cleared(PlainPass(t, s)))
  {
    hide Inv, PlainPass;
    PassIsFewer(t, s);
    FewerStayPaletted(s, PlainPass(t, s));
  }

  // ----- country ids never repeat -----

  /** Countries are founded under ids never used before. */
  predicate NewIds(events: seq<Event>, used: set<nat>)
    decreases |events|
  {
    events == [] ||
    (if events[0].Create? then events[0].country !in used && NewIds(events[1..], used + {events[0].country})
     else NewIds(events[1..], used))
  }

  function UsedAfter(events: seq<Event>, used: set<nat>): set<nat>
    decreases |events|
  {
    if events == [] then used
    else UsedAfter(events[1..], if events[0].Create? then used + {events[0].country} else used)
  }

  /** Live and removed countries are all used ids, and none is both. */
  ghost predicate Fits(s: State, used: set<nat>) {
    s.countries.Keys + s.removedCountries <= used && s.removedCountries !! s.countries.Keys
  }

  /** Later countries are earlier ones in the same colours, or new. */
  ghost predicate Kin(s: State, r: State, used: set<nat>) {
    forall c :: c in r.countries ==> (c in s.countries && r.countries[c].color == s.countries[c].color) || c !in used
  }

  lemma FewerFits(s: State, r: State, used: set<nat>)
    requires Fits(s, used) && Fewer(s, r)
    ensures Fits(r, used) && Kin(s, r, used)
  {
  }

  lemma EventKeepsIds(t: Atlas, s: State, e: Event, used: set<nat>)
    requires Settled(t, s) && Allowed(t, s, e) && Fits(s, used) && NewIds([e], used)
    ensures Fits(Apply(t, s, e), UsedAfter([e], used)) && Kin(s, Apply(t, s, e), used)
  {
    hide Settled, Fewer;
    assert [e][1..] == [];
    if !e.Create? {
      EventIsFewer(t, s, e);
      FewerFits(s, Apply(t, s, e), used);
    }
  }

  lemma KinTwice(s: State, m: State, r: State, used: set<nat>, more: set<nat>)
    requires Kin(s, m, used) && Kin(m, r, more) && used <= more
    ensures Kin(s, r, used)
  {
  }

  lemma {:induction false} PlayKeepsIds(t: Atlas, s: State, events: seq<Event>, used: set<nat>)
    requires Settled(t, s) && Play(t, s, events).Some? && Fits(s, used) && NewIds(events, used)
    ensures Fits(Play(t, s, events).value, UsedAfter(events, used)) && Kin(s, Play(t, s, events).value, used)
    ensures used <= UsedAfter(events, used)
    decreases |events|
  {
    hide Settled, Apply, Fits, Kin, Allowed;
    if events == [] {
      KinSelf(s, used);
    } else {
      var next := Apply(t, s, events[0]);
      assert [events[0]][1..] == [];
      var more := UsedAfter([events[0]], used);
      EventKeepsSettled(t, s, events[0]);
      EventKeepsIds(t, s, events[0], used);
      PlayKeepsIds(t, next, events[1..], more);
      KinTwice(s, next, Play(t, s, events).value, used, more);
    }
  }

  lemma KinSelf(s: State, used: set<nat>)
    ensures Kin(s, s, used)
  {
  }

  /** A tick founds countries under new ids only; live and removed ids stay apart. */
  lemma TickKeepsIds(t: Atlas, s: State, events: seq<Event>, used: set<nat>)
    requires Settled(t, s) && Tick(t, s, events).Some? && Fits(s, used) && NewIds(events, used)
    ensures Fits(Tick(t, s, events).value, UsedAfter(events, used)) && Kin(s, Tick(t, s, events).value, used)
    ensures used <= UsedAfter(events, used)
  {
    hide Settled, Play, PlainPass, Fewer, Fits, Kin;
    PlayKeepsIds(t, s, events, used);
    PlayKeepsSettled(t, s, events);
    var played := Play(t, s, events).value;
    PassFits(t, played, UsedAfter(events, used));
    KinTwice(s, played, Tick(t, s, events).value, used, UsedAfter(events, used));
  }

  lemma PassFits(t: Atlas, s: State, used: set<nat>)
    requires Settled(t, s) && Fits(s, used)
    ensures Inv(t, s) && Fits(Cleared(PlainPass(t, s)), used) && Kin(s, Cleared(PlainPass(t, s)), used)
  {
    hide Inv, PlainPass;
    PassIsFewer(t, s);
    FewerFits(s, PlainPass(t, s), used);
  }

  lemma TickKeepsPalette(t: Atlas, s: State, events: seq<Event>)
    requires Settled(t, s) && Tick(t, s, events).Some? && Paletted(s)
    ensures Paletted(Tick(t, s, events).value)
  {
    hide Settled, Play, PlainPass, Paletted;
    PlayKeepsSettled(t, s, events);
    PlayKeepsPalette(t, s, events);
    PassPalettes(t, Play(t, s, events).value);
  }

  /** Whatever has happened, a world saved between ticks is restored as it was: the same
      owners, and every country with land unchanged. */
  lemma EveryHistoryRestores(t: Atlas, ticks: seq<seq<Event>>, saved: seq<Saved>, rows: seq<ChunkRow>)
    requires Tiled(t) && History(t, ticks).Some?
    requires CountriesSaved(History(t, ticks).value, saved) && ChunksSaved(t, History(t, ticks).value, rows)
    ensures Loaded(t, saved, rows).Some? && Inv(t, Loaded(t, saved, rows).value)
    ensures
      var s, back := History(t, ticks).value, PlainPass(t, Loaded(t, saved, rows).value);
      back.owners == s.owners && back.countries == map c | c in s.countries && s.countries[c].count != 0 :: s.countries[c]
  {
    hide History, CountriesSaved, ChunksSaved, Books, Sealed, Paletted, Colored;
    EveryHistoryIsSealed(t, ticks);
    HistoryIsPaletted(t, ticks);
    PalettedIsColored(History(t, ticks).value);
    RestoreReproduces(t, History(t, ticks).value, saved, rows);
  }
}
