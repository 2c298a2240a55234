/** Who is paid for a capture, who is charged with it, and who goes under.

    The laws speak of the owners before and after and of the triggers recorded with the
    claims, never of how a turn of the pass books them. */
module Credits {
  import opened Basics
  import opened Grid
  import opened Enclosure
  import opened Territory
  import opened Claims
  import opened Capture
  import opened Pass
  import opened Rounds
  import Moves

  /** The cells that became the country's. */
  ghost function Won(before: seq<nat>, after: seq<nat>, country: nat): set<nat>
    requires |before| == |after|
  {
    set cell: nat | cell < |after| && before[cell] != country && after[cell] == country
  }

  /** The cells that stopped being the country's. */
  ghost function Ceded(before: seq<nat>, after: seq<nat>, country: nat): set<nat>
    requires |before| == |after|
  {
    set cell: nat | cell < |after| && before[cell] == country && after[cell] != country
  }

  /** A player still in the game closed a line for the country, last of all who did. */
  predicate Credits(s: State, country: nat, id: string) {
    id != "" && id in s.players && country in s.triggers && s.triggers[country] == id
  }

  // ----- a list of losers -----

  /** Nothing of the players, the owners and the triggers is touched. */
  predicate PeopleStay(s: State, a: State) {
    a.players == s.players && a.dirtyPlayers == s.dirtyPlayers && a.cuePlayers == s.cuePlayers &&
    a.triggers == s.triggers && a.owners == s.owners
  }

  /** What a country's books become when it is charged for m cells. */
  function Debit(c: Country, m: nat, booked: bool): Country {
    c.(count := c.count - m, lost := c.lost + if booked then m else 0)
  }

  /** Every loser still there is charged once, with its own losses, and nobody else is. */
  ghost predicate Charged(s: State, losers: seq<nat>, losses: map<nat, nat>, booked: bool, a: State) {
    a.countries.Keys <= s.countries.Keys &&
    forall c :: c in a.countries ==>
      a.countries[c] == if c in losers then Debit(s.countries[c], LossOf(losses, c), booked) else s.countries[c]
  }

  /** A loser goes under with its last cell unless somebody plays for it. */
  ghost predicate GoneUnder(s: State, losers: seq<nat>, losses: map<nat, nat>, a: State) {
    forall c :: c in s.countries ==>
      (c !in a.countries <==> c in losers && s.countries[c].count == LossOf(losses, c) && !Held(s, c))
  }

  /** The losers whose people are told: all but the bots' countries. */
  function Alarmed(countries: map<nat, Country>, losers: seq<nat>): set<nat> {
    set o | o in losers && o in countries && !countries[o].isBot
  }

  /** What settling with one loser makes of the books. */
  lemma LoserIsCharged(s: State, o: nat, m: nat, mover: Trigger)
    ensures
      var a := SettleLoser(s, o, m, mover);
      PeopleStay(s, a) && Charged(s, [o], map[o := m], mover.Some?, a) && GoneUnder(s, [o], map[o := m], a) &&
      a.cueCountries == s.cueCountries + if mover.Some? then Alarmed(s.countries, [o]) else {}
  {
    var listed := Noted(Charge(s, o, m, true, mover), o);
    ListedIsDebited(s, o, m, mover);
    DeletedShape(listed, o);
    HeldDependsOnPlayers(s, listed, o);
    hide Held, Deleted, Noted, Charge;
  }

  lemma ListedIsDebited(s: State, o: nat, m: nat, mover: Trigger)
    ensures
      var a := Noted(Charge(s, o, m, true, mover), o);
      PeopleStay(s, a) && a.countries.Keys == s.countries.Keys &&
      (forall c :: c in s.countries ==>
        a.countries[c] == if c == o then Debit(s.countries[c], m, mover.Some?) else s.countries[c]) &&
      a.cueCountries == s.cueCountries + if mover.Some? then Alarmed(s.countries, [o]) else {}
  {
    hide Add;
  }

  lemma DeletedShape(s: State, o: nat)
    ensures
      var a := Deleted(s, o);
      PeopleStay(s, a) && a.cueCountries == s.cueCountries &&
      a.countries == if o in s.countries && s.countries[o].count == 0 && !Held(s, o) then s.countries - {o} else s.countries
  {
    hide Held, Without;
  }

  lemma ChargedInTurn(s: State, rest: seq<nat>, o: nat, losses: map<nat, nat>, booked: bool, x: State, a: State)
    requires o !in rest && Charged(s, rest, losses, booked, x) && Charged(x, [o], map[o := LossOf(losses, o)], booked, a)
    ensures Charged(s, rest + [o], losses, booked, a)
  {
    hide Debit;
  }

  lemma GoneInTurn(s: State, rest: seq<nat>, o: nat, losses: map<nat, nat>, booked: bool, x: State, a: State)
    requires o !in rest && Charged(s, rest, losses, booked, x) && a.countries.Keys <= x.countries.Keys
    requires GoneUnder(s, rest, losses, x) && GoneUnder(x, [o], map[o := LossOf(losses, o)], a) && PeopleStay(s, x)
    ensures GoneUnder(s, rest + [o], losses, a)
  {
    hide Debit;
    HeldDependsOnPlayers(s, x, o);
    hide Held;
  }

  lemma AlarmedInTurn(s: State, rest: seq<nat>, o: nat, losses: map<nat, nat>, booked: bool, x: State)
    requires o !in rest && Charged(s, rest, losses, booked, x) && GoneUnder(s, rest, losses, x)
    ensures Alarmed(s.countries, rest + [o]) == Alarmed(s.countries, rest) + Alarmed(x.countries, [o])
  {
    hide Debit, Held;
  }

  lemma {:induction false} LosersAreCharged(s: State, losers: seq<nat>, losses: map<nat, nat>, mover: Trigger)
    requires forall i, j :: 0 <= i < j < |losers| ==> losers[i] != losers[j]
    ensures
      var a := SettleLosers(s, losers, losses, mover);
      PeopleStay(s, a) && Charged(s, losers, losses, mover.Some?, a) && GoneUnder(s, losers, losses, a) &&
      a.cueCountries == s.cueCountries + if mover.Some? then Alarmed(s.countries, losers) else {}
    decreases |losers|
  {
    hide SettleLoser, Held, Debit, GoneUnder, Alarmed;
    if losers == [] {
      assert GoneUnder(s, losers, losses, s) && Alarmed(s.countries, losers) == {} by { NobodyIsGone(s, losses); }
    } else {
      var n := |losers| - 1;
      var o, x := losers[n], SettleLosers(s, losers[..n], losses, mover);
      var a := SettleLoser(x, o, LossOf(losses, o), mover);
      assert losers == losers[..n] + [o] && o !in losers[..n];
      LosersAreCharged(s, losers[..n], losses, mover);
      LoserIsCharged(x, o, LossOf(losses, o), mover);
      ChargedInTurn(s, losers[..n], o, losses, mover.Some?, x, a);
      GoneInTurn(s, losers[..n], o, losses, mover.Some?, x, a);
      AlarmedInTurn(s, losers[..n], o, losses, mover.Some?, x);
    }
  }

  lemma NobodyIsGone(s: State, losses: map<nat, nat>)
    ensures GoneUnder(s, [], losses, s) && Alarmed(s.countries, []) == {}
  {
  }

  // ----- one capture -----

  /** The haul's tallies are the cells won and ceded. */
  lemma TalliesAreCells(t: Atlas, owners: seq<nat>, h: Haul, cells: set<nat>, country: nat)
    requires |h.owners| == |owners| && Taken(t, owners, h.owners, cells, country) && Tallied(t, owners, h, country)
    ensures |Won(owners, h.owners, country)| == h.taken
    ensures forall o :: o != country && o != 0 ==>
      |Ceded(owners, h.owners, o)| == LossOf(h.losses, o) && (o in h.losers <==> Ceded(owners, h.owners, o) != {})
  {
    var own, more := Owned(owners, country), Owned(h.owners, country);
    assert own <= more && Won(owners, h.owners, country) == more - own;
    SetLessSubset(more, own);
    forall o | o != country && o != 0
      ensures |Ceded(owners, h.owners, o)| == LossOf(h.losses, o) && (o in h.losers <==> Ceded(owners, h.owners, o) != {})
    {
      var had, has := Owned(owners, o), Owned(h.owners, o);
      assert has <= had && Ceded(owners, h.owners, o) == had - has;
      SetLessSubset(had, has);
      assert o in h.losers <==> LossOf(h.losses, o) > 0;
    }
  }

  lemma SetLessSubset(a: set<nat>, b: set<nat>)
    requires b <= a
    ensures |a - b| == |a| - |b| && (a - b == {} <==> |a| == |b|)
  {
    assert a == b + (a - b);
  }

  /** The player credited for the country is paid for every cell it won, and on the roster;
      everybody else is as before. */
  ghost predicate Rewarded(s: State, r: State, country: nat)
    requires |r.owners| == |s.owners|
  {
    var won := Won(s.owners, r.owners, country);
    r.players.Keys == s.players.Keys &&
    (forall id :: id in s.players ==>
      r.players[id] == s.players[id].(captured := s.players[id].captured + if Credits(s, country, id) then |won| else 0)) &&
    r.dirtyPlayers == s.dirtyPlayers + (set id | id in s.players && Credits(s, country, id) && won != {}) &&
    r.cuePlayers == s.cuePlayers + (set id | id in s.players && Credits(s, country, id) && won != {} && !s.players[id].isBot)
  }

  /** With a trigger recorded, every loser still there is charged for every cell it ceded;
      nothing else of its books changes but the count. */
  ghost predicate Debits(s: State, r: State, country: nat)
    requires |r.owners| == |s.owners|
  {
    r.countries.Keys <= s.countries.Keys &&
    forall o :: o in r.countries ==>
      var lost := if country in s.triggers then |Ceded(s.owners, r.owners, o)| else 0;
      r.countries[o] == s.countries[o].(count := r.countries[o].count, lost := s.countries[o].lost + lost)
  }

  /** Whoever ceded its last cell with nobody playing for it is gone, and nobody else is. */
  ghost predicate Drowns(s: State, r: State)
    requires |r.owners| == |s.owners|
  {
    forall o :: o in s.countries ==>
      (o !in r.countries <==> Ceded(s.owners, r.owners, o) != {} && Owned(r.owners, o) == {} && !Held(s, o))
  }

  /** The losers' people are told of a triggered capture; bots need not be. */
  ghost predicate Tells(s: State, r: State, country: nat)
    requires |r.owners| == |s.owners|
  {
    r.cueCountries == s.cueCountries +
      set o | o in s.countries && country in s.triggers && !s.countries[o].isBot && Ceded(s.owners, r.owners, o) != {}
  }

  ghost predicate Charges(s: State, r: State, country: nat)
    requires |r.owners| == |s.owners|
  {
    Debits(s, r, country) && Drowns(s, r) && Tells(s, r, country)
  }

  /** Nobody but the country whose turn it is takes anything. */
  ghost predicate OnlyWins(s: State, r: State, country: nat) {
    |r.owners| == |s.owners| &&
    (forall cell :: 0 <= cell < |s.owners| && r.owners[cell] != s.owners[cell] ==> r.owners[cell] == country) &&
    r.triggers == s.triggers
  }

  lemma HoistedPays(s: State, h: Haul, country: nat)
    requires h.box.Some? && h.taken > 0 && country in s.countries && |h.owners| == |s.owners|
    requires |Won(s.owners, h.owners, country)| == h.taken
    ensures
      var y := Hoisted(s, h, country, TriggerOf(s, country));
      y.owners == h.owners && y.triggers == s.triggers && y.cueCountries == s.cueCountries && Rewarded(s, y, country) &&
      y.countries == s.countries[country := s.countries[country].(count := s.countries[country].count + h.taken)]
  {
    hide Won, Merged, Add;
    var won := Won(s.owners, h.owners, country);
    assert won != {};
    var y, mover := Hoisted(s, h, country, TriggerOf(s, country)), TriggerOf(s, country);
    if Named(mover) && mover.value in s.players {
      assert forall id :: id in s.players && Credits(s, country, id) <==> id == mover.value;
    } else {
      assert forall id :: !Credits(s, country, id);
    }
  }

  lemma HoistedHolders(s: State, h: Haul, country: nat, mover: Trigger, o: nat)
    requires h.box.Some? && country in s.countries
    ensures Held(Hoisted(s, h, country, mover), o) <==> Held(s, o)
  {
    HoistedFields(s, h, country, mover);
    var y := Hoisted(s, h, country, mover);
    hide Hoisted;
    assert forall id :: id in s.players <==> id in y.players;
    assert forall id :: id in s.players ==> y.players[id].country == s.players[id].country;
  }

  /** What the tallies say about one country. */
  lemma LastCells(t: Atlas, s: State, h: Haul, cells: set<nat>, country: nat, o: nat)
    requires Books(t, s) && o in s.countries && |h.owners| == |s.owners|
    requires Taken(t, s.owners, h.owners, cells, country) && Tallied(t, s.owners, h, country)
    ensures o in h.losers <==> Ceded(s.owners, h.owners, o) != {}
    ensures o in h.losers ==> o != country && |Ceded(s.owners, h.owners, o)| == LossOf(h.losses, o)
    ensures o in h.losers ==> (s.countries[o].count == LossOf(h.losses, o) <==> Owned(h.owners, o) == {})
  {
    hide Covers;
    if o != country {
      TalliesAreCells(t, s.owners, h, cells, country);
    } else {
      assert Ceded(s.owners, h.owners, o) == {};
    }
  }

  lemma SettledCharges(t: Atlas, s: State, h: Haul, cells: set<nat>, country: nat, mover: Trigger)
    requires Books(t, s) && country in s.countries && |h.owners| == |s.owners| && h.box.Some? && h.taken > 0
    requires Taken(t, s.owners, h.owners, cells, country) && Tallied(t, s.owners, h, country) && mover == TriggerOf(s, country)
    ensures
      var r := SettleLosers(Hoisted(s, h, country, mover), h.losers, h.losses, mover);
      |r.owners| == |s.owners| && r.owners == h.owners && OnlyWins(s, r, country) && Rewarded(s, r, country)
  {
    hide Hoisted, SettleLosers, Held, Won, Owned, Covers;
    var y := Hoisted(s, h, country, mover);
    TalliesAreCells(t, s.owners, h, cells, country);
    HoistedPays(s, h, country);
    LosersAreCharged(y, h.losers, h.losses, mover);
  }

  /** The haul's list of losers is right about every country. */
  ghost predicate ListsLosers(s: State, h: Haul, country: nat)
    requires |h.owners| == |s.owners|
  {
    forall o :: o in s.countries ==>
      (o in h.losers <==> Ceded(s.owners, h.owners, o) != {}) &&
      (o in h.losers ==> o != country && |Ceded(s.owners, h.owners, o)| == LossOf(h.losses, o)) &&
      (o in h.losers ==> (s.countries[o].count == LossOf(h.losses, o) <==> Owned(h.owners, o) == {}))
  }

  lemma HaulListsLosers(t: Atlas, s: State, h: Haul, cells: set<nat>, country: nat)
    requires Books(t, s) && |h.owners| == |s.owners|
    requires Taken(t, s.owners, h.owners, cells, country) && Tallied(t, s.owners, h, country)
    ensures ListsLosers(s, h, country)
  {
    hide Ceded, Owned, Tallied, Taken, Books;
    forall o | o in s.countries
      ensures o in h.losers <==> Ceded(s.owners, h.owners, o) != {}
      ensures o in h.losers ==> o != country && |Ceded(s.owners, h.owners, o)| == LossOf(h.losses, o)
      ensures o in h.losers ==> (s.countries[o].count == LossOf(h.losses, o) <==> Owned(h.owners, o) == {})
    {
      LastCells(t, s, h, cells, country, o);
    }
  }

  lemma ListedAreDebited(s: State, h: Haul, country: nat, y: State, r: State)
    requires country in s.countries && |h.owners| == |s.owners| && ListsLosers(s, h, country) && r.owners == h.owners
    requires y.countries == s.countries[country := s.countries[country].(count := s.countries[country].count + h.taken)]
    requires Charged(y, h.losers, h.losses, country in s.triggers, r)
    ensures Debits(s, r, country)
  {
    hide Held, Ceded, Owned;
  }

  lemma ListedGoUnder(s: State, h: Haul, country: nat, y: State, r: State)
    requires country in s.countries && |h.owners| == |s.owners| && ListsLosers(s, h, country) && r.owners == h.owners
    requires y.countries == s.countries[country := s.countries[country].(count := s.countries[country].count + h.taken)]
    requires GoneUnder(y, h.losers, h.losses, r) && forall o :: Held(y, o) <==> Held(s, o)
    ensures Drowns(s, r)
  {
    hide Held, Ceded, Owned;
  }

  lemma ListedAreTold(s: State, h: Haul, country: nat, y: State, r: State)
    requires country in s.countries && |h.owners| == |s.owners| && ListsLosers(s, h, country) && r.owners == h.owners
    requires y.countries == s.countries[country := s.countries[country].(count := s.countries[country].count + h.taken)]
    requires r.cueCountries == s.cueCountries + if country in s.triggers then Alarmed(y.countries, h.losers) else {}
    ensures Tells(s, r, country)
  {
    hide Held, Ceded, Owned;
    if country in s.triggers {
      assert Alarmed(y.countries, h.losers) ==
        set o | o in s.countries && country in s.triggers && !s.countries[o].isBot && Ceded(s.owners, r.owners, o) != {};
    }
  }

  lemma SettledIsCharged(t: Atlas, s: State, h: Haul, cells: set<nat>, country: nat, mover: Trigger)
    requires Books(t, s) && country in s.countries && |h.owners| == |s.owners| && h.box.Some? && h.taken > 0
    requires Taken(t, s.owners, h.owners, cells, country) && Tallied(t, s.owners, h, country) && mover == TriggerOf(s, country)
    ensures
      var r := SettleLosers(Hoisted(s, h, country, mover), h.losers, h.losses, mover);
      r.owners == h.owners && Charges(s, r, country)
  {
    hide Hoisted, SettleLosers, Held, Won, Ceded, Owned, Tallied, Taken, Rewarded, Books, Debits, Drowns, Tells, Alarmed, Charged, GoneUnder, ListsLosers;
    var y := Hoisted(s, h, country, mover);
    assert |Won(s.owners, h.owners, country)| == h.taken by { TalliesAreCells(t, s.owners, h, cells, country); }
    HoistedPays(s, h, country);
    TallyLists(t, s.owners, h, country);
    LosersAreCharged(y, h.losers, h.losses, mover);
    HaulListsLosers(t, s, h, cells, country);
    forall o
      ensures Held(y, o) <==> Held(s, o)
    {
      HoistedHolders(s, h, country, mover, o);
    }
    var r := SettleLosers(y, h.losers, h.losses, mover);
    ListedAreDebited(s, h, country, y, r);
    ListedGoUnder(s, h, country, y, r);
    ListedAreTold(s, h, country, y, r);
  }

  /** A bulk capture in the country's own turn pays and charges exactly for its cells. */
  lemma CapturePays(t: Atlas, s: State, cells: seq<nat>, country: nat)
    requires Books(t, s) && country in s.countries && forall k :: 0 <= k < |cells| ==> cells[k] < |s.owners|
    ensures
      var r := Captured(t, s, cells, country, TriggerOf(s, country));
      OnlyWins(s, r, country) && Rewarded(s, r, country) && Charges(s, r, country) && Taken(t, s.owners, r.owners, Cells(cells), country)
  {
    hide TakeAll, Taken, Tallied, Covers, Owned, Won, Ceded, SettleLosers, Hoisted, OnlyWins, Rewarded, Charges;
    var h := TakeAll(t, s.owners, s.queue, cells, country);
    HaulOwners(t, s.owners, s.queue, cells, country);
    HaulIsTallied(t, s.owners, s.queue, cells, country);
    TallyBox(t, s.owners, h, country);
    if h.taken == 0 {
      NothingPays(s, country);
    } else {
      SettledCharges(t, s, h, Cells(cells), country, TriggerOf(s, country));
      SettledIsCharged(t, s, h, Cells(cells), country, TriggerOf(s, country));
    }
  }

  lemma TallyBox(t: Atlas, owners: seq<nat>, h: Haul, country: nat)
    requires |h.owners| == |owners| && Tallied(t, owners, h, country)
    ensures (h.taken > 0 <==> h.box.Some?) && (h.taken == 0 ==> h.owners == owners)
  {
    hide Owned;
  }

  lemma NothingPays(s: State, country: nat)
    ensures OnlyWins(s, s, country) && Rewarded(s, s, country) && Charges(s, s, country)
  {
    hide Held, Owned;
    assert Won(s.owners, s.owners, country) == {};
    assert forall o :: Ceded(s.owners, s.owners, o) == {};
  }

  // ----- one turn of the pass -----

  /** The country whose turn it is has candidates queued and land of its own. */
  predicate Plays(s: State)
    requires s.cursor < |s.changed|
  {
    var c := s.changed[s.cursor];
    c in s.queue && c in s.countries && s.countries[c].count != 0
  }

  /** In its turn a country wins exactly the land it encloses. */
  ghost predicate WinsEnclosed(t: Atlas, s: State, r: State)
    requires |t.land| == |s.owners| == |r.owners| && s.cursor < |s.changed|
  {
    var c := s.changed[s.cursor];
    Won(s.owners, r.owners, c) == set cell | cell in Enclosed(t.g, s.owners, c) && Plays(s) && t.land[cell]
  }

  lemma TurnPays(t: Atlas, s: State)
    requires Inv(t, s) && s.cursor < |s.changed|
    ensures
      var r, c := PlainStep(t, s), s.changed[s.cursor];
      OnlyWins(s, r, c) && Rewarded(s, r, c) && Charges(s, r, c) && WinsEnclosed(t, s, r)
  {
    hide Covers, Owned, StartsOnBoard, Attended, Captured, Listing, Rewarded, Charges, Won, Held, Enclosed;
    var r, c := PlainStep(t, s), s.changed[s.cursor];
    if Plays(s) {
      var due := s.(cursor := s.cursor + 1, queue := s.queue[c := Whole]);
      var cells := Listing(Enclosed(t.g, s.owners, c), t.g.Size());
      EntriesAreMembers(cells, t.g.Size());
      ListingIsWhole(t.g, s.owners, c);
      SameBooks(t, s, due);
      CapturePays(t, due, cells, c);
      SamePay(s, due, r, c);
      TakenIsWon(t, s.owners, r.owners, c);
    } else {
      NothingPays(r, c);
      SamePay(s, r, r, c);
      assert Won(s.owners, s.owners, c) == {} by { NothingWon(s.owners, c); }
    }
  }

  /** What one turn of the pass makes of the world. */
  ghost predicate TurnIsPaid(t: Atlas, s: State, r: State) {
    s.cursor < |s.changed| && |t.land| == |s.owners| == |r.owners| && OnlyWins(s, r, s.changed[s.cursor]) &&
    Rewarded(s, r, s.changed[s.cursor]) && Charges(s, r, s.changed[s.cursor]) && WinsEnclosed(t, s, r)
  }

  lemma StepIsPaid(t: Atlas, s: State)
    requires Inv(t, s) && s.cursor < |s.changed|
    ensures t.Valid() && |s.owners| == t.g.Size() && TurnIsPaid(t, s, PlainStep(t, s))
  {
    TurnPays(t, s);
    InvCursor(t, s);
    hide PlainStep, Rewarded, Charges, WinsEnclosed, Inv;
  }

  lemma NothingWon(owners: seq<nat>, c: nat)
    ensures Won(owners, owners, c) == {}
  {
  }

  lemma SameBooks(t: Atlas, s: State, a: State)
    requires Books(t, s) && a == s.(cursor := a.cursor, queue := a.queue)
    ensures Books(t, a)
  {
    hide Covers, Owned;
  }

  lemma SamePay(s: State, a: State, r: State, c: nat)
    requires |r.owners| == |s.owners| && a == s.(cursor := a.cursor, queue := a.queue)
    requires OnlyWins(a, r, c) && Rewarded(a, r, c) && Charges(a, r, c)
    ensures OnlyWins(s, r, c) && Rewarded(s, r, c) && Charges(s, r, c)
  {
    hide Won, Ceded, Owned;
    forall o
      ensures Held(a, o) <==> Held(s, o)
    {
      HeldDependsOnPlayers(a, s, o);
    }
    hide Held;
  }

  lemma TakenIsWon(t: Atlas, owners: seq<nat>, after: seq<nat>, c: nat)
    requires |owners| == t.g.Size() && Taken(t, owners, after, Enclosed(t.g, owners, c), c)
    ensures |after| == |owners| == |t.land|
    ensures Won(owners, after, c) == set cell | cell in Enclosed(t.g, owners, c) && t.land[cell]
  {
    hide Escapes;
  }

  // ----- the whole pass -----

  /** The cells won, turn by turn, for countries whose captures are credited to a player. */
  ghost function Winnings(t: Atlas, s: State, id: string): nat
    requires Inv(t, s)
    decreases TurnsLeft(s)
  {
    if s.cursor == |s.changed| then 0
    else
      PlainStepKeepsInv(t, s);
      var r, c := PlainStep(t, s), s.changed[s.cursor];
      (if Credits(s, c, id) then |Won(s.owners, r.owners, c)| else 0) + Winnings(t, r, id)
  }

  /** The cells a country cedes, turn by turn, to countries with a trigger recorded. */
  ghost function Forfeits(t: Atlas, s: State, o: nat): nat
    requires Inv(t, s)
    decreases TurnsLeft(s)
  {
    if s.cursor == |s.changed| then 0
    else
      PlainStepKeepsInv(t, s);
      var r, c := PlainStep(t, s), s.changed[s.cursor];
      (if c in s.triggers then |Ceded(s.owners, r.owners, o)| else 0) + Forfeits(t, r, o)
  }

  /** Captured totals and roster marks after a pass. */
  ghost predicate PaidOut(t: Atlas, s: State, r: State)
    requires Inv(t, s)
  {
    r.players.Keys == s.players.Keys && s.dirtyPlayers <= r.dirtyPlayers && s.cuePlayers <= r.cuePlayers &&
    forall id :: id in s.players ==>
      var n := Winnings(t, s, id);
      r.players[id] == s.players[id].(captured := s.players[id].captured + n) &&
      (n > 0 ==> id in r.dirtyPlayers && (s.players[id].isBot || id in r.cuePlayers))
  }

  /** Lost totals and cues after a pass. */
  ghost predicate ChargedOut(t: Atlas, s: State, r: State)
    requires Inv(t, s)
  {
    r.countries.Keys <= s.countries.Keys && s.cueCountries <= r.cueCountries &&
    forall o :: o in r.countries ==>
      var n := Forfeits(t, s, o);
      r.countries[o] == s.countries[o].(count := r.countries[o].count, lost := s.countries[o].lost + n) &&
      (n > 0 ==> s.countries[o].isBot || o in r.cueCountries)
  }

  /** A pass pays each player for all the cells won in its name, and charges each country
      that is left for all the cells it ceded to a player's closing move. */
  lemma {:induction false} PassPays(t: Atlas, s: State)
    requires Inv(t, s)
    ensures PaidOut(t, s, PlainPass(t, s)) && ChargedOut(t, s, PlainPass(t, s))
    decreases TurnsLeft(s)
  {
    hide Inv, PlainStep, TurnsLeft, Won, Ceded, Held, Owned, Credits, Charges, Rewarded;
    InvCursor(t, s);
    if s.cursor < |s.changed| {
      var next, r := PlainStep(t, s), PlainPass(t, s);
      PlainStepKeepsInv(t, s);
      TurnPays(t, s);
      PassPays(t, next);
      TurnThenPassPays(t, s, next, r);
      TurnThenPassCharges(t, s, next, r);
    }
  }

  lemma TurnThenPassPays(t: Atlas, s: State, next: State, r: State)
    requires Inv(t, s) && s.cursor < |s.changed| && next == PlainStep(t, s) && Inv(t, next)
    requires OnlyWins(s, next, s.changed[s.cursor]) && Rewarded(s, next, s.changed[s.cursor]) && PaidOut(t, next, r)
    ensures PaidOut(t, s, r)
  {
    hide Inv, PlainStep, TurnsLeft, Won;
  }

  lemma TurnThenPassCharges(t: Atlas, s: State, next: State, r: State)
    requires Inv(t, s) && s.cursor < |s.changed| && next == PlainStep(t, s) && Inv(t, next)
    requires OnlyWins(s, next, s.changed[s.cursor]) && Charges(s, next, s.changed[s.cursor]) && ChargedOut(t, next, r)
    ensures ChargedOut(t, s, r)
  {
    hide Inv, PlainStep, TurnsLeft, Held, Owned, Ceded;
  }

  /** Whoever closed nothing in a tick is paid nothing. */
  lemma {:induction false} NoTriggerNoPay(t: Atlas, s: State, id: string)
    requires Inv(t, s) && forall c :: c in s.triggers ==> s.triggers[c] != id
    ensures Winnings(t, s, id) == 0
    decreases TurnsLeft(s)
  {
    hide Inv, PlainStep, TurnsLeft, Rewarded, Charges, Won;
    InvCursor(t, s);
    if s.cursor < |s.changed| {
      PlainStepKeepsInv(t, s);
      TurnPays(t, s);
      NoTriggerNoPay(t, PlainStep(t, s), id);
    }
  }

  /** Nothing of one tick is left for the next pass: no list, no queue, nobody to credit. */
  predicate Rests(s: State) {
    s.changed == [] && s.cursor == 0 && s.queue == map[] && s.triggers == map[]
  }

  /** What a whole pass makes of the world. */
  ghost predicate PassIsPaid(t: Atlas, s: State, r: State) {
    Inv(t, s) && PaidOut(t, s, r) && ChargedOut(t, s, r) && Rests(r)
  }

  lemma ClearedIsPaid(t: Atlas, s: State)
    requires Inv(t, s)
    ensures PassIsPaid(t, s, Cleared(PlainPass(t, s)))
  {
    hide Inv, PlainPass, Winnings, Forfeits;
    PassPays(t, s);
  }

  lemma InvShape(t: Atlas, s: State)
    requires Settled(t, s)
    ensures Inv(t, s)
  {
  }

  /** A tick pays and charges for its pass, and starts the next tick with a clean slate. */
  lemma TickPays(t: Atlas, s: State, events: seq<Event>)
    requires Settled(t, s) && Tick(t, s, events).Some?
    ensures
      var q, r := Play(t, s, events), Tick(t, s, events).value;
      q.Some? && Inv(t, q.value) && PaidOut(t, q.value, r) && ChargedOut(t, q.value, r) && Rests(r)
  {
    hide Settled, Inv, Play, PlainPass, Winnings, Forfeits;
    PlayKeepsSettled(t, s, events);
    var q := Play(t, s, events).value;
    InvShape(t, q);
    PassPays(t, q);
  }

  // ----- the marks of player rows -----

  /** What a player's roster row shows. */
  predicate SameRow(p: Player, q: Player) {
    p.country == q.country && p.isBot == q.isBot && p.lastX == q.lastX && p.lastY == q.lastY && p.captured == q.captured
  }

  /** Every player whose row is new, gone or different is marked, and no mark is lost. */
  ghost predicate RostersMarked(s: State, a: State) {
    s.dirtyPlayers <= a.dirtyPlayers &&
    (forall id :: id in s.players && id in a.players && !SameRow(s.players[id], a.players[id]) ==> id in a.dirtyPlayers) &&
    forall id :: (id in s.players) != (id in a.players) ==> id in a.dirtyPlayers
  }

  lemma RostersTwice(s: State, m: State, a: State)
    requires RostersMarked(s, m) && RostersMarked(m, a)
    ensures RostersMarked(s, a)
  {
  }

  lemma MoveKeepsMarks(t: Atlas, s: State, id: string, d: Direction)
    requires t.Valid() && |s.owners| == t.g.Size() && s.cursor == 0 && id in s.players && OnMap(t.g, s.players[id])
    ensures s.dirtyPlayers <= Move(t, s, id, d).dirtyPlayers
  {
    hide Painted, CellAt, StepCost, WrapX, StepX, StepY;
    var p := s.players[id];
    var x, y := WrapX(t.g.width, p.x + StepX(d)), p.y + StepY(d);
    if !d.Idle? && 0 <= y < t.g.height {
      Moves.SteppedShape(t, s, id, x, y);
      Moves.PaintedPlayers(t, Stepped(t, s, id, x, y), CellAt(t.g, x, y), p.country, id);
    }
  }

  lemma MoveMarksRoster(t: Atlas, s: State, id: string, d: Direction)
    requires t.Valid() && |s.owners| == t.g.Size() && s.cursor == 0 && id in s.players && OnMap(t.g, s.players[id])
    ensures RostersMarked(s, Move(t, s, id, d))
  {
    hide Move, Moves.Fare, Moves.Paintable, CellAt, Moves.Heading, Moves.ChunkAt;
    var p := s.players[id];
    Moves.MoveIsMove(t, s, id, d);
    Moves.HeadingOnMap(t.g, p.x, p.y, d);
    MoveKeepsMarks(t, s, id, d);
  }

  lemma EventMarksRoster(t: Atlas, s: State, e: Event)
    requires Settled(t, s) && Allowed(t, s, e)
    ensures RostersMarked(s, Apply(t, s, e))
  {
    hide Settled, Move, Joined, Departed, Founded;
    Moves.SettledShape(t, s);
    match e
    case Step(id, d) => MoveMarksRoster(t, s, id, d);
    case Arrive(id, country, isBot, x, y) => Moves.ArrivalStands(t, s, id, country, isBot, x, y);
    case Leave(id) => Moves.DepartureRemoves(s, id);
    case Create(country, color, isBot) => Moves.FoundingAdds(s, country, color, isBot);
  }

  lemma {:induction false} PlayMarksRosters(t: Atlas, s: State, events: seq<Event>)
    requires Settled(t, s) && Play(t, s, events).Some?
    ensures RostersMarked(s, Play(t, s, events).value)
    decreases |events|
  {
    hide Settled, Apply, Allowed, RostersMarked;
    if events == [] {
      assert RostersMarked(s, s) by { NoRosterChanged(s); }
    } else {
      var next := Apply(t, s, events[0]);
      EventKeepsSettled(t, s, events[0]);
      EventMarksRoster(t, s, events[0]);
      PlayMarksRosters(t, next, events[1..]);
      RostersTwice(s, next, Play(t, s, events).value);
    }
  }

  lemma NoRosterChanged(s: State)
    ensures RostersMarked(s, s)
  {
  }

  lemma PaidAreMarked(t: Atlas, s: State, r: State)
    requires Inv(t, s) && PaidOut(t, s, r)
    ensures RostersMarked(s, r)
  {
    hide Inv, Winnings;
  }

  /** Whatever row of a player a tick changes, adds or removes, it marks. */
  lemma TickMarksRosters(t: Atlas, s: State, events: seq<Event>)
    requires Settled(t, s) && Tick(t, s, events).Some?
    ensures RostersMarked(s, Tick(t, s, events).value)
  {
    hide Settled, Inv, Play, Tick, PaidOut, ChargedOut, RostersMarked;
    TickPays(t, s, events);
    var q, r := Play(t, s, events).value, Tick(t, s, events).value;
    PlayMarksRosters(t, s, events);
    PaidAreMarked(t, q, r);
    RostersTwice(s, q, r);
  }

  // ----- whom a closing move is credited to -----

  /** Only the claimant's own entry can change, and only to the mover. */
  ghost predicate Recorded(s: State, a: State, country: nat, mover: Trigger) {
    a.triggers == s.triggers || (Named(mover) && a.triggers == s.triggers[country := mover.value])
  }

  lemma LossKeepsTriggers(t: Atlas, s: State, owner: nat, cell: nat, fromFill: bool, mover: Trigger)
    requires |s.owners| == t.g.Size() && cell < |s.owners|
    ensures Loss(t, s, owner, cell, fromFill, mover).triggers == s.triggers
  {
    hide StraightExit, Queued, Add, Without, Held;
  }

  lemma ClaimTriggers(t: Atlas, s: State, cell: nat, country: nat, fromFill: bool, mover: Trigger)
    requires t.Valid() && |s.owners| == t.g.Size() && cell < |s.owners| && t.land[cell] && s.owners[cell] != country
    ensures
      var moved := s.(owners := s.owners[cell := country], bounds := Extended(t.g, s.bounds, country, cell),
                      changed := Add(s.changed, country));
      Claim(t, s, cell, country, fromFill, mover).triggers == Candidates(t, moved, cell, country, mover).triggers
  {
    hide Candidates, Extended, Add, Loss, Row, Col, At, Counted;
    ClaimIsBookedThenLost(t, s, cell, country, fromFill, mover);
    BookedOwners(t, s, cell, country, fromFill, mover);
    var b := Booked(t, s, cell, country, fromFill, mover);
    if s.owners[cell] != 0 {
      LossKeepsTriggers(t, b, s.owners[cell], cell, fromFill, mover);
    }
  }

  lemma ClaimRecords(t: Atlas, s: State, cell: nat, country: nat, fromFill: bool, mover: Trigger)
    requires t.Valid() && |s.owners| == t.g.Size() && cell < |s.owners|
    ensures Recorded(s, Claim(t, s, cell, country, fromFill, mover), country, mover)
  {
    hide Gate, QueuedAll, RingCells, Extended, Add, Claim;
    if t.land[cell] && s.owners[cell] != country {
      ClaimTriggers(t, s, cell, country, fromFill, mover);
    } else {
      ClaimIsNothing(t, s, cell, country, fromFill, mover);
    }
  }

  /** A claim that shuts in a cell that could still get out is credited to its mover, as long
      as the country's search has not yet overflowed into a whole-country one. */
  lemma ClosingIsCredited(t: Atlas, s: State, cell: nat, country: nat, mover: Trigger, p: nat)
    requires Books(t, s) && cell < |s.owners| && t.land[cell] && s.owners[cell] != country && country in s.countries
    requires !(country in s.queue && s.queue[country].Whole?) && Named(mover)
    requires p != cell && Escapes(t.g, Free(s.owners, country), p)
    requires !Escapes(t.g, Free(s.owners[cell := country], country), p)
    ensures
      var a := Claim(t, s, cell, country, false, mover);
      country in a.triggers && a.triggers[country] == mover.value
  {
    hide Gate, QueuedAll, RingCells, Extended, Add, Claim, Escapes, Covers;
    ClaimTriggers(t, s, cell, country, false, mover);
    ClaimedBoxCovers(t, s, cell, country);
    var more := Extended(t.g, s.bounds, country, cell);
    if Gate(t.g, s.owners[cell := country], country, cell, more[country]).None? {
      SilentGateCutsNothing(t.g, s.owners, country, cell, more[country], p);
    }
  }

  // ----- a closing move in a sealed world -----

  /** The country's turn is over, or it is gone: it will not be visited again in this pass. */
  predicate Past(s: State, c: nat)
    requires s.cursor <= |s.changed|
  {
    c !in s.changed[s.cursor..] && (c in s.changed[..s.cursor] || c !in s.countries)
  }

  lemma NotedKeepsPast(s: State, a: State, o: nat, c: nat)
    requires s.cursor <= |s.changed| && Past(s, c) && o in s.countries && a.countries.Keys == s.countries.Keys
    requires a.cursor == s.cursor && a.changed == Add(s.changed, o)
    ensures a.cursor <= |a.changed| && Past(a, c)
  {
    assert s.changed == s.changed[..s.cursor] + s.changed[s.cursor..];
    if o !in s.changed {
      assert a.changed[..s.cursor] == s.changed[..s.cursor];
      assert a.changed[s.cursor..] == s.changed[s.cursor..] + [o];
    }
  }

  lemma DeletedKeepsPast(s: State, o: nat, c: nat)
    requires s.cursor <= |s.changed| && Past(s, c)
    ensures Deleted(s, o).cursor <= |Deleted(s, o).changed| && Past(Deleted(s, o), c)
  {
    hide Without, Held;
    DeletedKeepsPlace(s, o);
    var before, after := s.changed[..s.cursor], s.changed[s.cursor..];
    assert s.changed == before + after;
    WithoutIs(s.changed, o);
    var d := Deleted(s, o);
    if d != s && c == o {
      assert forall k :: 0 <= k < |d.changed[d.cursor..]| ==> d.changed[d.cursor..][k] in d.changed;
    }
  }

  lemma SettleKeepsPast(s: State, o: nat, m: nat, mover: Trigger, c: nat)
    requires s.cursor <= |s.changed| && Past(s, c) && o in s.countries
    ensures SettleLoser(s, o, m, mover).cursor <= |SettleLoser(s, o, m, mover).changed| && Past(SettleLoser(s, o, m, mover), c)
  {
    hide Deleted, Add, Charge, Past;
    var listed := Noted(Charge(s, o, m, true, mover), o);
    ChargedAndNoted(s, o, m, mover);
    NotedKeepsPast(s, listed, o, c);
    DeletedKeepsPast(listed, o, c);
  }

  lemma {:induction false} SettlingKeepsPast(s: State, losers: seq<nat>, losses: map<nat, nat>, mover: Trigger, c: nat)
    requires s.cursor <= |s.changed| && Past(s, c) && forall o :: o in losers ==> o in s.countries
    requires forall i, j :: 0 <= i < j < |losers| ==> losers[i] != losers[j]
    ensures
      var a := SettleLosers(s, losers, losses, mover);
      a.cursor <= |a.changed| && Past(a, c)
    decreases |losers|
  {
    hide SettleLoser, Past;
    if losers != [] {
      var n := |losers| - 1;
      SettlingKeepsPast(s, losers[..n], losses, mover, c);
      assert losers[n] in losers && losers[n] !in losers[..n];
      SettledFacts(s, losers[..n], losses, mover, losers[n]);
      SettleKeepsPast(SettleLosers(s, losers[..n], losses, mover), losers[n], LossOf(losses, losers[n]), mover, c);
    }
  }

  lemma CaptureKeepsPast(t: Atlas, s: State, cells: seq<nat>, country: nat, mover: Trigger, c: nat)
    requires Books(t, s) && s.cursor <= |s.changed| && country in s.countries && country in s.changed
    requires (forall k :: 0 <= k < |cells| ==> cells[k] < |s.owners|) && Past(s, c)
    ensures
      var a := Captured(t, s, cells, country, mover);
      a.cursor <= |a.changed| && Past(a, c)
  {
    hide Covers, Owned, Hoisted, SettleLosers, TakeAll, Past, Tallied;
    var h := TakeAll(t, s.owners, s.queue, cells, country);
    HaulIsTallied(t, s.owners, s.queue, cells, country);
    TallyBox(t, s.owners, h, country);
    if h.taken != 0 {
      HoistedFields(s, h, country, mover);
      TallyLists(t, s.owners, h, country);
      LosersHadCells(t, s, h, country);
      HoistedKeepsPast(s, Hoisted(s, h, country, mover), c);
      SettlingKeepsPast(Hoisted(s, h, country, mover), h.losers, h.losses, mover, c);
    }
  }

  lemma LosersHadCells(t: Atlas, s: State, h: Haul, country: nat)
    requires Books(t, s) && |h.owners| == |s.owners| && Tallied(t, s.owners, h, country)
    ensures forall o :: o in h.losers ==> o in s.countries
  {
    LosersAreLive(t, s, h, country);
  }

  lemma HoistedKeepsPast(s: State, y: State, c: nat)
    requires s.cursor <= |s.changed| && Past(s, c)
    requires y.cursor == s.cursor && y.changed == s.changed && y.countries.Keys == s.countries.Keys
    ensures Past(y, c)
  {
  }

  lemma TurnKeepsPast(t: Atlas, s: State, c: nat)
    requires Inv(t, s) && s.cursor < |s.changed| && Past(s.(cursor := s.cursor + 1), c)
    ensures PlainStep(t, s).cursor <= |PlainStep(t, s).changed| && Past(PlainStep(t, s), c)
  {
    hide Covers, Owned, Captured, Listing, Enclosed, Attended, StartsOnBoard, Past;
    var cc := s.changed[s.cursor];
    if Plays(s) {
      var due := s.(cursor := s.cursor + 1, queue := s.queue[cc := Whole]);
      var cells := Listing(Enclosed(t.g, s.owners, cc), t.g.Size());
      EntriesAreMembers(cells, t.g.Size());
      SameBooks(t, s, due);
      HoistedKeepsPast(s.(cursor := s.cursor + 1), due, c);
      CaptureKeepsPast(t, due, cells, cc, TriggerOf(s, cc), c);
    }
  }

  lemma PastStaysPast(s: State, c: nat)
    requires s.cursor < |s.changed| && Past(s, c)
    ensures Past(s.(cursor := s.cursor + 1), c) && s.changed[s.cursor] != c
  {
    assert s.changed[s.cursor..] == [s.changed[s.cursor]] + s.changed[s.cursor + 1..];
    assert s.changed[..s.cursor + 1] == s.changed[..s.cursor] + [s.changed[s.cursor]];
  }

  /** Nobody is paid again once the country played for has had its turn. */
  lemma {:induction false} OnePayday(t: Atlas, s: State, id: string, c: nat)
    requires Inv(t, s) && s.triggers.Keys <= {c} && s.cursor <= |s.changed| && Past(s, c)
    ensures Winnings(t, s, id) == 0
    decreases TurnsLeft(s)
  {
    hide Inv, PlainStep, TurnsLeft, Rewarded, Charges, Won, Past;
    InvCursor(t, s);
    if s.cursor < |s.changed| {
      PlainStepKeepsInv(t, s);
      TurnPays(t, s);
      PastStaysPast(s, c);
      TurnKeepsPast(t, s, c);
      OnePayday(t, PlainStep(t, s), id, c);
    }
  }

  /** The land the country now encloses. */
  ghost function Pocketed(t: Atlas, owners: seq<nat>, country: nat): set<nat>
    requires |t.land| == |owners|
  {
    set cell | cell in Enclosed(t.g, owners, country) && t.land[cell]
  }

  lemma ClaimLists(t: Atlas, s: State, cell: nat, country: nat, mover: Trigger)
    requires t.Valid() && |s.owners| == t.g.Size() && cell < |s.owners| && t.land[cell] && s.owners[cell] != country
    requires s.changed == [] && s.cursor == 0
    ensures
      var a := Claim(t, s, cell, country, false, mover);
      a.cursor == 0 && a.changed != [] && a.changed[0] == country && country !in a.changed[1..]
  {
    hide Candidates, Extended, Row, Col, At, Counted, Gain, Loss, Booked;
    ClaimIsBookedThenLost(t, s, cell, country, false, mover);
    BookedLists(t, s, cell, country, mover);
    BookedOwners(t, s, cell, country, false, mover);
    if s.owners[cell] != 0 {
      LossLists(t, Booked(t, s, cell, country, false, mover), s.owners[cell], cell, country, mover);
    }
  }

  lemma BookedLists(t: Atlas, s: State, cell: nat, country: nat, mover: Trigger)
    requires t.Valid() && |s.owners| == t.g.Size() && cell < |s.owners| && s.changed == [] && s.cursor == 0
    ensures Booked(t, s, cell, country, false, mover).changed == [country] && Booked(t, s, cell, country, false, mover).cursor == 0
  {
    hide Candidates, Extended, Row, Col, At, Counted;
    var moved := s.(owners := s.owners[cell := country], bounds := Extended(t.g, s.bounds, country, cell),
                    changed := Add(s.changed, country));
    CandidatesFields(t, moved, cell, country, mover);
  }

  lemma LossLists(t: Atlas, s: State, owner: nat, cell: nat, country: nat, mover: Trigger)
    requires |s.owners| == t.g.Size() && cell < |s.owners| && s.changed == [country] && s.cursor == 0 && owner != country
    ensures
      var l := Loss(t, s, owner, cell, false, mover);
      l.cursor == 0 && l.changed != [] && l.changed[0] == country && country !in l.changed[1..]
  {
    hide StraightExit, Queued, Held, Debited, Without;
    WithoutSplits([country], [owner], owner);
    WithoutIs([country], owner);
    WithoutIs([owner], owner);
    WithoutNone(owner);
    assert [country] + [owner] == [country, owner];
  }

  lemma WithoutNone(o: nat)
    ensures Without([], o) == [] && Without([o], o) == []
  {
  }

  /** After a claim that shuts land in, the claimant plays first and its mover is credited. */
  lemma PocketIsCredited(t: Atlas, s: State, cell: nat, country: nat, id: string)
    requires Settled(t, s) && Rests(s) && Sealed(t, s.owners) && cell < |s.owners| && t.land[cell] && s.owners[cell] != country
    requires country in s.countries && id in s.players && id != "" && country != 0
    ensures
      var a := Claim(t, s, cell, country, false, Some(id));
      Inv(t, a) && |t.land| == |a.owners| && a.triggers.Keys <= {country} && a.cursor == 0 && a.changed != [] &&
      a.changed[0] == country && country !in a.changed[1..] &&
      (Pocketed(t, a.owners, country) != {} ==> Plays(a) && Credits(a, country, id))
  {
    hide Claim, Escapes, Covers, Reach, StartsOnBoard;
    var a := Claim(t, s, cell, country, false, Some(id));
    ClaimKeepsInv(t, s, cell, country, Some(id));
    ClaimLists(t, s, cell, country, Some(id));
    ClaimRecords(t, s, cell, country, false, Some(id));
    Moves.ClaimOwners(t, s, cell, country, false, Some(id));
    Moves.PlainClaimPaysNobody(t, s, cell, country, Some(id));
    assert cell in Owned(a.owners, country);
    if Pocketed(t, a.owners, country) != {} {
      var p: nat :| p in Pocketed(t, a.owners, country);
      assert Escapes(t.g, Free(s.owners, country), p);
      ClosingIsCredited(t, s, cell, country, Some(id), p);
      assert Attended(t, a, country) && !Safe(t, a.owners, country);
    }
  }

  lemma LiveCountry(t: Atlas, s: State, country: nat)
    requires Settled(t, s) && country in s.countries
    ensures country != 0 && t.Valid() && |s.owners| == t.g.Size()
  {
  }

  /** When one claim is all that happened since the last pass, the mover is paid for exactly
      the land its country now encloses. */
  lemma ClosingClaimPays(t: Atlas, s: State, cell: nat, country: nat, id: string)
    requires Settled(t, s) && Rests(s) && Sealed(t, s.owners) && cell < |s.owners| && t.land[cell] && s.owners[cell] != country
    requires country in s.countries && id in s.players && id != ""
    ensures
      var a := Claim(t, s, cell, country, false, Some(id));
      Inv(t, a) && |t.land| == |a.owners| && Winnings(t, a, id) == |Pocketed(t, a.owners, country)|
  {
    hide Settled, Inv, Claim, Sealed, Enclosed, TurnsLeft, PlainStep, Rewarded, Charges, Won, Plays, Credits, Past;
    LiveCountry(t, s, country);
    PocketIsCredited(t, s, cell, country, id);
    var a := Claim(t, s, cell, country, false, Some(id));
    InvCursor(t, a);
    PlainStepKeepsInv(t, a);
    TurnPays(t, a);
    assert Past(a.(cursor := 1), country) by { FirstIsPast(a, country); }
    TurnKeepsPast(t, a, country);
    OnePayday(t, PlainStep(t, a), id, country);
    TurnWinsPocket(t, a, PlainStep(t, a), country);
  }

  lemma FirstIsPast(a: State, country: nat)
    requires a.cursor == 0 && a.changed != [] && a.changed[0] == country && country !in a.changed[1..]
    ensures Past(a.(cursor := 1), country)
  {
    assert a.changed[..1] == [country];
  }

  lemma TurnWinsPocket(t: Atlas, a: State, r: State, country: nat)
    requires |t.land| == |a.owners| == |r.owners| && a.cursor == 0 && a.changed != [] && a.changed[0] == country
    requires WinsEnclosed(t, a, r) && (Pocketed(t, a.owners, country) != {} ==> Plays(a))
    ensures Won(a.owners, r.owners, country) == Pocketed(t, a.owners, country)
  {
    hide Enclosed, Plays, Won;
    if !Plays(a) {
      assert Won(a.owners, r.owners, country) == {};
    }
  }

  /** The player's next step is paid for and paints the cell it leads to. */
  ghost predicate StepPaints(t: Atlas, s: State, id: string, d: Direction, x: nat, y: nat)
    requires t.Valid() && |s.owners| == t.g.Size() && id in s.players && OnMap(t.g, s.players[id])
  {
    var p := s.players[id];
    Moves.Heading(t.g, p.x, p.y, d) == Some((x, y)) && x < t.g.width && y < t.g.height &&
    p.credit + 1 >= Moves.Fare(t, s, p, x, y) && Moves.Paintable(t, s.owners, CellAt(t.g, x, y), p.country)
  }

  lemma SteppedShape(t: Atlas, s: State, id: string, x: nat, y: nat)
    requires Settled(t, s) && Rests(s) && id in s.players && x < t.g.width && y < t.g.height && OnMap(t.g, s.players[id])
    ensures
      var a, p := Stepped(t, s, id, x, y), s.players[id];
      Settled(t, a) && Rests(a) && a.owners == s.owners && a.countries == s.countries && id in a.players &&
      a.players[id].captured == p.captured && p.country in s.countries
  {
    hide Inv, Row, Col, At;
    LivePlayers(t, s);
    StepKeepsSettled(t, s, id, x, y);
  }

  lemma PaintingStep(t: Atlas, s: State, id: string, d: Direction, x: nat, y: nat)
    requires t.Valid() && |s.owners| == t.g.Size() && id in s.players && OnMap(t.g, s.players[id]) && StepPaints(t, s, id, d, x, y)
    ensures
      var p, cell := s.players[id], CellAt(t.g, x, y);
      t.land[cell] && s.owners[cell] != p.country && |Stepped(t, s, id, x, y).owners| == |s.owners| &&
      Move(t, s, id, d) == Claim(t, Stepped(t, s, id, x, y), cell, p.country, false, Some(id))
  {
    hide Claim, CellAt, Surrounded, Moves.Ringed, StepCost, WrapX, StepX, StepY;
    var p := s.players[id];
    Moves.HeadingLeads(t.g, p.x, p.y, d);
    Moves.SteppedShape(t, s, id, x, y);
    Moves.SurroundedIsRinged(t.g, s.owners, CellAt(t.g, x, y), p.country);
  }

  lemma OneEvent(t: Atlas, s: State, e: Event)
    requires Settled(t, s) && Allowed(t, s, e)
    ensures Settled(t, Apply(t, s, e)) && Play(t, s, [e]) == Some(Apply(t, s, e))
  {
    hide Settled, Apply, Allowed;
    EventKeepsSettled(t, s, e);
    assert [e][1..] == [];
  }

  /** The rule of the game: a painting step that is all that happens in a tick captures, for
      the player who took it, exactly the land that its country encloses once the step is
      painted. */
  lemma ClosingMovePays(t: Atlas, s: State, id: string, d: Direction, x: nat, y: nat)
    requires Settled(t, s) && Rests(s) && Sealed(t, s.owners) && id in s.players && id != "" && OnMap(t.g, s.players[id])
    requires t.Valid() && |s.owners| == t.g.Size() && x < t.g.width && y < t.g.height && StepPaints(t, s, id, d, x, y)
    ensures
      var r, p := Tick(t, s, [Step(id, d)]), s.players[id];
      var painted := s.owners[CellAt(t.g, x, y) := p.country];
      r.Some? && id in r.value.players && r.value.players[id].captured == p.captured + |Pocketed(t, painted, p.country)|
  {
    hide Settled, Sealed, Claim, CellAt, StepPaints, Stepped, Pocketed, Winnings, Forfeits, PlainPass, Move, ChargedOut, Rests;
    var p, cell, e := s.players[id], CellAt(t.g, x, y), Step(id, d);
    var a := Stepped(t, s, id, x, y);
    SteppedShape(t, s, id, x, y);
    PaintingStep(t, s, id, d, x, y);
    OneEvent(t, s, e);
    TickPays(t, s, [e]);
    ClosingClaimPays(t, a, cell, p.country, id);
    Moves.ClaimOwners(t, a, cell, p.country, false, Some(id));
    RestsAtStart(a);
    Moves.PlainClaimPaysNobody(t, a, cell, p.country, Some(id));
  }

  lemma RestsAtStart(s: State)
    requires Rests(s)
    ensures s.cursor == 0
  {
  }
}
