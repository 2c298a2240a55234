/** What a move, an arrival, a departure and a claim do, said by coordinates and owners.

    The laws here name none of the functions that carry a move out, except in what they are
    laws of. */
module Moves {
  import opened Basics
  import opened Grid
  import opened Enclosure
  import opened Territory
  import opened Claims
  import opened Capture
  import opened Pass
  import opened Rounds

  // ----- what a step costs -----

  /** The four prices of land and water, and the surcharge of the shore. */
  lemma StepCostIs(land: seq<bool>, country: nat, from: nat, to: nat, owner: nat)
    requires from < |land| && to < |land|
    ensures
      var shore := land[from] != land[to];
      StepCost(land, country, from, to, owner) ==
        if land[to] && owner != 0 && owner == country then (if shore then 7 else 1)
        else if land[to] && owner != 0 then (if shore then 10 else 4)
        else if shore then 8 else 2
  {
  }

  /** Own land is the cheapest to enter, then land of nobody and water, then an enemy's; and
      the shore costs the same on top, whatever lies beyond it. */
  lemma StepCostsAscend(land: seq<bool>, country: nat, from: nat, to: nat, enemy: nat)
    requires from < |land| && to < |land| && land[to] && country != 0 && enemy != 0 && enemy != country
    ensures 0 < StepCost(land, country, from, to, country) < StepCost(land, country, from, to, 0)
    ensures StepCost(land, country, from, to, 0) < StepCost(land, country, from, to, enemy)
    ensures forall inland, owner {:trigger StepCost(land, country, inland, to, owner)} ::
      0 <= inland < |land| && land[inland] && !land[from] && 0 <= owner ==>
      StepCost(land, country, from, to, owner) == StepCost(land, country, inland, to, owner) + 6
  {
  }

  // ----- where a heading leads -----

  /** The cell ahead: columns wrap around the seam, and nothing lies beyond the poles. */
  function Heading(g: Board, x: nat, y: nat, d: Direction): Option<(nat, nat)>
    requires x < g.width && y < g.height
  {
    match d
    case Idle => None
    case Up => if y == 0 then None else Some((x, y - 1))
    case Down => if y == g.height - 1 then None else Some((x, y + 1))
    case Left => Some((if x == 0 then g.width - 1 else x - 1, y))
    case Right => Some((if x == g.width - 1 then 0 else x + 1, y))
  }

  lemma HeadingLeads(g: Board, x: nat, y: nat, d: Direction)
    requires x < g.width && y < g.height && !d.Idle?
    ensures
      var nx, ny := WrapX(g.width, x + StepX(d)), y + StepY(d);
      if ny < 0 || ny >= g.height then Heading(g, x, y, d).None? else Heading(g, x, y, d) == Some((nx, ny))
  {
  }

  // ----- which cell changes hands -----

  /** The cell and all around it are one enemy's, and it is not on the edge of the map. */
  ghost predicate Ringed(g: Board, owners: seq<nat>, cell: nat, country: nat)
    requires cell < |owners|
  {
    owners[cell] != 0 && owners[cell] != country && !OnEdge(g, cell) &&
    forall b :: 0 <= b < |owners| && Adjacent(g.width, cell, b) ==> owners[b] == owners[cell]
  }

  lemma SurroundedIsRinged(g: Board, owners: seq<nat>, cell: nat, country: nat)
    requires |owners| == g.Size() && cell < |owners|
    ensures Surrounded(g, owners, cell, country) <==> Ringed(g, owners, cell, country)
  {
    hide Row, Col;
    RowsAreBounded(g, cell);
    if Surrounded(g, owners, cell, country) {
      assert HasNeighbour(g, cell, 0) && HasNeighbour(g, cell, 4);
      forall b | 0 <= b < |owners| && Adjacent(g.width, cell, b)
        ensures owners[b] == owners[cell]
      {
        RingIsOwned(g, owners, cell, b, country);
      }
    }
    if Ringed(g, owners, cell, country) {
      forall i | 0 <= i < 8
        ensures HasNeighbour(g, cell, i) && owners[Neighbour(g, cell, i)] == owners[cell]
      {
        RingSteps(i);
        assert Adjacent(g.width, cell, Neighbour(g, cell, i));
      }
    }
  }

  lemma RingSteps(i: nat)
    requires i < 8
    ensures -1 <= RingX(i) <= 1 && -1 <= RingY(i) <= 1
  {
  }

  /** Land of another country, or of nobody, that its holder would not take straight back. */
  ghost predicate Paintable(t: Atlas, owners: seq<nat>, cell: nat, country: nat)
    requires cell < |owners| == |t.land|
  {
    t.land[cell] && owners[cell] != country && !Ringed(t.g, owners, cell, country)
  }

  lemma ClaimOwners(t: Atlas, s: State, cell: nat, country: nat, fromFill: bool, mover: Trigger)
    requires t.Valid() && |s.owners| == t.g.Size() && cell < |s.owners|
    ensures Claim(t, s, cell, country, fromFill, mover).owners ==
      if t.land[cell] then s.owners[cell := country] else s.owners
  {
    hide Claim, Booked, Loss;
    if t.land[cell] && s.owners[cell] != country {
      ClaimIsBookedThenLost(t, s, cell, country, fromFill, mover);
      BookedOwners(t, s, cell, country, fromFill, mover);
      if s.owners[cell] != 0 {
        LossKeepsOwners(t, Booked(t, s, cell, country, fromFill, mover), s.owners[cell], cell, fromFill, mover);
      }
    } else {
      ClaimIsNothing(t, s, cell, country, fromFill, mover);
    }
  }

  lemma PaintedOwners(t: Atlas, s: State, cell: nat, country: nat, id: string)
    requires t.Valid() && |s.owners| == t.g.Size() && cell < |s.owners|
    ensures Painted(t, s, cell, country, id).owners ==
      if Paintable(t, s.owners, cell, country) then s.owners[cell := country] else s.owners
  {
    hide Claim, Surrounded, Ringed;
    SurroundedIsRinged(t.g, s.owners, cell, country);
    ClaimOwners(t, s, cell, country, false, Some(id));
  }

  // ----- a move -----

  /** The ticks a player must have gathered to step onto its heading. */
  function Fare(t: Atlas, s: State, p: Player, x: nat, y: nat): nat
    requires t.Valid() && |s.owners| == t.g.Size() && OnMap(t.g, p) && x < t.g.width && y < t.g.height
  {
    StepCost(t.land, p.country, CellAt(t.g, p.x, p.y), CellAt(t.g, x, y), s.owners[CellAt(t.g, x, y)])
  }

  /** Nobody but one player is any different. */
  predicate OthersStand(s: State, id: string, a: State) {
    a.players.Keys == s.players.Keys && forall o :: o in s.players && o != id ==> a.players[o] == s.players[o]
  }

  /** The chunk a player stands in, and the chunk its roster row shows. */
  function ChunkAt(t: Atlas, x: nat, y: nat): int
    requires x < t.g.width && y < t.g.height
  {
    t.ChunkOf(CellAt(t.g, x, y))
  }

  /** The roster row of a player follows it from chunk to chunk, marked; within a chunk it
      stays where it was. */
  predicate RosterFollows(t: Atlas, p: Player, q: Player, marked: bool)
    requires OnMap(t.g, p) && OnMap(t.g, q)
  {
    if ChunkAt(t, q.x, q.y) != ChunkAt(t, p.x, p.y) then q.lastX == q.x && q.lastY == q.y && marked
    else q.lastX == p.lastX && q.lastY == p.lastY
  }

  /** Making for (x, y): the fare is gathered tick by tick; once it is paid the player stands
      there, with no credit left, and the cell is its country's if it can be painted. */
  ghost predicate IsAdvance(t: Atlas, s: State, id: string, x: nat, y: nat, a: State)
    requires t.Valid() && |s.owners| == t.g.Size() && id in s.players && OnMap(t.g, s.players[id]) && x < t.g.width && y < t.g.height
  {
    var p, cell := s.players[id], CellAt(t.g, x, y);
    id in a.players &&
    if p.credit + 1 < Fare(t, s, p, x, y) then a.owners == s.owners && a.players[id] == p.(credit := p.credit + 1)
    else
      a.players[id] == p.(x := x, y := y, credit := 0, lastX := a.players[id].lastX, lastY := a.players[id].lastY) &&
      RosterFollows(t, p, a.players[id], id in a.dirtyPlayers) &&
      a.owners == if Paintable(t, s.owners, cell, p.country) then s.owners[cell := p.country] else s.owners
  }

  /** What one move makes of the world: nobody else moves, at most the cell stepped on
      changes hands, and a pole costs the credit. */
  ghost predicate IsMove(t: Atlas, s: State, id: string, d: Direction, a: State)
    requires t.Valid() && |s.owners| == t.g.Size() && id in s.players && OnMap(t.g, s.players[id])
  {
    var p := s.players[id];
    var to := Heading(t.g, p.x, p.y, d);
    OthersStand(s, id, a) &&
    if d.Idle? then a == s
    else if to.None? then a.owners == s.owners && a.players[id] == p.(credit := 0)
    else IsAdvance(t, s, id, to.value.0, to.value.1, a)
  }

  lemma AdvanceIsAdvance(t: Atlas, s: State, id: string, x: nat, y: nat)
    requires t.Valid() && |s.owners| == t.g.Size() && id in s.players && OnMap(t.g, s.players[id]) && s.cursor == 0
    requires x < t.g.width && y < t.g.height
    ensures IsAdvance(t, s, id, x, y, Advanced(t, s, id, x, y)) && OthersStand(s, id, Advanced(t, s, id, x, y))
  {
    hide Painted, Stepped, Paintable, CellAt, StepCost;
    var p, stepped := s.players[id], Stepped(t, s, id, x, y);
    SteppedShape(t, s, id, x, y);
    PaintedOwners(t, stepped, CellAt(t.g, x, y), p.country, id);
    PaintedPlayers(t, stepped, CellAt(t.g, x, y), p.country, id);
    SteppedRoster(t, s, id, x, y);
  }

  lemma SteppedRoster(t: Atlas, s: State, id: string, x: nat, y: nat)
    requires id in s.players && OnMap(t.g, s.players[id]) && x < t.g.width && y < t.g.height
    ensures
      var r := Stepped(t, s, id, x, y);
      id in r.players && OnMap(t.g, r.players[id]) && RosterFollows(t, s.players[id], r.players[id], id in r.dirtyPlayers)
  {
    hide Row, Col, At, CellAt;
  }

  lemma SettledShape(t: Atlas, s: State)
    requires Settled(t, s)
    ensures t.Valid() && |s.owners| == t.g.Size() && s.cursor == 0 && forall id :: id in s.players ==> OnMap(t.g, s.players[id])
  {
  }

  /** A claim that is no fill pays nobody: no player changes. */
  lemma PlainClaimPaysNobody(t: Atlas, s: State, cell: nat, country: nat, mover: Trigger)
    requires t.Valid() && |s.owners| == t.g.Size() && cell < |s.owners| && s.cursor == 0
    ensures Claim(t, s, cell, country, false, mover).players == s.players
    ensures Claim(t, s, cell, country, false, mover).dirtyPlayers == s.dirtyPlayers
  {
    hide Claim, Booked, Loss;
    if t.land[cell] && s.owners[cell] != country {
      ClaimIsBookedThenLost(t, s, cell, country, false, mover);
      BookedPaysNobody(t, s, cell, country, mover);
      if s.owners[cell] != 0 {
        BookedKeepsPlayers(t, s, cell, country, false, mover);
        BookedOwners(t, s, cell, country, false, mover);
        LossKeepsPlayers(t, Booked(t, s, cell, country, false, mover), s.owners[cell], cell, false, mover);
        LossMarksNobody(t, Booked(t, s, cell, country, false, mover), s.owners[cell], cell, mover);
      }
    } else {
      ClaimIsNothing(t, s, cell, country, false, mover);
    }
  }

  lemma BookedPaysNobody(t: Atlas, s: State, cell: nat, country: nat, mover: Trigger)
    requires t.Valid() && |s.owners| == t.g.Size() && cell < |s.owners|
    ensures Booked(t, s, cell, country, false, mover).players == s.players
    ensures Booked(t, s, cell, country, false, mover).dirtyPlayers == s.dirtyPlayers
  {
    hide Candidates, Extended, Add, Row, Col, At, Counted;
    var moved := s.(owners := s.owners[cell := country], bounds := Extended(t.g, s.bounds, country, cell),
                    changed := Add(s.changed, country));
    CandidatesFields(t, moved, cell, country, mover);
  }

  lemma LossMarksNobody(t: Atlas, s: State, owner: nat, cell: nat, mover: Trigger)
    requires |s.owners| == t.g.Size() && cell < |s.owners|
    ensures Loss(t, s, owner, cell, false, mover).dirtyPlayers == s.dirtyPlayers
  {
    hide StraightExit, Queued, Add, Without, Held;
  }

  lemma PaintedPlayers(t: Atlas, s: State, cell: nat, country: nat, id: string)
    requires t.Valid() && |s.owners| == t.g.Size() && cell < |s.owners| && s.cursor == 0
    ensures Painted(t, s, cell, country, id).players == s.players && Painted(t, s, cell, country, id).dirtyPlayers == s.dirtyPlayers
  {
    hide Claim, Surrounded;
    PlainClaimPaysNobody(t, s, cell, country, Some(id));
  }

  lemma SteppedShape(t: Atlas, s: State, id: string, x: nat, y: nat)
    requires id in s.players && OnMap(t.g, s.players[id]) && x < t.g.width && y < t.g.height
    ensures
      var r, p := Stepped(t, s, id, x, y), s.players[id];
      r.owners == s.owners && r.cursor == s.cursor && r.players.Keys == s.players.Keys &&
      (forall o :: o in s.players && o != id ==> r.players[o] == s.players[o]) &&
      r.players[id] == p.(credit := 0, x := x, y := y, lastX := r.players[id].lastX, lastY := r.players[id].lastY)
  {
    hide Row, Col, At, CellAt;
  }

  /** Every move between two passes is one. */
  lemma MoveIsMove(t: Atlas, s: State, id: string, d: Direction)
    requires t.Valid() && |s.owners| == t.g.Size() && s.cursor == 0 && id in s.players && OnMap(t.g, s.players[id])
    ensures IsMove(t, s, id, d, Move(t, s, id, d))
  {
    hide Advanced, IsAdvance, WrapX, StepX, StepY, Heading;
    var p := s.players[id];
    if !d.Idle? {
      HeadingLeads(t.g, p.x, p.y, d);
      var x, y := WrapX(t.g.width, p.x + StepX(d)), p.y + StepY(d);
      if 0 <= y < t.g.height {
        AdvanceIsAdvance(t, s, id, x, y);
      }
    }
  }

  /** The same, for any two states. */
  ghost predicate Moves(t: Atlas, s: State, id: string, d: Direction, a: State) {
    t.Valid() && |s.owners| == t.g.Size() && id in s.players && OnMap(t.g, s.players[id]) && IsMove(t, s, id, d, a)
  }

  lemma SettledMoves(t: Atlas, s: State, id: string, d: Direction)
    requires Settled(t, s) && id in s.players
    ensures Moves(t, s, id, d, Move(t, s, id, d))
  {
    hide IsMove, Move, Settled;
    SettledShape(t, s);
    MoveIsMove(t, s, id, d);
  }

  // ----- arrivals and departures -----

  /** An arrival stands on its cell with nothing gathered and nothing captured, and on land
      the cell is its country's, whoever held it. */
  lemma ArrivalStands(t: Atlas, s: State, id: string, country: nat, isBot: bool, x: nat, y: nat)
    requires t.Valid() && |s.owners| == t.g.Size() && s.cursor == 0 && x < t.g.width && y < t.g.height
    ensures
      var a, cell := Joined(t, s, id, country, isBot, x, y), CellAt(t.g, x, y);
      a.players == s.players[id := Player(country, isBot, x, y, x, y, 0, 0)] && a.dirtyPlayers == s.dirtyPlayers + {id} &&
      a.owners == if t.land[cell] then s.owners[cell := country] else s.owners
  {
    hide Claim, CellAt;
    var arrived := s.(players := s.players[id := Player(country, isBot, x, y, x, y, 0, 0)], dirtyPlayers := s.dirtyPlayers + {id});
    ClaimOwners(t, arrived, CellAt(t.g, x, y), country, false, Some(id));
    PlainClaimPaysNobody(t, arrived, CellAt(t.g, x, y), country, Some(id));
  }

  /** Somebody else plays for the country. */
  predicate HeldWithout(players: map<string, Player>, id: string, country: nat) {
    exists o :: o in players && o != id && players[o].country == country
  }

  /** A departure moves nobody else and no border; the country goes with its last player if
      it has no land, and only then. */
  lemma DepartureRemoves(s: State, id: string)
    requires id in s.players
    ensures
      var a, c := Departed(s, id), s.players[id].country;
      a.players == s.players - {id} && a.dirtyPlayers == s.dirtyPlayers + {id} && a.owners == s.owners &&
      (forall o :: o != c ==> (o in a.countries <==> o in s.countries)) &&
      (forall o :: o in a.countries ==> o in s.countries && a.countries[o] == s.countries[o]) &&
      (c in s.countries ==> (c !in a.countries <==> s.countries[c].count == 0 && !HeldWithout(s.players, id, c)))
  {
    hide Without;
    var left, c := s.players - {id}, s.players[id].country;
    assert (exists o :: o in left && left[o].country == c) <==> HeldWithout(s.players, id, c) by {
      if HeldWithout(s.players, id, c) {
        var o :| o in s.players && o != id && s.players[o].country == c;
        assert o in left && left[o].country == c;
      }
    }
  }

  /** A new country starts with no land and changes nothing else. */
  lemma FoundingAdds(s: State, country: nat, color: Code, isBot: bool)
    requires country !in s.countries
    ensures
      var a := Founded(s, country, color, isBot);
      a.owners == s.owners && a.players == s.players && a.dirtyPlayers == s.dirtyPlayers &&
      a.countries.Keys == s.countries.Keys + {country} &&
      a.countries[country] == Country(color, 0, isBot, 0) && forall c :: c in s.countries ==> a.countries[c] == s.countries[c]
  {
  }

  // ----- who a claim removes -----

  lemma LossRemoves(t: Atlas, s: State, o: nat, cell: nat, fromFill: bool, mover: Trigger)
    requires |s.owners| == t.g.Size() && cell < |s.owners| && o in s.countries
    ensures
      var l := Loss(t, s, o, cell, fromFill, mover);
      (o !in l.countries <==> s.countries[o].count == 1 && !Held(s, o)) &&
      (forall c :: c != o ==> (c in l.countries <==> c in s.countries)) &&
      (forall c :: c != o && c in s.countries ==> l.countries[c] == s.countries[c])
  {
    hide StraightExit, Queued, Add, Without;
    HeldDependsOnPlayers(s, Noted(Charge(s, o, 1, fromFill, mover), o), o);
  }

  /** A claim removes the country whose last cell it takes, if nobody plays for it, and no
      other. */
  lemma ClaimRemoves(t: Atlas, s: State, cell: nat, country: nat, fromFill: bool, mover: Trigger)
    requires t.Valid() && |s.owners| == t.g.Size() && cell < |s.owners| && country in s.countries
    requires s.owners[cell] != 0 ==> s.owners[cell] in s.countries
    ensures
      var a, o := Claim(t, s, cell, country, fromFill, mover), s.owners[cell];
      forall c :: c in s.countries ==>
        (c !in a.countries <==> c == o != 0 && o != country && t.land[cell] && s.countries[o].count == 1 && !Held(s, o))
  {
    hide Claim, Booked, Loss, Held;
    if t.land[cell] && s.owners[cell] != country {
      var b := Booked(t, s, cell, country, fromFill, mover);
      ClaimIsBookedThenLost(t, s, cell, country, fromFill, mover);
      BookedCountries(t, s, cell, country, fromFill, mover);
      if s.owners[cell] != 0 {
        BookedOwners(t, s, cell, country, fromFill, mover);
        LossRemoves(t, b, s.owners[cell], cell, fromFill, mover);
        SameHolders(t, s, cell, country, fromFill, mover, s.owners[cell]);
      }
    } else {
      ClaimIsNothing(t, s, cell, country, fromFill, mover);
    }
  }

  lemma BookedCountries(t: Atlas, s: State, cell: nat, country: nat, fromFill: bool, mover: Trigger)
    requires t.Valid() && |s.owners| == t.g.Size() && cell < |s.owners| && country in s.countries
    ensures
      var b := Booked(t, s, cell, country, fromFill, mover);
      b.countries == s.countries[country := s.countries[country].(count := s.countries[country].count + 1)]
  {
    hide Candidates, Extended, Add, Row, Col, At;
    var moved := s.(owners := s.owners[cell := country], bounds := Extended(t.g, s.bounds, country, cell),
                    changed := Add(s.changed, country));
    CandidatesFields(t, moved, cell, country, mover);
  }

  lemma SameHolders(t: Atlas, s: State, cell: nat, country: nat, fromFill: bool, mover: Trigger, o: nat)
    requires t.Valid() && |s.owners| == t.g.Size() && cell < |s.owners|
    ensures Held(Booked(t, s, cell, country, fromFill, mover), o) <==> Held(s, o)
  {
    hide Booked;
    BookedKeepsPlayers(t, s, cell, country, fromFill, mover);
    var b := Booked(t, s, cell, country, fromFill, mover);
    assert forall id :: id in s.players ==> b.players[id].country == s.players[id].country;
  }

  // ----- the roster over whole histories -----

  /** The roster row shows the player in the chunk it stands in. */
  predicate Shown(t: Atlas, p: Player) {
    OnMap(t.g, p) && p.lastX < t.g.width && p.lastY < t.g.height && ChunkAt(t, p.lastX, p.lastY) == ChunkAt(t, p.x, p.y)
  }

  ghost predicate AllShown(t: Atlas, s: State) {
    forall id :: id in s.players ==> Shown(t, s.players[id])
  }

  lemma MoveShows(t: Atlas, s: State, id: string, d: Direction)
    requires t.Valid() && |s.owners| == t.g.Size() && s.cursor == 0 && id in s.players && OnMap(t.g, s.players[id])
    requires AllShown(t, s)
    ensures AllShown(t, Move(t, s, id, d))
  {
    hide Move, ChunkAt, Fare, Paintable, CellAt, Heading;
    MoveIsMove(t, s, id, d);
    var a, p := Move(t, s, id, d), s.players[id];
    HeadingOnMap(t.g, p.x, p.y, d);
    assert Shown(t, p);
    forall o | o in a.players
      ensures Shown(t, a.players[o])
    {
      assert o != id ==> a.players[o] == s.players[o];
    }
  }

  lemma HeadingOnMap(g: Board, x: nat, y: nat, d: Direction)
    requires x < g.width && y < g.height
    ensures
      var to := Heading(g, x, y, d);
      to.Some? ==> to.value.0 < g.width && to.value.1 < g.height
  {
  }

  lemma EventShows(t: Atlas, s: State, e: Event)
    requires Settled(t, s) && Allowed(t, s, e) && AllShown(t, s)
    ensures AllShown(t, Apply(t, s, e))
  {
    hide Settled, Move, Joined, Departed, Founded, Shown;
    SettledShape(t, s);
    match e
    case Step(id, d) => MoveShows(t, s, id, d);
    case Arrive(id, country, isBot, x, y) =>
      ArrivalStands(t, s, id, country, isBot, x, y);
      ArrivalIsShown(t, country, isBot, x, y);
    case Leave(id) => DepartureRemoves(s, id);
    case Create(country, color, isBot) => FoundingAdds(s, country, color, isBot);
  }

  lemma ArrivalIsShown(t: Atlas, country: nat, isBot: bool, x: nat, y: nat)
    requires x < t.g.width && y < t.g.height
    ensures Shown(t, Player(country, isBot, x, y, x, y, 0, 0))
  {
  }

  lemma {:induction false} PlayShows(t: Atlas, s: State, events: seq<Event>)
    requires Settled(t, s) && AllShown(t, s)
    ensures Play(t, s, events).Some? ==> AllShown(t, Play(t, s, events).value)
    decreases |events|
  {
    hide Settled, Apply, AllShown;
    if events != [] && Allowed(t, s, events[0]) {
      EventKeepsSettled(t, s, events[0]);
      EventShows(t, s, events[0]);
      PlayShows(t, Apply(t, s, events[0]), events[1..]);
    }
  }

  lemma PassShows(t: Atlas, s: State)
    requires Inv(t, s) && AllShown(t, s)
    ensures AllShown(t, Cleared(PlainPass(t, s)))
  {
    hide Inv, PlainPass, ChunkAt;
    PassKeepsPlayers(t, s);
    forall id | id in s.players
      ensures Shown(t, PlainPass(t, s).players[id])
    {
      assert Shown(t, s.players[id]);
    }
  }

  lemma SettledIsInv(t: Atlas, s: State)
    requires Settled(t, s)
    ensures Inv(t, s)
  {
  }

  /** In every history, after every tick, each roster row shows its player in the chunk it
      stands in, so that whoever watches that chunk is told of it. */
  lemma {:induction false} EveryHistoryShows(t: Atlas, ticks: seq<seq<Event>>)
    requires t.Valid()
    ensures
      var r := History(t, ticks);
      r.Some? ==> AllShown(t, r.value)
    decreases |ticks|
  {
    hide Settled, Play, PlainPass, AllShown, Inv;
    if ticks == [] {
      assert AllShown(t, EmptyState(t)) by { NobodyShown(t); }
    } else {
      var n := |ticks| - 1;
      EveryHistoryShows(t, ticks[..n]);
      var before := History(t, ticks[..n]);
      if before.Some? {
        PlayKeepsSettled(t, before.value, ticks[n]);
        PlayShows(t, before.value, ticks[n]);
        var played := Play(t, before.value, ticks[n]);
        if played.Some? {
          SettledIsInv(t, played.value);
          PassShows(t, played.value);
        }
      }
    }
  }

  lemma NobodyShown(t: Atlas)
    ensures AllShown(t, EmptyState(t))
  {
  }
}
