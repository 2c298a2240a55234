/** Ticks, and whole histories of the world.

    A tick moves players, lets players and countries come and go, and then runs the
    enclosure pass.  After every tick of every history no country encloses land it does
    not own, and the books balance. */
module Rounds {
  import opened Basics
  import opened Grid
  import opened Enclosure
  import opened Territory
  import opened Claims
  import opened Capture
  import opened Pass

  // ----- moves -----

  const OWN_COST: nat := 1
  const NEUTRAL_COST: nat := 2
  const ENEMY_COST: nat := 4
  const CROSSING_COST: nat := 6

  /** The cost of a step onto a cell held by `owner`. */
  function StepCost(land: seq<bool>, country: nat, from: nat, to: nat, owner: nat): nat
    requires from < |land| && to < |land|
  {
    (if land[to] && owner != 0 then (if owner == country then OWN_COST else ENEMY_COST) else NEUTRAL_COST) +
    (if land[from] != land[to] then CROSSING_COST else 0)
  }

  datatype Direction = Idle | Up | Down | Left | Right

  function StepX(d: Direction): int {
    if d.Left? then -1 else if d.Right? then 1 else 0
  }

  function StepY(d: Direction): int {
    if d.Up? then -1 else if d.Down? then 1 else 0
  }

  /** Movement wraps horizontally; only the poles block. */
  function WrapX(w: Positive, x: int): (wrapped: nat)
    ensures wrapped < w
  {
    x % w
  }

  /** A cell and all eight neighbours belong to one enemy country. */
  predicate Surrounded(g: Board, owners: seq<nat>, cell: nat, country: nat)
    requires |owners| == g.Size() && cell < |owners|
  {
    owners[cell] != 0 && owners[cell] != country &&
    forall i :: 0 <= i < 8 ==> HasNeighbour(g, cell, i) && owners[Neighbour(g, cell, i)] == owners[cell]
  }

  lemma RingIsOwned(g: Board, owners: seq<nat>, cell: nat, b: nat, country: nat)
    requires |owners| == g.Size() && cell < |owners| && b < |owners| && Surrounded(g, owners, cell, country)
    requires Adjacent(g.width, cell, b)
    ensures owners[b] == owners[cell]
  {
    var i := AdjacentIsNeighbour(g, cell, b);
    assert owners[Neighbour(g, cell, i)] == owners[cell];
  }

  /** Why the step is left unpainted: the painted cell would be a one-cell hole of its
      owner, so the enclosure pass of the same tick would take it straight back. */
  lemma SurroundedClaimIsAHole(g: Board, owners: seq<nat>, cell: nat, country: nat)
    requires |owners| == g.Size() && cell < |owners| && Surrounded(g, owners, cell, country)
    ensures cell in Enclosed(g, owners[cell := country], owners[cell])
  {
    var free := Free(owners[cell := country], owners[cell]);
    assert HasNeighbour(g, cell, 0) && HasNeighbour(g, cell, 4);
    forall b: nat | b < |owners| && Adjacent(g.width, cell, b)
      ensures b !in free
    {
      RingIsOwned(g, owners, cell, b, country);
    }
    RowsAreBounded(g, Neighbour(g, cell, 4));
    assert !OnEdge(g, cell);
    ClosedIsEnclosed(g, free, {cell}, cell);
  }

  function CellAt(g: Board, x: nat, y: nat): (cell: nat)
    requires x < g.width && y < g.height
    ensures cell < g.Size() && Col(g.width, cell) == x && Row(g.width, cell) == y
  {
    CoordinatesOfAt(g.width, x, y);
    RowsAreBounded(g, At(g.width, x, y));
    At(g.width, x, y)
  }

  predicate OnMap(g: Board, p: Player) {
    p.x < g.width && p.y < g.height
  }

  function Moved(s: State, id: string, p: Player): State {
    s.(players := s.players[id := p])
  }

  /** The step itself; the roster row follows only across chunks. */
  function Stepped(t: Atlas, s: State, id: string, x: nat, y: nat): State
    requires id in s.players && OnMap(t.g, s.players[id]) && x < t.g.width && y < t.g.height
  {
    var p := s.players[id];
    var crossed := t.ChunkOf(CellAt(t.g, p.x, p.y)) != t.ChunkOf(CellAt(t.g, x, y));
    s.(players := s.players[id := p.(credit := 0, x := x, y := y, lastX := if crossed then x else p.lastX, lastY := if crossed then y else p.lastY)],
       dirtyPlayers := if crossed then s.dirtyPlayers + {id} else s.dirtyPlayers)
  }

  /** Claim the cell a player stands on, unless the claim would be taken straight back. */
  ghost function Painted(t: Atlas, s: State, cell: nat, country: nat, id: string): State
    requires t.Valid() && |s.owners| == t.g.Size() && cell < |s.owners|
  {
    if !t.land[cell] || s.owners[cell] == country || Surrounded(t.g, s.owners, cell, country) then s
    else Claim(t, s, cell, country, false, Some(id))
  }

  /** Gather credit for the step, or take it once the credit is enough. */
  ghost function Advanced(t: Atlas, s: State, id: string, x: nat, y: nat): State
    requires t.Valid() && |s.owners| == t.g.Size() && id in s.players && OnMap(t.g, s.players[id])
    requires x < t.g.width && y < t.g.height
  {
    var p := s.players[id];
    var from, to := CellAt(t.g, p.x, p.y), CellAt(t.g, x, y);
    if p.credit + 1 < StepCost(t.land, p.country, from, to, s.owners[to]) then Moved(s, id, p.(credit := p.credit + 1))
    else Painted(t, Stepped(t, s, id, x, y), to, p.country, id)
  }

  /** One move of one player: turn the heading into a cell and make for it; the poles block. */
  ghost function Move(t: Atlas, s: State, id: string, d: Direction): State
    requires t.Valid() && |s.owners| == t.g.Size() && id in s.players && OnMap(t.g, s.players[id])
  {
    var p := s.players[id];
    var x, y := WrapX(t.g.width, p.x + StepX(d)), p.y + StepY(d);
    if d.Idle? then s
    else if y < 0 || y >= t.g.height then Moved(s, id, p.(credit := 0))
    else Advanced(t, s, id, x, y)
  }

  // ----- arrivals and departures -----

  /** A new country: no land, no players, a fresh id. */
  function Founded(s: State, country: nat, color: Code, isBot: bool): State {
    s.(countries := s.countries[country := Country(color, 0, isBot, 0)],
       ownerCodes := s.ownerCodes[country := color],
       dirtyCountries := s.dirtyCountries + {country})
  }

  /** A player lands on a cell and paints it. */
  ghost function Joined(t: Atlas, s: State, id: string, country: nat, isBot: bool, x: nat, y: nat): State
    requires t.Valid() && |s.owners| == t.g.Size() && x < t.g.width && y < t.g.height
  {
    var arrived := s.(players := s.players[id := Player(country, isBot, x, y, x, y, 0, 0)], dirtyPlayers := s.dirtyPlayers + {id});
    Claim(t, arrived, CellAt(t.g, x, y), country, false, Some(id))
  }

  /** A player leaves; its country goes too if nothing holds it any more. */
  function Departed(s: State, id: string): State
    requires id in s.players
  {
    Deleted(s.(players := s.players - {id}, dirtyPlayers := s.dirtyPlayers + {id}), s.players[id].country)
  }

  // ----- events -----

  datatype Event =
    | Step(id: string, direction: Direction)
    | Arrive(id: string, country: nat, isBot: bool, x: nat, y: nat)
    | Leave(id: string)
    | Create(country: nat, color: Code, isBot: bool)

  /** What the callers of the world guarantee of each event. */
  predicate Allowed(t: Atlas, s: State, e: Event) {
    match e
    case Step(id, _) => id in s.players
    case Arrive(id, country, _, x, y) => id !in s.players && country in s.countries && x < t.g.width && y < t.g.height
    case Leave(id) => id in s.players
    case Create(country, color, _) =>
      country != 0 && country !in s.countries && color != 0 && forall c :: c in s.countries ==> s.countries[c].color != color
  }

  ghost predicate AllOnMap(t: Atlas, s: State) {
    forall id :: id in s.players ==> OnMap(t.g, s.players[id])
  }

  /** Between two passes of a history. */
  ghost predicate Settled(t: Atlas, s: State) {
    Inv(t, s) && s.cursor == 0 && AllOnMap(t, s)
  }

  ghost function Apply(t: Atlas, s: State, e: Event): State
    requires Settled(t, s) && Allowed(t, s, e)
  {
    match e
    case Step(id, d) => Move(t, s, id, d)
    case Arrive(id, country, isBot, x, y) => Joined(t, s, id, country, isBot, x, y)
    case Leave(id) => Departed(s, id)
    case Create(country, color, isBot) => Founded(s, country, color, isBot)
  }

  // ----- what every event keeps -----

  /** Claims never move a player and never touch the cursor at rest. */
  lemma ClaimKeepsPlayers(t: Atlas, s: State, cell: nat, country: nat, fromFill: bool, mover: Trigger)
    requires t.Valid() && |s.owners| == t.g.Size() && cell < |s.owners| && s.cursor == 0
    ensures
      var c := Claim(t, s, cell, country, fromFill, mover);
      c.cursor == 0 && c.players.Keys == s.players.Keys &&
      forall id :: id in s.players ==> c.players[id] == s.players[id].(captured := c.players[id].captured)
  {
    hide Claim, Booked, Loss;
    if t.land[cell] && s.owners[cell] != country {
      ClaimIsBookedThenLost(t, s, cell, country, fromFill, mover);
      BookedKeepsPlayers(t, s, cell, country, fromFill, mover);
      if s.owners[cell] != 0 {
        BookedOwners(t, s, cell, country, fromFill, mover);
        LossKeepsPlayers(t, Booked(t, s, cell, country, fromFill, mover), s.owners[cell], cell, fromFill, mover);
      }
    } else {
      ClaimIsNothing(t, s, cell, country, fromFill, mover);
    }
  }

  lemma BookedKeepsPlayers(t: Atlas, s: State, cell: nat, country: nat, fromFill: bool, mover: Trigger)
    requires t.Valid() && |s.owners| == t.g.Size() && cell < |s.owners|
    ensures
      var b := Booked(t, s, cell, country, fromFill, mover);
      b.cursor == s.cursor && b.players.Keys == s.players.Keys &&
      forall id :: id in s.players ==> b.players[id] == s.players[id].(captured := b.players[id].captured)
  {
    hide Candidates, Extended, Add, Row, Col, At, Counted;
    var moved := s.(owners := s.owners[cell := country], bounds := Extended(t.g, s.bounds, country, cell),
                    changed := Add(s.changed, country));
    CandidatesFields(t, moved, cell, country, mover);
  }

  lemma LossKeepsPlayers(t: Atlas, s: State, owner: nat, cell: nat, fromFill: bool, mover: Trigger)
    requires |s.owners| == t.g.Size() && cell < |s.owners| && s.cursor == 0
    ensures Loss(t, s, owner, cell, fromFill, mover).players == s.players && Loss(t, s, owner, cell, fromFill, mover).cursor == 0
  {
    hide StraightExit, Queued, Add, Debited, Held;
  }

  /** New players and new positions do not matter to the invariant, as long as countries are live. */
  lemma PlayersMayMove(t: Atlas, s: State, players: map<string, Player>, dirty: set<string>)
    requires Inv(t, s) && forall id :: id in players ==> players[id].country in s.countries
    ensures Inv(t, s.(players := players, dirtyPlayers := dirty))
  {
    hide Safe, Watched, Owned, Covers, StartsOnBoard;
    var r := s.(players := players, dirtyPlayers := dirty);
    forall c | c in r.countries
      ensures Attended(t, r, c)
    {
      assert Attended(t, s, c);
    }
  }

  /** A player of a country that is already playing may stand anywhere on the map. */
  lemma PlayerMayStand(t: Atlas, s: State, id: string, q: Player, dirty: set<string>)
    requires Settled(t, s) && q.country in s.countries && OnMap(t.g, q)
    ensures Settled(t, s.(players := s.players[id := q], dirtyPlayers := dirty))
  {
    hide Inv;
    LivePlayers(t, s);
    PlayersMayMove(t, s, s.players[id := q], dirty);
  }

  lemma PaintKeepsSettled(t: Atlas, s: State, cell: nat, country: nat, id: string)
    requires Settled(t, s) && country in s.countries && cell < |s.owners|
    ensures t.Valid() && |s.owners| == t.g.Size() && Settled(t, Painted(t, s, cell, country, id))
  {
    hide Inv, Claim, Surrounded;
    LivePlayers(t, s);
    ClaimKeepsSettled(t, s, cell, country, Some(id));
  }

  lemma StepKeepsSettled(t: Atlas, s: State, id: string, x: nat, y: nat)
    requires Settled(t, s) && id in s.players && x < t.g.width && y < t.g.height
    ensures Settled(t, Stepped(t, s, id, x, y))
    ensures Stepped(t, s, id, x, y).countries == s.countries && Stepped(t, s, id, x, y).owners == s.owners
  {
    hide Inv, Row, Col, At;
    LivePlayers(t, s);
    var r := Stepped(t, s, id, x, y);
    PlayerMayStand(t, s, id, r.players[id], r.dirtyPlayers);
  }

  lemma MoveKeepsSettled(t: Atlas, s: State, id: string, d: Direction)
    requires Settled(t, s) && id in s.players
    ensures Settled(t, Move(t, s, id, d))
  {
    hide Inv, Painted, Stepped, Row, Col, At, StepCost;
    var p := s.players[id];
    LivePlayers(t, s);
    var x, y := WrapX(t.g.width, p.x + StepX(d)), p.y + StepY(d);
    PlayerMayStand(t, s, id, p.(credit := 0), s.dirtyPlayers);
    PlayerMayStand(t, s, id, p.(credit := p.credit + 1), s.dirtyPlayers);
    if !d.Idle? && 0 <= y < t.g.height {
      StepKeepsSettled(t, s, id, x, y);
      PaintKeepsSettled(t, Stepped(t, s, id, x, y), CellAt(t.g, x, y), p.country, id);
    }
  }

  lemma LivePlayers(t: Atlas, s: State)
    requires Inv(t, s)
    ensures t.Valid() && |s.owners| == t.g.Size() && forall id :: id in s.players ==> s.players[id].country in s.countries
  {
  }

  lemma ClaimKeepsSettled(t: Atlas, s: State, cell: nat, country: nat, mover: Trigger)
    requires Settled(t, s) && country in s.countries && cell < |s.owners|
    ensures t.Valid() && |s.owners| == t.g.Size() && Settled(t, Claim(t, s, cell, country, false, mover))
  {
    hide Inv, Claim;
    LivePlayers(t, s);
    ClaimKeepsInv(t, s, cell, country, mover);
    ClaimKeepsPlayers(t, s, cell, country, false, mover);
  }

  lemma JoinKeepsSettled(t: Atlas, s: State, id: string, country: nat, isBot: bool, x: nat, y: nat)
    requires Settled(t, s) && country in s.countries && x < t.g.width && y < t.g.height
    ensures t.Valid() && |s.owners| == t.g.Size() && Settled(t, Joined(t, s, id, country, isBot, x, y))
  {
    hide Inv, Claim, At, Row, Col;
    LivePlayers(t, s);
    var players := s.players[id := Player(country, isBot, x, y, x, y, 0, 0)];
    PlayersMayMove(t, s, players, s.dirtyPlayers + {id});
    ClaimKeepsSettled(t, s.(players := players, dirtyPlayers := s.dirtyPlayers + {id}), CellAt(t.g, x, y), country, Some(id));
  }

  lemma LeaveKeepsSettled(t: Atlas, s: State, id: string)
    requires Settled(t, s) && id in s.players
    ensures Settled(t, Departed(s, id))
  {
    hide Inv, Held, Without;
    LivePlayers(t, s);
    PlayersMayMove(t, s, s.players - {id}, s.dirtyPlayers + {id});
    DeletedKeepsInv(t, s.(players := s.players - {id}, dirtyPlayers := s.dirtyPlayers + {id}), s.players[id].country);
    assert Without([], s.players[id].country) == [] by { WithoutIs([], s.players[id].country); }
  }

  lemma FoundKeepsSettled(t: Atlas, s: State, country: nat, color: Code, isBot: bool)
    requires Settled(t, s) && country != 0 && country !in s.countries
    ensures Settled(t, Founded(s, country, color, isBot))
  {
    hide Safe, Watched, Covers, StartsOnBoard;
    var r := Founded(s, country, color, isBot);
    assert Owned(s.owners, country) == {};
    NothingOwnedIsSafe(t, s.owners, country);
    forall c | c in r.countries
      ensures Attended(t, r, c)
    {
      if c != country {
        assert Attended(t, s, c);
      }
    }
  }

  lemma EventKeepsSettled(t: Atlas, s: State, e: Event)
    requires Settled(t, s) && Allowed(t, s, e)
    ensures Settled(t, Apply(t, s, e))
  {
    hide Settled;
    match e
    case Step(id, d) => MoveKeepsSettled(t, s, id, d);
    case Arrive(id, country, isBot, x, y) => JoinKeepsSettled(t, s, id, country, isBot, x, y);
    case Leave(id) => LeaveKeepsSettled(t, s, id);
    case Create(country, color, isBot) => FoundKeepsSettled(t, s, country, color, isBot);
  }

  // ----- ticks and histories -----

  /** The events of one tick in turn; nothing if one of them is not allowed. */
  ghost function Play(t: Atlas, s: State, events: seq<Event>): Option<State>
    requires Settled(t, s)
    decreases |events|
  {
    if events == [] then Some(s)
    else if !Allowed(t, s, events[0]) then None
    else
      EventKeepsSettled(t, s, events[0]);
      Play(t, Apply(t, s, events[0]), events[1..])
  }

  /** A tick: its events, then the enclosure pass. */
  ghost function Tick(t: Atlas, s: State, events: seq<Event>): Option<State>
    requires Settled(t, s)
  {
    PlayKeepsSettled(t, s, events);
    match Play(t, s, events)
    case None => None
    case Some(r) => Some(Cleared(PlainPass(t, r)))
  }

  lemma {:induction false} PlayKeepsSettled(t: Atlas, s: State, events: seq<Event>)
    requires Settled(t, s)
    ensures Play(t, s, events).Some? ==> Settled(t, Play(t, s, events).value)
    decreases |events|
  {
    hide Settled, Apply;
    if events != [] && Allowed(t, s, events[0]) {
      EventKeepsSettled(t, s, events[0]);
      PlayKeepsSettled(t, Apply(t, s, events[0]), events[1..]);
    }
  }

  /** No land of any country or of nobody is cut off inside another country. */
  ghost predicate Sealed(t: Atlas, owners: seq<nat>) {
    |t.land| == |owners| &&
    forall country, cell :: country != 0 && 0 <= cell < |owners| && t.land[cell] && owners[cell] != country ==>
      Escapes(t.g, Free(owners, country), cell)
  }

  lemma SafeIsSealed(t: Atlas, owners: seq<nat>)
    requires |t.land| == |owners| && forall c :: c != 0 ==> Safe(t, owners, c)
    ensures Sealed(t, owners)
  {
    forall country, cell | country != 0 && 0 <= cell < |owners| && t.land[cell] && owners[cell] != country
      ensures Escapes(t.g, Free(owners, country), cell)
    {
      assert Safe(t, owners, country);
      assert cell in Free(owners, country);
    }
  }

  lemma {:induction false} PassKeepsPlayers(t: Atlas, s: State)
    requires Inv(t, s)
    ensures
      var r := PlainPass(t, s);
      r.players.Keys == s.players.Keys && forall id :: id in s.players ==> r.players[id] == s.players[id].(captured := r.players[id].captured)
    decreases TurnsLeft(s)
  {
    hide Inv, PlainStep;
    InvCursor(t, s);
    if s.cursor < |s.changed| {
      PlainStepKeepsInv(t, s);
      StepKeepsPlayers(t, s);
      PassKeepsPlayers(t, PlainStep(t, s));
    }
  }

  lemma InvCursor(t: Atlas, s: State)
    requires Inv(t, s)
    ensures s.cursor <= |s.changed| && t.Valid() && |s.owners| == t.g.Size()
  {
  }

  lemma StepKeepsPlayers(t: Atlas, s: State)
    requires t.Valid() && |s.owners| == t.g.Size() && s.cursor < |s.changed|
    ensures
      var r := PlainStep(t, s);
      r.players.Keys == s.players.Keys && forall id :: id in s.players ==> r.players[id] == s.players[id].(captured := r.players[id].captured)
  {
    hide TakeAll, Merged, Add, Counted, Enclosed, SettleLosers, Listing;
    var c := s.changed[s.cursor];
    if c in s.queue && c in s.countries && s.countries[c].count != 0 {
      var due := s.(cursor := s.cursor + 1, queue := s.queue[c := Whole]);
      var cells := Listing(Enclosed(t.g, s.owners, c), t.g.Size());
      EntriesAreMembers(cells, t.g.Size());
      var h := TakeAll(t, due.owners, due.queue, cells, c);
      if h.taken != 0 && h.box.Some? {
        LosersKeepPlayers(Hoisted(due, h, c, TriggerOf(s, c)), h.losers, h.losses, TriggerOf(s, c));
      }
    }
  }

  lemma {:induction false} LosersKeepPlayers(s: State, losers: seq<nat>, losses: map<nat, nat>, mover: Trigger)
    ensures SettleLosers(s, losers, losses, mover).players == s.players
    decreases |losers|
  {
    if losers != [] {
      LosersKeepPlayers(s, losers[..|losers| - 1], losses, mover);
    }
  }

  /** After every tick, whatever its events were, no country encloses land it does not own,
      every count equals the cells owned, and the world is ready for the next tick. */
  lemma TickSeals(t: Atlas, s: State, events: seq<Event>)
    requires Settled(t, s)
    ensures
      var r := Tick(t, s, events);
      r.Some? ==> Settled(t, r.value) && Sealed(t, r.value.owners) && Books(t, r.value)
  {
    hide PlainPass, Play, Safe, Owned, Covers;
    PlayKeepsSettled(t, s, events);
    if Play(t, s, events).Some? {
      var played := Play(t, s, events).value;
      PassSeals(t, played);
      PassKeepsPlayers(t, played);
      var r := Cleared(PlainPass(t, played));
      SafeIsSealed(t, r.owners);
      assert forall c :: c in r.countries ==> Attended(t, r, c);
    }
  }

  /** The world before anything happened. */
  function EmptyState(t: Atlas): State {
    State(seq(t.g.Size(), _ => 0), map[], map[], map[], [], 0, map[], map[], {}, {}, {}, {}, {}, {}, map[])
  }

  ghost function History(t: Atlas, ticks: seq<seq<Event>>): (r: Option<State>)
    requires t.Valid()
    ensures r.Some? ==> Settled(t, r.value)
    decreases |ticks|
  {
    if ticks == [] then Some(EmptyState(t))
    else
      var before := History(t, ticks[..|ticks| - 1]);
      if before.None? then None
      else
        TickSeals(t, before.value, ticks[|ticks| - 1]);
        Tick(t, before.value, ticks[|ticks| - 1])
  }

  /** Safety over whole histories: every state the world can show after a tick is sealed. */
  lemma EveryHistoryIsSealed(t: Atlas, ticks: seq<seq<Event>>)
    requires t.Valid()
    ensures
      var r := History(t, ticks);
      r.Some? ==> Sealed(t, r.value.owners) && Books(t, r.value)
  {
    if ticks == [] {
      forall country, cell | country != 0 && 0 <= cell < t.g.Size()
        ensures Escapes(t.g, Free(EmptyState(t).owners, country), cell)
      {
        NothingOwnedEscapes(t.g, EmptyState(t).owners, country, cell);
      }
    } else {
      var before := History(t, ticks[..|ticks| - 1]);
      if before.Some? {
        TickSeals(t, before.value, ticks[|ticks| - 1]);
      }
    }
  }
}
