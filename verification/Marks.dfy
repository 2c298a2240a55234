/** Dirty marks: whatever a tick changes, it marks for publication.

    A chunk in which a cell changed hands, a country whose row changed, and a country
    that is gone are all in the dirty sets afterwards. */
module Marks {
  import opened Basics
  import opened Grid
  import opened Enclosure
  import opened Territory
  import opened Claims
  import opened Capture
  import opened Pass
  import opened Rounds

  ghost predicate ChunksMarked(t: Atlas, before: seq<nat>, s: State) {
    |s.owners| == |before| &&
    forall q :: 0 <= q < |before| && s.owners[q] != before[q] ==> t.ChunkOf(q) in s.dirtyChunks
  }

  /** Live countries that are new, changed or were marked already are marked; gone ones are listed. */
  ghost predicate RowsMarked(s: State, r: State) {
    s.removedCountries <= r.removedCountries &&
    (forall c :: c in r.countries && (c in s.dirtyCountries || c !in s.countries || r.countries[c] != s.countries[c]) ==> c in r.dirtyCountries) &&
    (forall c :: c in s.countries && c !in r.countries ==> c in r.removedCountries)
  }

  ghost predicate IsChunk(t: Atlas, k: int) {
    exists q: nat :: q < t.g.Size() && t.ChunkOf(q) == k
  }

  /** Everything that differs between the two states is marked in the later one. */
  ghost predicate Marked(t: Atlas, s: State, r: State) {
    s.dirtyChunks <= r.dirtyChunks && ChunksMarked(t, s.owners, r) && RowsMarked(s, r) &&
    forall k :: k in r.dirtyChunks ==> k in s.dirtyChunks || IsChunk(t, k)
  }

  lemma MarkedTwice(t: Atlas, s: State, m: State, r: State)
    requires Marked(t, s, m) && Marked(t, m, r)
    ensures Marked(t, s, r)
  {
    forall q | 0 <= q < |s.owners| && r.owners[q] != s.owners[q]
      ensures t.ChunkOf(q) in r.dirtyChunks
    {
      if m.owners[q] != s.owners[q] {
        assert t.ChunkOf(q) in m.dirtyChunks;
      }
    }
  }

  /** Nothing of the map or the roster changes, and no mark is lost. */
  lemma MarkedSame(t: Atlas, s: State, r: State)
    requires r.owners == s.owners && r.countries == s.countries && r.dirtyChunks == s.dirtyChunks
    requires r.dirtyCountries == s.dirtyCountries && r.removedCountries == s.removedCountries
    ensures Marked(t, s, r)
  {
  }

  lemma LoserIsMarked(t: Atlas, s: State, owner: nat, n: nat, fromFill: bool, mover: Trigger)
    ensures Marked(t, s, Noted(Charge(s, owner, n, fromFill, mover), owner))
  {
    hide Add;
  }

  lemma DeletedIsMarked(t: Atlas, s: State, c: nat)
    ensures Marked(t, s, Deleted(s, c))
  {
    hide Held, Without;
  }

  lemma GainerIsMarked(t: Atlas, s: State, m: State, country: nat, n: nat, fromFill: bool, mover: Trigger)
    requires m.countries == s.countries && m.removedCountries == s.removedCountries
    requires m.dirtyCountries == s.dirtyCountries + {country} && s.dirtyChunks <= m.dirtyChunks && ChunksMarked(t, s.owners, m)
    requires forall k :: k in m.dirtyChunks ==> k in s.dirtyChunks || IsChunk(t, k)
    ensures Marked(t, s, Gain(m, country, n, fromFill, mover))
  {
  }

  lemma BookedIsMarked(t: Atlas, s: State, cell: nat, country: nat, fromFill: bool, mover: Trigger)
    requires t.Valid() && |s.owners| == t.g.Size() && cell < |s.owners|
    ensures Marked(t, s, Booked(t, s, cell, country, fromFill, mover))
  {
    hide Candidates, Extended, Add, Gain, RowsMarked;
    assert IsChunk(t, t.ChunkOf(cell));
    var moved := s.(owners := s.owners[cell := country], bounds := Extended(t.g, s.bounds, country, cell),
                    changed := Add(s.changed, country));
    CandidatesFields(t, moved, cell, country, mover);
    var searched := Candidates(t, moved, cell, country, mover);
    GainerIsMarked(t, s, searched.(dirtyChunks := searched.dirtyChunks + {t.ChunkOf(cell)},
                                   dirtyCountries := searched.dirtyCountries + {country}), country, 1, fromFill, mover);
  }

  lemma LossIsMarked(t: Atlas, s: State, owner: nat, cell: nat, fromFill: bool, mover: Trigger)
    requires |s.owners| == t.g.Size() && cell < |s.owners|
    ensures Marked(t, s, Loss(t, s, owner, cell, fromFill, mover))
  {
    hide StraightExit, Queued, Deleted, Charge, Noted, Marked;
    var noted := Noted(Charge(s, owner, 1, fromFill, mover), owner);
    var kept := Deleted(noted, owner);
    LoserIsMarked(t, s, owner, 1, fromFill, mover);
    DeletedIsMarked(t, noted, owner);
    MarkedTwice(t, s, noted, kept);
    var r := Loss(t, s, owner, cell, fromFill, mover);
    MarkedSame(t, kept, kept.(queue := r.queue));
    MarkedTwice(t, s, kept, kept.(queue := r.queue));
  }

  lemma ClaimIsMarked(t: Atlas, s: State, cell: nat, country: nat, fromFill: bool, mover: Trigger)
    requires t.Valid() && |s.owners| == t.g.Size() && cell < |s.owners|
    ensures Marked(t, s, Claim(t, s, cell, country, fromFill, mover))
  {
    hide Claim, Booked, Loss, Marked;
    if t.land[cell] && s.owners[cell] != country {
      ClaimIsBookedThenLost(t, s, cell, country, fromFill, mover);
      BookedIsMarked(t, s, cell, country, fromFill, mover);
      BookedOwners(t, s, cell, country, fromFill, mover);
      if s.owners[cell] != 0 {
        var b := Booked(t, s, cell, country, fromFill, mover);
        LossIsMarked(t, b, s.owners[cell], cell, fromFill, mover);
        MarkedTwice(t, s, b, Loss(t, b, s.owners[cell], cell, fromFill, mover));
      }
    } else {
      ClaimIsNothing(t, s, cell, country, fromFill, mover);
      MarkedSame(t, s, s);
    }
  }

  /** Every cell a haul takes is in one of the chunks it marks. */
  lemma {:induction false} HaulMarksChunks(t: Atlas, owners: seq<nat>, queue: map<nat, Search>, cells: seq<nat>, country: nat)
    requires t.Valid() && |owners| == t.g.Size() && forall k :: 0 <= k < |cells| ==> cells[k] < |owners|
    ensures
      var h := TakeAll(t, owners, queue, cells, country);
      forall q :: 0 <= q < |owners| && h.owners[q] != owners[q] ==> h.taken > 0 && h.box.Some? && t.ChunkOf(q) in h.chunks
    ensures forall k :: k in TakeAll(t, owners, queue, cells, country).chunks ==> IsChunk(t, k)
    ensures TakeAll(t, owners, queue, cells, country).taken > 0 <==> TakeAll(t, owners, queue, cells, country).box.Some?
    decreases |cells|
  {
    hide Row, Col, At, Queued, Hulled;
    if cells != [] {
      HaulMarksChunks(t, owners, queue, cells[..|cells| - 1], country);
    }
  }

  /** And it marks no chunk in which it takes nothing. */
  lemma {:induction false} HaulMarksNoMore(t: Atlas, owners: seq<nat>, queue: map<nat, Search>, cells: seq<nat>, country: nat, k: int)
    requires t.Valid() && |owners| == t.g.Size() && forall i :: 0 <= i < |cells| ==> cells[i] < |owners|
    requires k in TakeAll(t, owners, queue, cells, country).chunks
    ensures exists q: nat :: q < |owners| && TakeAll(t, owners, queue, cells, country).owners[q] != owners[q] && t.ChunkOf(q) == k
    decreases |cells|
  {
    hide Row, Col, At, Queued, Hulled;
    var n := |cells| - 1;
    var before, after := TakeAll(t, owners, queue, cells[..n], country), TakeAll(t, owners, queue, cells, country);
    HaulOwners(t, owners, queue, cells[..n], country);
    HaulOwners(t, owners, queue, cells, country);
    if k in before.chunks {
      HaulMarksNoMore(t, owners, queue, cells[..n], country, k);
      var q: nat :| q < |owners| && before.owners[q] != owners[q] && t.ChunkOf(q) == k;
      assert q in Cells(cells[..n]) && q in Cells(cells);
      assert after.owners[q] != owners[q];
    } else {
      assert after.owners[cells[n]] != owners[cells[n]];
    }
  }

  lemma {:induction false} LosersAreMarked(t: Atlas, s: State, losers: seq<nat>, losses: map<nat, nat>, mover: Trigger)
    ensures Marked(t, s, SettleLosers(s, losers, losses, mover))
    decreases |losers|
  {
    hide Marked, Deleted, Charge, Noted;
    if losers == [] {
      MarkedSame(t, s, s);
    } else {
      var n := |losers| - 1;
      var before := SettleLosers(s, losers[..n], losses, mover);
      LosersAreMarked(t, s, losers[..n], losses, mover);
      LoserIsMarked(t, before, losers[n], LossOf(losses, losers[n]), true, mover);
      var noted := Noted(Charge(before, losers[n], LossOf(losses, losers[n]), true, mover), losers[n]);
      DeletedIsMarked(t, noted, losers[n]);
      MarkedTwice(t, s, before, noted);
      MarkedTwice(t, s, noted, Deleted(noted, losers[n]));
    }
  }

  lemma CaptureIsMarked(t: Atlas, s: State, cells: seq<nat>, country: nat, mover: Trigger)
    requires t.Valid() && |s.owners| == t.g.Size() && forall k :: 0 <= k < |cells| ==> cells[k] < |s.owners|
    ensures Marked(t, s, Captured(t, s, cells, country, mover))
  {
    hide Marked, Gain, SettleLosers, Add, Merged, TakeAll;
    var h := TakeAll(t, s.owners, s.queue, cells, country);
    HaulMarksChunks(t, s.owners, s.queue, cells, country);
    MarkedSame(t, s, s);
    if h.box.Some? {
      GainerIsMarked(t, s, s.(owners := h.owners, queue := h.queue, dirtyChunks := s.dirtyChunks + h.chunks,
                              bounds := Merged(s.bounds, country, h.box.value), changed := Add(s.changed, country),
                              dirtyCountries := s.dirtyCountries + {country}), country, h.taken, true, mover);
      var y := Hoisted(s, h, country, mover);
      LosersAreMarked(t, y, h.losers, h.losses, mover);
      MarkedTwice(t, s, y, SettleLosers(y, h.losers, h.losses, mover));
    }
  }

  lemma TurnIsMarked(t: Atlas, s: State)
    requires t.Valid() && |s.owners| == t.g.Size() && s.cursor < |s.changed|
    ensures Marked(t, s, PlainStep(t, s))
  {
    hide Marked, Captured, Enclosed;
    var c := s.changed[s.cursor];
    var next := s.(cursor := s.cursor + 1);
    MarkedSame(t, s, next);
    if c in s.queue && c in s.countries && s.countries[c].count != 0 {
      var due := next.(queue := s.queue[c := Whole]);
      var cells := Listing(Enclosed(t.g, s.owners, c), t.g.Size());
      EntriesAreMembers(cells, t.g.Size());
      MarkedSame(t, s, due);
      CaptureIsMarked(t, due, cells, c, TriggerOf(s, c));
      MarkedTwice(t, s, due, Captured(t, due, cells, c, TriggerOf(s, c)));
    }
  }

  lemma {:induction false} PassIsMarked(t: Atlas, s: State)
    requires Inv(t, s)
    ensures Marked(t, s, PlainPass(t, s))
    decreases TurnsLeft(s)
  {
    hide Inv, PlainStep, TurnsLeft, Marked;
    InvCursor(t, s);
    if s.cursor == |s.changed| {
      MarkedSame(t, s, s);
    } else {
      PlainStepKeepsInv(t, s);
      TurnIsMarked(t, s);
      PassIsMarked(t, PlainStep(t, s));
      MarkedTwice(t, s, PlainStep(t, s), PlainPass(t, s));
    }
  }

  // ----- events and ticks -----

  lemma MoveIsMarked(t: Atlas, s: State, id: string, d: Direction)
    requires t.Valid() && |s.owners| == t.g.Size() && id in s.players && OnMap(t.g, s.players[id])
    ensures Marked(t, s, Move(t, s, id, d))
  {
    hide Claim, Surrounded, StepCost, Marked, Row, Col, At;
    var p := s.players[id];
    MarkedSame(t, s, s);
    MarkedSame(t, s, Moved(s, id, p.(credit := 0)));
    MarkedSame(t, s, Moved(s, id, p.(credit := p.credit + 1)));
    var x, y := WrapX(t.g.width, p.x + StepX(d)), p.y + StepY(d);
    if !d.Idle? && 0 <= y < t.g.height {
      var stepped := Stepped(t, s, id, x, y);
      MarkedSame(t, s, stepped);
      ClaimIsMarked(t, stepped, CellAt(t.g, x, y), p.country, false, Some(id));
      MarkedTwice(t, s, stepped, Claim(t, stepped, CellAt(t.g, x, y), p.country, false, Some(id)));
    }
  }

  lemma FoundedIsMarked(t: Atlas, s: State, country: nat, color: Code, isBot: bool)
    ensures Marked(t, s, Founded(s, country, color, isBot))
  {
  }

  lemma EventIsMarked(t: Atlas, s: State, e: Event)
    requires Settled(t, s) && Allowed(t, s, e)
    ensures Marked(t, s, Apply(t, s, e))
  {
    hide Inv, Claim, Surrounded, StepCost, Marked, Deleted, Founded, Row, Col, At;
    LivePlayers(t, s);
    match e
    case Step(id, d) => MoveIsMarked(t, s, id, d);
    case Arrive(id, country, isBot, x, y) =>
      var arrived := s.(players := s.players[id := Player(country, isBot, x, y, x, y, 0, 0)], dirtyPlayers := s.dirtyPlayers + {id});
      MarkedSame(t, s, arrived);
      ClaimIsMarked(t, arrived, CellAt(t.g, x, y), country, false, Some(id));
      MarkedTwice(t, s, arrived, Apply(t, s, e));
    case Leave(id) =>
      var left := s.(players := s.players - {id}, dirtyPlayers := s.dirtyPlayers + {id});
      MarkedSame(t, s, left);
      DeletedIsMarked(t, left, s.players[id].country);
      MarkedTwice(t, s, left, Apply(t, s, e));
    case Create(country, color, isBot) => FoundedIsMarked(t, s, country, color, isBot);
  }

  lemma {:induction false} PlayIsMarked(t: Atlas, s: State, events: seq<Event>)
    requires Settled(t, s) && Play(t, s, events).Some?
    ensures Marked(t, s, Play(t, s, events).value)
    decreases |events|
  {
    hide Settled, Apply, Marked, Allowed;
    if events == [] {
      MarkedSame(t, s, s);
    } else {
      var next := Apply(t, s, events[0]);
      EventKeepsSettled(t, s, events[0]);
      EventIsMarked(t, s, events[0]);
      PlayIsMarked(t, next, events[1..]);
      MarkedTwice(t, s, next, Play(t, s, events).value);
    }
  }

  /** Whatever a tick changes, it marks. */
  lemma TickIsMarked(t: Atlas, s: State, events: seq<Event>)
    requires Settled(t, s) && Tick(t, s, events).Some?
    ensures Marked(t, s, Tick(t, s, events).value)
  {
    hide Marked, Play, PlainPass, Inv;
    PlayKeepsSettled(t, s, events);
    var played := Play(t, s, events).value;
    PlayIsMarked(t, s, events);
    PassIsMarked(t, played);
    var passed := PlainPass(t, played);
    MarkedSame(t, passed, Cleared(passed));
    MarkedTwice(t, s, played, passed);
    MarkedTwice(t, s, passed, Cleared(passed));
  }
}
