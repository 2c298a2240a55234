/** Publishing the world into a store, in batches that may fail.

    A publish drains the dirty marks, sends the rows of what was marked in slices, and
    on any failure puts the marks back; the world ticks on meanwhile.  No update is
    ever lost: at every moment of every run each chunk is dirty, still on its way, or
    stored as it is now, and so is each country.  A store at rest restores the world. */
module Publishing {
  import opened Basics
  import opened Grid
  import opened Enclosure
  import opened Territory
  import opened Claims
  import opened Pass
  import opened Rounds
  import opened Chunks
  import opened Saves
  import opened Marks
  import opened Palette

  const PUBLISH_BATCH_SIZE: nat := 500

  datatype Snapshot = Snapshot(countryChunks: set<int>, countries: set<nat>, removed: set<nat>, playerRows: set<string>,
                               cueCountries: set<nat>, cuePlayers: set<string>)

  // ----- draining and restoring -----

  function DrainedSnapshot(s: State, rosters: bool, chunks: bool): Snapshot {
    Snapshot(if chunks then s.dirtyChunks else {},
             if rosters then s.dirtyCountries else s.cueCountries,
             if rosters then s.removedCountries else {},
             if rosters then s.dirtyPlayers else s.cuePlayers,
             s.cueCountries, s.cuePlayers)
  }

  /** What a drain leaves: held rosters lose only the cue rows. */
  function Drained(s: State, rosters: bool, chunks: bool): State {
    s.(dirtyChunks := if chunks then {} else s.dirtyChunks,
       dirtyCountries := if rosters then {} else s.dirtyCountries - s.cueCountries,
       removedCountries := if rosters then {} else s.removedCountries,
       dirtyPlayers := if rosters then {} else s.dirtyPlayers - s.cuePlayers,
       cueCountries := {}, cuePlayers := {})
  }

  /** A failed publish puts every drained mark back. */
  function Requeued(s: State, d: Snapshot): State {
    s.(dirtyChunks := s.dirtyChunks + d.countryChunks,
       dirtyCountries := s.dirtyCountries + d.countries,
       removedCountries := s.removedCountries + d.removed,
       dirtyPlayers := s.dirtyPlayers + d.playerRows,
       cueCountries := s.cueCountries + d.cueCountries,
       cuePlayers := s.cuePlayers + d.cuePlayers)
  }

  /** The marks are parted in two. */
  predicate Parts<T(==)>(all: set<T>, kept: set<T>, taken: set<T>) {
    kept + taken == all && kept !! taken
  }

  /** A drain loses no mark and invents none: each is either kept or taken.  A due roster is
      taken whole, a held one only where there is a cue, and the cues always go. */
  lemma DrainParts(s: State, rosters: bool, chunks: bool)
    ensures
      var a, d := Drained(s, rosters, chunks), DrainedSnapshot(s, rosters, chunks);
      Parts(s.dirtyChunks, a.dirtyChunks, d.countryChunks) && Parts(s.removedCountries, a.removedCountries, d.removed) &&
      Parts(if rosters then s.dirtyCountries else s.dirtyCountries + s.cueCountries, a.dirtyCountries, d.countries) &&
      Parts(if rosters then s.dirtyPlayers else s.dirtyPlayers + s.cuePlayers, a.dirtyPlayers, d.playerRows) &&
      Parts(s.cueCountries, a.cueCountries, d.cueCountries) && Parts(s.cuePlayers, a.cuePlayers, d.cuePlayers) &&
      (chunks ==> a.dirtyChunks == {}) && (!chunks ==> d.countryChunks == {}) &&
      (rosters ==> a.dirtyCountries == {} && a.dirtyPlayers == {} && a.removedCountries == {}) &&
      (!rosters ==> d.countries == s.cueCountries && d.playerRows == s.cuePlayers && d.removed == {}) &&
      a.cueCountries == {} && a.cuePlayers == {}
  {
  }

  /** Marks between two bounds: all of the one, and nothing beyond the other. */
  predicate Amid<T(==)>(least: set<T>, marks: set<T>, most: set<T>) {
    least <= marks <= most
  }

  /** Requeueing after a failure brings back every mark from before the drain, keeps those
      made while the batch was out, and adds nothing but rows for the cues. */
  lemma RequeueReturns(s: State, w: State, rosters: bool, chunks: bool)
    requires
      var a := Drained(s, rosters, chunks);
      a.dirtyChunks <= w.dirtyChunks && a.dirtyCountries <= w.dirtyCountries && a.removedCountries <= w.removedCountries &&
      a.dirtyPlayers <= w.dirtyPlayers
    ensures
      var r := Requeued(w, DrainedSnapshot(s, rosters, chunks));
      r.dirtyChunks == s.dirtyChunks + w.dirtyChunks && r.removedCountries == s.removedCountries + w.removedCountries &&
      Amid(s.dirtyCountries + w.dirtyCountries, r.dirtyCountries, s.dirtyCountries + w.dirtyCountries + s.cueCountries) &&
      Amid(s.dirtyPlayers + w.dirtyPlayers, r.dirtyPlayers, s.dirtyPlayers + w.dirtyPlayers + s.cuePlayers) &&
      r.cueCountries == s.cueCountries + w.cueCountries && r.cuePlayers == s.cuePlayers + w.cuePlayers
  {
    DrainParts(s, rosters, chunks);
  }

  // ----- operations and slices -----

  datatype Op =
    | DropCountry(country: nat)
    | PutCountry(country: nat, row: Country)
    | PutChunk(index: int, bytes: seq<Byte>)

  datatype Store = Store(countries: map<nat, Country>, chunks: map<int, seq<Byte>>)

  function RowOf(t: Atlas, s: State, k: int): seq<Byte>
    requires Tiled(t) && |s.owners| == t.g.Size() && 0 <= k < ChunkCount(t)
  {
    Encode(CodesOf(t, s, k))
  }

  predicate ChunksExist(t: Atlas, chunks: set<int>) {
    forall k :: k in chunks ==> 0 <= k < ChunkCount(t)
  }

  /** The operations of a snapshot: removed countries, rows of live ones, chunk rows. */
  ghost predicate OpsOf(t: Atlas, s: State, d: Snapshot, ops: seq<Op>)
    requires Tiled(t) && |s.owners| == t.g.Size() && ChunksExist(t, d.countryChunks)
  {
    (forall c :: DropCountry(c) in ops <==> c in d.removed) &&
    (forall c, row :: PutCountry(c, row) in ops <==> c in d.countries + d.cueCountries && c in s.countries && row == s.countries[c]) &&
    (forall k, bytes :: PutChunk(k, bytes) in ops <==> k in d.countryChunks && bytes == RowOf(t, s, k))
  }

  /** Removes go first. */
  predicate DropsFirst(ops: seq<Op>) {
    forall i, j :: 0 <= i < j < |ops| && ops[j].DropCountry? ==> ops[i].DropCountry?
  }

  function Slices(ops: seq<Op>): seq<seq<Op>>
    decreases |ops|
  {
    if ops == [] then []
    else if |ops| <= PUBLISH_BATCH_SIZE then [ops]
    else [ops[..PUBLISH_BATCH_SIZE]] + Slices(ops[PUBLISH_BATCH_SIZE..])
  }

  /** The slicing loop. */
  method SliceOperations(ops: seq<Op>) returns (slices: seq<seq<Op>>)
    ensures slices == Slices(ops) && InARow(slices) == ops
  {
    SlicesAreInOrder(ops);
    hide InARow;
    slices := [];
    var i := 0;
    assert ops[0..] == ops;
    while i < |ops|
      invariant 0 <= i && (i <= |ops| || slices == Slices(ops))
      invariant i <= |ops| ==> slices + Slices(ops[i..]) == Slices(ops)
      decreases |ops| - i
    {
      var end := if i + PUBLISH_BATCH_SIZE < |ops| then i + PUBLISH_BATCH_SIZE else |ops|;
      ghost var rest := ops[i..];
      assert ops[i..end] == rest[..end - i];
      if |rest| > PUBLISH_BATCH_SIZE {
        assert rest[PUBLISH_BATCH_SIZE..] == ops[end..];
        assert slices + ([ops[i..end]] + Slices(ops[end..])) == slices + [ops[i..end]] + Slices(ops[end..]);
      } else {
        assert rest == ops[i..end];
      }
      slices := slices + [ops[i..end]];
      i := i + PUBLISH_BATCH_SIZE;
    }
  }

  ghost predicate Ahead(left: seq<seq<Op>>, op: Op) {
    exists i :: 0 <= i < |left| && op in left[i]
  }

  /** Slicing loses nothing, adds nothing, and no slice is empty or over the cap. */
  lemma {:induction false} SlicesHoldAll(ops: seq<Op>)
    ensures forall op :: Ahead(Slices(ops), op) <==> op in ops
    ensures forall i :: 0 <= i < |Slices(ops)| ==> 0 < |Slices(ops)[i]| <= PUBLISH_BATCH_SIZE
    decreases |ops|
  {
    if |ops| > PUBLISH_BATCH_SIZE {
      var first, rest := ops[..PUBLISH_BATCH_SIZE], ops[PUBLISH_BATCH_SIZE..];
      SlicesHoldAll(rest);
      assert ops == first + rest;
      forall op
        ensures Ahead(Slices(ops), op) <==> op in ops
      {
        assert op in ops <==> op in first || op in rest;
        AheadSplits(first, Slices(rest), op);
      }
    } else if ops != [] {
      assert forall op :: op in ops ==> op in Slices(ops)[0];
    }
  }

  function InARow(slices: seq<seq<Op>>): seq<Op> {
    if slices == [] then [] else slices[0] + InARow(slices[1..])
  }

  /** The slices one after another are the operations in their order, and all but the last
      are full. */
  lemma {:induction false} SlicesAreInOrder(ops: seq<Op>)
    ensures InARow(Slices(ops)) == ops
    ensures forall i :: 0 <= i < |Slices(ops)| - 1 ==> |Slices(ops)[i]| == PUBLISH_BATCH_SIZE
    decreases |ops|
  {
    if |ops| > PUBLISH_BATCH_SIZE {
      var first, rest := ops[..PUBLISH_BATCH_SIZE], ops[PUBLISH_BATCH_SIZE..];
      SlicesAreInOrder(rest);
      assert Slices(ops)[1..] == Slices(rest) && ops == first + rest;
    } else if ops != [] {
      assert Slices(ops)[1..] == [] && ops + [] == ops;
    }
  }

  lemma AheadSplits(first: seq<Op>, rest: seq<seq<Op>>, op: Op)
    ensures Ahead([first] + rest, op) <==> op in first || Ahead(rest, op)
  {
    var all := [first] + rest;
    if op in first {
      assert op in all[0];
    }
    if Ahead(rest, op) {
      var i :| 0 <= i < |rest| && op in rest[i];
      assert op in all[i + 1];
    }
  }

  // ----- the store -----

  function Put(store: Store, op: Op): Store {
    match op
    case DropCountry(c) => store.(countries := store.countries - {c})
    case PutCountry(c, row) => store.(countries := store.countries[c := row])
    case PutChunk(k, bytes) => store.(chunks := store.chunks[k := bytes])
  }

  function PutAll(store: Store, ops: seq<Op>): Store
    decreases |ops|
  {
    if ops == [] then store else Put(PutAll(store, ops[..|ops| - 1]), ops[|ops| - 1])
  }

  /** A chunk all of whose writes agree holds that row after one of them. */
  lemma {:induction false} ChunkAfterPuts(store: Store, ops: seq<Op>, k: int, row: seq<Byte>)
    requires forall bytes :: PutChunk(k, bytes) in ops ==> bytes == row
    ensures
      var after := PutAll(store, ops);
      if PutChunk(k, row) in ops then k in after.chunks && after.chunks[k] == row
      else (k in after.chunks <==> k in store.chunks) && (k in store.chunks ==> after.chunks[k] == store.chunks[k])
    decreases |ops|
  {
    if ops != [] {
      assert ops == ops[..|ops| - 1] + [ops[|ops| - 1]];
      ChunkAfterPuts(store, ops[..|ops| - 1], k, row);
    }
  }

  lemma {:induction false} CountryAfterPuts(store: Store, ops: seq<Op>, c: nat, row: Country)
    requires DropCountry(c) !in ops && forall r :: PutCountry(c, r) in ops ==> r == row
    ensures
      var after := PutAll(store, ops);
      if PutCountry(c, row) in ops then c in after.countries && after.countries[c] == row
      else (c in after.countries <==> c in store.countries) && (c in store.countries ==> after.countries[c] == store.countries[c])
    decreases |ops|
  {
    if ops != [] {
      assert ops == ops[..|ops| - 1] + [ops[|ops| - 1]];
      CountryAfterPuts(store, ops[..|ops| - 1], c, row);
    }
  }

  lemma {:induction false} GoneAfterPuts(store: Store, ops: seq<Op>, c: nat)
    requires forall r :: PutCountry(c, r) !in ops
    ensures c in PutAll(store, ops).countries ==> c in store.countries && DropCountry(c) !in ops
    decreases |ops|
  {
    if ops != [] {
      assert ops == ops[..|ops| - 1] + [ops[|ops| - 1]];
      GoneAfterPuts(store, ops[..|ops| - 1], c);
    }
  }

  // ----- the live system -----

  datatype Flight = Flight(snapshot: Snapshot, left: seq<seq<Op>>, failed: bool)

  /** `used` holds every country id ever founded. */
  datatype Live = Live(world: State, store: Store, flight: Option<Flight>, used: set<nat>)

  datatype Action =
    | Advance(events: seq<Event>)
    /** Drain and send; `ops` are the operations in the order they were built. */
    | Publish(rosters: bool, chunks: bool, ops: seq<Op>)
    /** The next slice is settled: it may land or not, and may be refused even if it landed. */
    | Deliver(landed: bool, acknowledged: bool)
    /** All slices are settled. */
    | Conclude

  ghost function Next(t: Atlas, live: Live, action: Action): Option<Live>
    requires Tiled(t) && Settled(t, live.world) && ChunksExist(t, live.world.dirtyChunks)
  {
    match action
    case Advance(events) =>
      var next := Tick(t, live.world, events);
      if next.None? || !NewIds(events, live.used) then None
      else Some(live.(world := next.value, used := UsedAfter(events, live.used)))
    case Publish(rosters, chunks, ops) =>
      var d := DrainedSnapshot(live.world, rosters, chunks);
      WorldHasSize(t, live.world);
      if live.flight.Some? || !OpsOf(t, live.world, d, ops) then None
      else
        var drained := Drained(live.world, rosters, chunks);
        // Without operations the cues stay queued.
        if ops == [] then Some(live.(world := drained.(cueCountries := d.cueCountries, cuePlayers := d.cuePlayers)))
        else Some(live.(world := drained, flight := Some(Flight(d, Slices(ops), false))))
    case Deliver(landed, acknowledged) =>
      if live.flight.None? || live.flight.value.left == [] || (acknowledged && !landed) then None
      else
        var f := live.flight.value;
        Some(live.(store := if landed then PutAll(live.store, f.left[0]) else live.store,
                   flight := Some(f.(left := f.left[1..], failed := f.failed || !acknowledged))))
    case Conclude =>
      if live.flight.None? || live.flight.value.left != [] then None
      else
        var f := live.flight.value;
        Some(live.(world := if f.failed then Requeued(live.world, f.snapshot) else live.world, flight := None))
  }

  lemma WorldHasSize(t: Atlas, s: State)
    requires Settled(t, s)
    ensures |s.owners| == t.g.Size()
  {
  }

  // ----- nothing is lost -----

  /** The stored row of the chunk is its row now; a chunk never stored is blank. */
  ghost predicate Stored(t: Atlas, s: State, store: Store, k: int)
    requires Tiled(t) && |s.owners| == t.g.Size() && 0 <= k < ChunkCount(t)
  {
    if k in store.chunks then store.chunks[k] == RowOf(t, s, k)
    else forall i :: 0 <= i < ChunkCells(t) ==> CodesOf(t, s, k)[i] == 0
  }

  /** Chunk k is dirty, or on its way, or stored as it is now. */
  ghost predicate ChunkKept(t: Atlas, live: Live, k: int)
    requires Tiled(t) && |live.world.owners| == t.g.Size() && 0 <= k < ChunkCount(t)
  {
    k in live.world.dirtyChunks ||
    if live.flight.None? then Stored(t, live.world, live.store, k)
    else
      var f := live.flight.value;
      (forall bytes :: Ahead(f.left, PutChunk(k, bytes)) ==> k in f.snapshot.countryChunks && bytes == RowOf(t, live.world, k)) &&
      (Stored(t, live.world, live.store, k) || Ahead(f.left, PutChunk(k, RowOf(t, live.world, k))) ||
       (f.failed && k in f.snapshot.countryChunks))
  }

  /** A live country's row is dirty, or on its way, or stored as it is now. */
  ghost predicate CountryKept(live: Live, c: nat)
    requires c in live.world.countries
  {
    var row := live.world.countries[c];
    var stored := c in live.store.countries && live.store.countries[c] == row;
    c in live.world.dirtyCountries ||
    if live.flight.None? then stored
    else
      var f := live.flight.value;
      (forall r :: Ahead(f.left, PutCountry(c, r)) ==> r == row) &&
      (stored || (c in f.snapshot.countries && (f.failed || Ahead(f.left, PutCountry(c, row)))))
  }

  /** The removal of a country that is gone is due, or on its way, or done. */
  ghost predicate GoneKept(live: Live, c: nat) {
    c in live.world.removedCountries ||
    if live.flight.None? then c !in live.store.countries
    else
      var f := live.flight.value;
      (forall r :: !Ahead(f.left, PutCountry(c, r))) &&
      (c !in live.store.countries || (c in f.snapshot.removed && (f.failed || Ahead(f.left, DropCountry(c)))))
  }

  /** A flight carries what its snapshot lists, and what it removes is gone for good. */
  ghost predicate FlightFits(live: Live) {
    live.flight.Some? ==>
      var f := live.flight.value;
      f.snapshot.removed <= live.used && f.snapshot.removed !! live.world.countries.Keys &&
      (forall c :: Ahead(f.left, DropCountry(c)) ==> c in f.snapshot.removed) &&
      forall k, bytes :: Ahead(f.left, PutChunk(k, bytes)) ==> k in f.snapshot.countryChunks
  }

  ghost predicate ChunksAreReal(t: Atlas, live: Live) {
    ChunksExist(t, live.world.dirtyChunks) && ChunksExist(t, live.store.chunks.Keys) &&
    (live.flight.Some? ==> ChunksExist(t, live.flight.value.snapshot.countryChunks))
  }

  /** What every moment of a run keeps. */
  ghost predicate Kept(t: Atlas, live: Live) {
    Tiled(t) && Settled(t, live.world) && Sealed(t, live.world.owners) && Paletted(live.world) && Fits(live.world, live.used) &&
    |live.world.owners| == t.g.Size() && ChunksAreReal(t, live) && FlightFits(live) &&
    (forall k :: 0 <= k < ChunkCount(t) ==> ChunkKept(t, live, k)) &&
    (forall c :: c in live.world.countries ==> CountryKept(live, c)) &&
    forall c :: c !in live.world.countries ==> GoneKept(live, c)
  }

  function Idle(t: Atlas): Live {
    Live(EmptyState(t), Store(map[], map[]), None, {})
  }

  // ----- the world ticks on -----

  /** A chunk a tick does not mark keeps its codes. */
  lemma UnmarkedChunkKeepsCodes(t: Atlas, s: State, r: State, k: int, used: set<nat>)
    requires Tiled(t) && Books(t, s) && Books(t, r) && Marked(t, s, r) && Paletted(s) && Paletted(r)
    requires Fits(s, used) && Kin(s, r, used) && 0 <= k < ChunkCount(t) && k !in r.dirtyChunks
    ensures CodesOf(t, s, k) == CodesOf(t, r, k)
  {
    hide CellOf, ChunkCount, ChunkCells, Owned, Covers, Tiled;
    var a, b := CodesOf(t, s, k), CodesOf(t, r, k);
    forall i | 0 <= i < |a|
      ensures a[i] == b[i]
    {
      CellOfPlace(t, k, i);
      var q := CellOf(t, k, i);
      assert s.owners[q] == r.owners[q];
      var o := s.owners[q];
      assert o != 0 ==> o in s.countries && o in r.countries;
      assert a[i] == CodeOf(s, o) && b[i] == CodeOf(r, o);
    }
  }

  lemma AdvanceKeeps(t: Atlas, live: Live, events: seq<Event>)
    requires Kept(t, live) && Next(t, live, Advance(events)).Some?
    ensures Kept(t, Next(t, live, Advance(events)).value)
  {
    hide Tick, Settled, Sealed, Paletted, Fits, Kin, Marked, Tiled, Books, Stored, RowOf, ChunkCount;
    var s, r := live.world, Tick(t, live.world, events).value;
    var next := Next(t, live, Advance(events)).value;
    TickSeals(t, s, events);
    TickKeepsPalette(t, s, events);
    TickKeepsIds(t, s, events, live.used);
    TickIsMarked(t, s, events);
    WorldHasSize(t, r);
    TickedMarks(t, s, r, live.used);
    SettledBooks(t, s);
    forall k | 0 <= k < ChunkCount(t)
      ensures ChunkKept(t, next, k)
    {
      assert ChunkKept(t, live, k);
      if k !in r.dirtyChunks {
        UnmarkedChunkKeepsCodes(t, s, r, k, live.used);
        SameCodesSameRow(t, s, r, live.store, k);
      }
    }
    forall c | c in r.countries
      ensures CountryKept(next, c)
    {
      if c !in r.dirtyCountries {
        assert CountryKept(live, c);
      }
    }
    forall c | c !in r.countries
      ensures GoneKept(next, c)
    {
      if c !in r.removedCountries {
        assert GoneKept(live, c);
      }
    }
    FlightStillFits(live, next);
  }

  lemma SettledBooks(t: Atlas, s: State)
    requires Settled(t, s)
    ensures Books(t, s)
  {
  }

  lemma SameCodesSameRow(t: Atlas, s: State, r: State, store: Store, k: int)
    requires Tiled(t) && |s.owners| == t.g.Size() == |r.owners| && 0 <= k < ChunkCount(t) && CodesOf(t, s, k) == CodesOf(t, r, k)
    ensures RowOf(t, s, k) == RowOf(t, r, k) && (Stored(t, s, store, k) <==> Stored(t, r, store, k))
  {
    hide CodesOf, Encode;
  }

  /** The marks of a tick, read one by one. */
  lemma TickedMarks(t: Atlas, s: State, r: State, used: set<nat>)
    requires Tiled(t) && Marked(t, s, r) && ChunksExist(t, s.dirtyChunks)
    ensures ChunksExist(t, r.dirtyChunks) && s.dirtyChunks <= r.dirtyChunks && s.removedCountries <= r.removedCountries
    ensures forall c :: c in r.countries && c !in r.dirtyCountries ==>
      (c in s.countries && c !in s.dirtyCountries && r.countries[c] == s.countries[c])
    ensures forall c :: c !in r.countries && c !in r.removedCountries ==> c !in s.countries && c !in s.removedCountries
  {
    hide Tiled, ChunkCount;
    forall k | k in r.dirtyChunks
      ensures 0 <= k < ChunkCount(t)
    {
      if k !in s.dirtyChunks {
        var q: nat :| q < t.g.Size() && t.ChunkOf(q) == k;
        PlaceOfCell(t, q);
      }
    }
  }

  /** Countries in flight to removal do not come back. */
  lemma FlightStillFits(live: Live, next: Live)
    requires FlightFits(live) && next.flight == live.flight && next.store == live.store && live.used <= next.used
    requires Kin(live.world, next.world, live.used)
    ensures FlightFits(next)
  {
  }

  // ----- publishing -----

  lemma PublishKeeps(t: Atlas, live: Live, rosters: bool, chunks: bool, ops: seq<Op>)
    requires Kept(t, live) && Next(t, live, Publish(rosters, chunks, ops)).Some?
    ensures Kept(t, Next(t, live, Publish(rosters, chunks, ops)).value)
  {
    hide Settled, Sealed, Paletted, Tiled, Stored, RowOf, ChunkCount, Ahead, Slices, OpsOf;
    var next := Next(t, live, Publish(rosters, chunks, ops)).value;
    var d := DrainedSnapshot(live.world, rosters, chunks);
    SlicesHoldAll(ops);
    DrainKeepsWorld(t, live.world, next.world);
    forall k | 0 <= k < ChunkCount(t)
      ensures ChunkKept(t, next, k)
    {
      assert ChunkKept(t, live, k);
      DrainKeepsChunk(t, live.world, next.world, live.store, d, ops, k);
    }
    forall c | c in next.world.countries
      ensures CountryKept(next, c)
    {
      assert CountryKept(live, c);
      DrainKeepsCountry(t, live.world, d, ops, c);
    }
    forall c | c !in next.world.countries
      ensures GoneKept(next, c)
    {
      assert GoneKept(live, c);
      DrainKeepsCountry(t, live.world, d, ops, c);
    }
    OpsAreListed(t, live.world, d, ops);
  }

  lemma OpsAreListed(t: Atlas, s: State, d: Snapshot, ops: seq<Op>)
    requires Tiled(t) && |s.owners| == t.g.Size() && ChunksExist(t, d.countryChunks) && OpsOf(t, s, d, ops)
    ensures forall c :: DropCountry(c) in ops ==> c in d.removed
    ensures forall k, bytes :: PutChunk(k, bytes) in ops ==> k in d.countryChunks
  {
    hide RowOf, Tiled;
  }

  /** Draining and restoring touch the marks only. */
  lemma DrainKeepsWorld(t: Atlas, s: State, r: State)
    requires r == s.(dirtyChunks := r.dirtyChunks, dirtyCountries := r.dirtyCountries, removedCountries := r.removedCountries,
                     dirtyPlayers := r.dirtyPlayers, cueCountries := r.cueCountries, cuePlayers := r.cuePlayers)
    ensures Settled(t, s) ==> Settled(t, r)
    ensures Paletted(s) ==> Paletted(r)
    ensures forall c :: CodeOf(s, c) == CodeOf(r, c)
  {
    hide Safe, Watched, Owned, Covers, StartsOnBoard;
    if Settled(t, s) {
      assert forall c :: c in s.countries ==> Attended(t, s, c) ==> Attended(t, r, c);
    }
  }

  lemma RestKeepsChunk(t: Atlas, s: State, r: State, store: Store, k: int)
    requires Tiled(t) && |s.owners| == t.g.Size() && r.owners == s.owners && (forall c :: CodeOf(s, c) == CodeOf(r, c))
    requires 0 <= k < ChunkCount(t)
    ensures RowOf(t, s, k) == RowOf(t, r, k) && (Stored(t, s, store, k) <==> Stored(t, r, store, k))
  {
    hide CodeOf, CellOf, ChunkCount, ChunkCells, Encode, Tiled;
    var a, b := CodesOf(t, s, k), CodesOf(t, r, k);
    forall i | 0 <= i < |a|
      ensures a[i] == b[i]
    {
      CellOfPlace(t, k, i);
      assert a[i] == CodeOf(s, s.owners[CellOf(t, k, i)]) && b[i] == CodeOf(r, r.owners[CellOf(t, k, i)]);
    }
    assert a == b;
    SameCodesSameRow(t, s, r, store, k);
  }

  lemma DrainKeepsChunk(t: Atlas, s: State, r: State, store: Store, d: Snapshot, ops: seq<Op>, k: int)
    requires Tiled(t) && |s.owners| == t.g.Size() && r.owners == s.owners && (forall c :: CodeOf(s, c) == CodeOf(r, c))
    requires 0 <= k < ChunkCount(t) && ChunksExist(t, d.countryChunks) && OpsOf(t, s, d, ops)
    ensures RowOf(t, s, k) == RowOf(t, r, k) && (Stored(t, s, store, k) <==> Stored(t, r, store, k))
    ensures forall bytes :: PutChunk(k, bytes) in ops <==> k in d.countryChunks && bytes == RowOf(t, s, k)
    ensures ops == [] ==> k !in d.countryChunks
  {
    hide CodeOf, CellOf, ChunkCount, ChunkCells, Encode, Tiled, RowOf;
    RestKeepsChunk(t, s, r, store, k);
    assert k in d.countryChunks ==> PutChunk(k, RowOf(t, s, k)) in ops;
  }

  lemma DrainKeepsCountry(t: Atlas, s: State, d: Snapshot, ops: seq<Op>, c: nat)
    requires Tiled(t) && |s.owners| == t.g.Size() && ChunksExist(t, d.countryChunks) && OpsOf(t, s, d, ops)
    ensures DropCountry(c) in ops <==> c in d.removed
    ensures forall row :: PutCountry(c, row) in ops <==> c in d.countries + d.cueCountries && c in s.countries && row == s.countries[c]
    ensures ops == [] ==> c !in d.removed && (c in d.countries + d.cueCountries ==> c !in s.countries)
  {
    hide RowOf, Tiled;
    assert c in d.removed ==> DropCountry(c) in ops;
    assert c in d.countries + d.cueCountries && c in s.countries ==> PutCountry(c, s.countries[c]) in ops;
  }

  // ----- slices land or fail -----

  lemma AheadOfFirst(left: seq<seq<Op>>, op: Op)
    requires left != []
    ensures Ahead(left, op) <==> op in left[0] || Ahead(left[1..], op)
  {
    assert left == [left[0]] + left[1..];
    AheadSplits(left[0], left[1..], op);
  }

  lemma DeliverKeeps(t: Atlas, live: Live, landed: bool, acknowledged: bool)
    requires Kept(t, live) && Next(t, live, Deliver(landed, acknowledged)).Some?
    ensures Kept(t, Next(t, live, Deliver(landed, acknowledged)).value)
  {
    hide Settled, Sealed, Paletted, Fits, Tiled, RowOf, ChunkCount, Ahead, PutAll, ChunkKept, CountryKept, GoneKept;
    var next := Next(t, live, Deliver(landed, acknowledged)).value;
    var f := live.flight.value;
    forall op
      ensures Ahead(f.left, op) <==> op in f.left[0] || Ahead(f.left[1..], op)
    {
      AheadOfFirst(f.left, op);
    }
    forall k | 0 <= k < ChunkCount(t)
      ensures ChunkKept(t, next, k)
    {
      DeliverKeepsChunk(t, live, next, k, landed, acknowledged);
    }
    forall k | k in next.store.chunks
      ensures 0 <= k < ChunkCount(t)
    {
      DeliverKeepsIndex(t, live, k);
    }
    forall c | c in next.world.countries
      ensures CountryKept(next, c)
    {
      DeliverKeepsCountry(live, next, c, landed, acknowledged);
    }
    forall c | c !in next.world.countries
      ensures GoneKept(next, c)
    {
      DeliverKeepsGone(live, next, c, landed, acknowledged);
    }
  }

  /** How one delivery changes the system. */
  ghost predicate Delivered(live: Live, next: Live, landed: bool, acknowledged: bool) {
    live.flight.Some? && live.flight.value.left != [] && (acknowledged ==> landed) &&
    var f := live.flight.value;
    next == live.(store := if landed then PutAll(live.store, f.left[0]) else live.store,
                  flight := Some(f.(left := f.left[1..], failed := f.failed || !acknowledged)))
  }

  lemma DeliverKeepsChunk(t: Atlas, live: Live, next: Live, k: int, landed: bool, acknowledged: bool)
    requires Tiled(t) && |live.world.owners| == t.g.Size() && 0 <= k < ChunkCount(t) && Delivered(live, next, landed, acknowledged)
    requires ChunkKept(t, live, k)
    ensures ChunkKept(t, next, k)
  {
    hide Tiled, RowOf, ChunkCount, Ahead, PutAll, CodesOf;
    if k !in live.world.dirtyChunks {
      var f, row := live.flight.value, RowOf(t, live.world, k);
      forall bytes
        ensures Ahead(f.left, PutChunk(k, bytes)) <==> PutChunk(k, bytes) in f.left[0] || Ahead(f.left[1..], PutChunk(k, bytes))
      {
        AheadOfFirst(f.left, PutChunk(k, bytes));
      }
      ChunkAfterPuts(live.store, f.left[0], k, row);
    }
  }

  /** Only chunks in flight are written. */
  lemma {:induction false} PutsOnlyTheirs(store: Store, ops: seq<Op>, k: int)
    requires k in PutAll(store, ops).chunks && k !in store.chunks
    ensures exists bytes :: PutChunk(k, bytes) in ops
    decreases |ops|
  {
    assert ops == ops[..|ops| - 1] + [ops[|ops| - 1]];
    if k in PutAll(store, ops[..|ops| - 1]).chunks {
      PutsOnlyTheirs(store, ops[..|ops| - 1], k);
      var bytes :| PutChunk(k, bytes) in ops[..|ops| - 1];
      assert PutChunk(k, bytes) in ops;
    } else {
      assert PutChunk(k, ops[|ops| - 1].bytes) in ops;
    }
  }

  lemma DeliverKeepsIndex(t: Atlas, live: Live, k: int)
    requires Kept(t, live) && live.flight.Some? && live.flight.value.left != []
    requires k in live.store.chunks || k in PutAll(live.store, live.flight.value.left[0]).chunks
    ensures 0 <= k < ChunkCount(t)
  {
    hide Settled, Sealed, Paletted, Fits, Tiled, RowOf, ChunkCount, PutAll, CountryKept, GoneKept, ChunkKept;
    if k !in live.store.chunks {
      PutsOnlyTheirs(live.store, live.flight.value.left[0], k);
      var bytes :| PutChunk(k, bytes) in live.flight.value.left[0];
      assert Ahead(live.flight.value.left, PutChunk(k, bytes));
    }
  }

  lemma DeliverKeepsCountry(live: Live, next: Live, c: nat, landed: bool, acknowledged: bool)
    requires Delivered(live, next, landed, acknowledged) && c in live.world.countries && CountryKept(live, c) && FlightFits(live)
    ensures CountryKept(next, c)
  {
    hide Ahead, PutAll;
    if c !in live.world.dirtyCountries {
      var f, row := live.flight.value, live.world.countries[c];
      AheadOfFirst(f.left, DropCountry(c));
      forall r
        ensures Ahead(f.left, PutCountry(c, r)) <==> PutCountry(c, r) in f.left[0] || Ahead(f.left[1..], PutCountry(c, r))
      {
        AheadOfFirst(f.left, PutCountry(c, r));
      }
      CountryAfterPuts(live.store, f.left[0], c, row);
    }
  }

  lemma DeliverKeepsGone(live: Live, next: Live, c: nat, landed: bool, acknowledged: bool)
    requires Delivered(live, next, landed, acknowledged) && GoneKept(live, c)
    ensures GoneKept(next, c)
  {
    hide Ahead, PutAll;
    if c !in live.world.removedCountries {
      var f := live.flight.value;
      AheadOfFirst(f.left, DropCountry(c));
      forall r
        ensures Ahead(f.left, PutCountry(c, r)) <==> PutCountry(c, r) in f.left[0] || Ahead(f.left[1..], PutCountry(c, r))
      {
        AheadOfFirst(f.left, PutCountry(c, r));
      }
      GoneAfterPuts(live.store, f.left[0], c);
    }
  }

  lemma ConcludeKeeps(t: Atlas, live: Live)
    requires Kept(t, live) && Next(t, live, Conclude).Some?
    ensures Kept(t, Next(t, live, Conclude).value)
  {
    hide Settled, Sealed, Paletted, Tiled, Stored, RowOf, ChunkCount;
    var next := Next(t, live, Conclude).value;
    var f := live.flight.value;
    DrainKeepsWorld(t, live.world, next.world);
    forall k | 0 <= k < ChunkCount(t)
      ensures ChunkKept(t, next, k)
    {
      assert ChunkKept(t, live, k);
      RestKeepsChunk(t, live.world, next.world, live.store, k);
    }
    forall c | c in next.world.countries
      ensures CountryKept(next, c)
    {
      assert CountryKept(live, c);
    }
    forall c | c !in next.world.countries
      ensures GoneKept(next, c)
    {
      assert GoneKept(live, c);
    }
  }

  // ----- whole runs -----

  ghost function Run(t: Atlas, actions: seq<Action>): (r: Option<Live>)
    requires Tiled(t)
    ensures r.Some? ==> Kept(t, r.value)
    decreases |actions|
  {
    if actions == [] then
      IdleIsKept(t);
      Some(Idle(t))
    else
      match Run(t, actions[..|actions| - 1])
      case None => None
      case Some(live) =>
        NextKeeps(t, live, actions[|actions| - 1]);
        Next(t, live, actions[|actions| - 1])
  }

  lemma IdleIsKept(t: Atlas)
    requires Tiled(t)
    ensures Kept(t, Idle(t))
  {
    hide Tiled, RowOf, ChunkCount, Settled, Sealed, CellOf, ChunkCells;
    EmptyIsSealed(t);
    NobodyPaletted(t);
    forall k | 0 <= k < ChunkCount(t)
      ensures ChunkKept(t, Idle(t), k)
    {
      var codes := CodesOf(t, EmptyState(t), k);
      forall i | 0 <= i < |codes|
        ensures codes[i] == 0
      {
        CellOfPlace(t, k, i);
        assert codes[i] == CodeOf(EmptyState(t), EmptyState(t).owners[CellOf(t, k, i)]);
      }
    }
  }

  lemma EmptyIsSealed(t: Atlas)
    requires Tiled(t)
    ensures Settled(t, EmptyState(t)) && Sealed(t, EmptyState(t).owners) && |EmptyState(t).owners| == t.g.Size()
  {
    EveryHistoryIsSealed(t, []);
    assert History(t, []) == Some(EmptyState(t));
  }

  lemma NextKeeps(t: Atlas, live: Live, action: Action)
    requires Kept(t, live)
    ensures Settled(t, live.world) && ChunksExist(t, live.world.dirtyChunks)
    ensures Next(t, live, action).Some? ==> Kept(t, Next(t, live, action).value)
  {
    var next := Next(t, live, action);
    hide Next;
    if next.Some? {
      match action
      case Advance(events) => AdvanceKeeps(t, live, events);
      case Publish(rosters, chunks, ops) => PublishKeeps(t, live, rosters, chunks, ops);
      case Deliver(landed, acknowledged) => DeliverKeeps(t, live, landed, acknowledged);
      case Conclude => ConcludeKeeps(t, live);
    }
  }

  /** No update is lost, whatever fails: each chunk is dirty, or in flight, or its stored
      row decodes to the codes of the cells as they are now. */
  lemma NoUpdateIsLost(t: Atlas, actions: seq<Action>, k: int)
    requires Tiled(t) && Run(t, actions).Some? && 0 <= k < ChunkCount(t)
    ensures
      var live := Run(t, actions).value;
      |live.world.owners| == t.g.Size() &&
      (k in live.world.dirtyChunks || (live.flight.Some? && k in live.flight.value.snapshot.countryChunks) ||
       (if k in live.store.chunks then Expand(live.store.chunks[k]) == CodesOf(t, live.world, k)
        else forall i :: 0 <= i < ChunkCells(t) ==> CodesOf(t, live.world, k)[i] == 0))
  {
    hide Tiled, ChunkCount, CodesOf, Expand, Encode, Settled, Sealed, Paletted, Fits, FlightFits, CountryKept, GoneKept;
    var live := Run(t, actions).value;
    assert ChunkKept(t, live, k);
    ExpandInvertsEncode(CodesOf(t, live.world, k));
  }

  /** Nothing is due and nothing is on its way. */
  predicate AtRest(live: Live) {
    live.flight.None? && live.world.dirtyChunks == {} && live.world.dirtyCountries * live.world.countries.Keys == {} &&
    live.world.removedCountries == {}
  }

  /** The country rows of a store, each once. */
  predicate ListsCountries(store: Store, saved: seq<Saved>) {
    (forall k :: 0 <= k < |saved| ==> saved[k].country in store.countries) &&
    (forall k :: 0 <= k < |saved| && saved[k].country in store.countries ==> saved[k] == SavedRow(saved[k].country, store.countries[saved[k].country])) &&
    (forall j, k :: 0 <= j < k < |saved| ==> saved[j].country != saved[k].country) &&
    forall c :: c in store.countries ==> exists k :: 0 <= k < |saved| && saved[k].country == c
  }

  function SavedRow(country: nat, row: Country): Saved {
    Saved(country, row.color, row.isBot, row.lost)
  }

  /** The chunk rows of a store, each once. */
  predicate ListsChunks(store: Store, rows: seq<ChunkRow>) {
    (forall k :: 0 <= k < |rows| ==> rows[k].index.Some? && rows[k].index.value in store.chunks) &&
    (forall k :: 0 <= k < |rows| && rows[k].index.Some? && rows[k].index.value in store.chunks ==> rows[k].bytes == store.chunks[rows[k].index.value]) &&
    (forall j, k :: 0 <= j < k < |rows| ==> rows[j].index != rows[k].index) &&
    forall k :: k in store.chunks ==> exists i :: 0 <= i < |rows| && rows[i].index == Some(k)
  }

  /** After any run, whatever failed on the way, a store at rest restores the world: the
      same owners, and every country with land unchanged. */
  lemma StoreAtRestRestores(t: Atlas, actions: seq<Action>, saved: seq<Saved>, rows: seq<ChunkRow>)
    requires Tiled(t) && Run(t, actions).Some? && AtRest(Run(t, actions).value)
    requires ListsCountries(Run(t, actions).value.store, saved) && ListsChunks(Run(t, actions).value.store, rows)
    ensures Loaded(t, saved, rows).Some? && Inv(t, Loaded(t, saved, rows).value)
    ensures
      var s, back := Run(t, actions).value.world, PlainPass(t, Loaded(t, saved, rows).value);
      back.owners == s.owners && back.countries == map c | c in s.countries && s.countries[c].count != 0 :: s.countries[c]
  {
    hide Tiled, ChunkCount, CodesOf, Loaded, PlainPass, Inv, Paletted, Colored, Sealed, Run, ListsCountries, ListsChunks, Stored, Books, Settled;
    var live := Run(t, actions).value;
    PalettedIsColored(live.world);
    SettledBooks(t, live.world);
    RestingCountries(live, saved);
    forall k | 0 <= k < ChunkCount(t)
      ensures Stored(t, live.world, live.store, k)
    {
      assert ChunkKept(t, live, k);
    }
    RestingChunks(t, live, rows);
    RestoreReproduces(t, live.world, saved, rows);
  }

  lemma RestingCountries(live: Live, saved: seq<Saved>)
    requires AtRest(live) && ListsCountries(live.store, saved)
    requires forall c :: c in live.world.countries ==> CountryKept(live, c)
    requires forall c :: c !in live.world.countries ==> GoneKept(live, c)
    ensures CountriesSaved(live.world, saved)
  {
    forall c
      ensures c in live.store.countries <==> c in live.world.countries
      ensures c in live.store.countries ==> live.store.countries[c] == live.world.countries[c]
    {
      if c in live.world.countries {
        assert CountryKept(live, c);
        assert c !in live.world.dirtyCountries * live.world.countries.Keys;
      } else {
        assert GoneKept(live, c);
      }
    }
  }

  lemma RestingChunks(t: Atlas, live: Live, rows: seq<ChunkRow>)
    requires Tiled(t) && |live.world.owners| == t.g.Size() && Books(t, live.world) && Colored(live.world)
    requires ChunksExist(t, live.store.chunks.Keys) && ListsChunks(live.store, rows)
    requires forall k :: 0 <= k < ChunkCount(t) ==> Stored(t, live.world, live.store, k)
    ensures ChunksSaved(t, live.world, rows)
  {
    hide Tiled, ChunkCount, CellOf, ChunkCells, Encode, Owned, Covers;
    forall q | 0 <= q < |live.world.owners| && live.world.owners[q] != 0
      ensures exists i :: 0 <= i < |rows| && rows[i].index == Some(t.ChunkOf(q))
    {
      PlaceOfCell(t, q);
      var k := t.ChunkOf(q);
      assert Stored(t, live.world, live.store, k);
      assert CodesOf(t, live.world, k)[Offset(t, q)] == CodeOf(live.world, live.world.owners[q]) != 0;
      assert k in live.store.chunks;
    }
    forall i | 0 <= i < |rows|
      ensures InRange(t, rows[i]) && rows[i].bytes == Encode(CodesOf(t, live.world, rows[i].index.value))
    {
      assert Stored(t, live.world, live.store, rows[i].index.value);
    }
  }
}
