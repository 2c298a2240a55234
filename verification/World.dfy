/** The world as an object: the operations of Territory carried out in place, and the
    enclosure pass that resolves every changed country with the fast fills. */
module WorldObject {
  import opened Basics
  import opened Grid
  import opened Enclosure
  import opened Territory
  import opened Claims
  import opened Capture
  import opened Pass
  import opened Rounds
  import opened Chunks
  import opened Saves
  import opened Publishing
  import Moves
  import Credits
  import F = Filler
  import L = LocalSearch

  const BULK_CAPTURE_FLUSH_CELLS: nat := 100

  lemma ChargeNobody(s: State, owner: nat, n: nat, fromFill: bool, mover: Trigger)
    requires owner !in s.countries
    ensures Charge(s, owner, n, fromFill, mover) == s
  {
  }

  lemma ChargeShape(s: State, owner: nat, fromFill: bool, mover: Trigger)
    ensures
      var c := Charge(s, owner, 1, fromFill, mover);
      c == s.(countries := c.countries, cueCountries := c.cueCountries) && c.countries.Keys == s.countries.Keys
  {
  }

  lemma ExtendedWithin(g: Board, bounds: map<nat, Bounds>, country: nat, cell: nat)
    requires cell < g.Size() && forall c :: c in bounds ==> bounds[c].Within(g)
    ensures forall c :: c in Extended(g, bounds, country, cell) ==> Extended(g, bounds, country, cell)[c].Within(g)
  {
    RowsAreBounded(g, cell);
  }

  lemma LossKeepsBoxes(t: Atlas, s: State, owner: nat, cell: nat, fromFill: bool, mover: Trigger)
    requires |s.owners| == t.g.Size() && cell < |s.owners| && s.cursor <= |s.changed|
    ensures
      var a := Loss(t, s, owner, cell, fromFill, mover);
      a.cursor <= |a.changed| && forall c :: c in a.bounds ==> c in s.bounds && a.bounds[c] == s.bounds[c]
  {
    hide Reclaim, Add, Without, Deleted, Charge;
    var charged := Charge(s, owner, 1, fromFill, mover);
    ChargeShape(s, owner, fromFill, mover);
    AddKeeps(s.changed, owner, s.cursor);
    DeletedKeepsPlace(Noted(charged, owner), owner);
    DeletedKeepsBoxes(Noted(charged, owner), owner);
    ReclaimShape(t, Deleted(Noted(charged, owner), owner), owner, cell, fromFill);
  }

  lemma DeletedKeepsBoxes(s: State, owner: nat)
    ensures Deleted(s, owner).owners == s.owners
    ensures forall c :: c in Deleted(s, owner).bounds ==> c in s.bounds && Deleted(s, owner).bounds[c] == s.bounds[c]
  {
  }

  lemma ReclaimShape(t: Atlas, s: State, owner: nat, cell: nat, fromFill: bool)
    requires |s.owners| == t.g.Size() && cell < |s.owners|
    ensures Reclaim(t, s, owner, cell, fromFill) == s.(queue := Reclaim(t, s, owner, cell, fromFill).queue)
  {
    hide StraightExit, Queued;
  }

  /** The running extent of a bulk capture: the row and chunk column the ascending
      cells have reached, and the hull of the cells taken so far. */
  datatype Sweep = Sweep(row: int, rowEnd: int, rowBase: int, chunkRow: int, chunkFrom: int, chunkTo: int,
                         minX: int, maxX: int, minY: int, maxY: int)

  /** The sweep stands in this row. */
  ghost predicate InRow(t: Atlas, w: Sweep, row: nat) {
    w.row == row && w.rowEnd == At(t.g.width, 0, row + 1) && w.rowBase == At(t.g.width, 0, row) &&
    w.chunkRow == At(t.columns, 0, row / t.chunkHeight)
  }

  /** The chunk column the sweep stands in, if any, is marked already. */
  ghost predicate InChunk(t: Atlas, w: Sweep, chunks: set<int>) {
    w.chunkFrom == t.g.width ||
    exists column: nat :: w.chunkFrom == At(t.chunkWidth, 0, column) && w.chunkTo == w.chunkFrom + t.chunkWidth &&
                          w.chunkRow + column in chunks
  }

  /** What the sweep knows of the board after the cells in `box`. */
  ghost predicate SweepsOver(t: Atlas, w: Sweep, box: Option<Bounds>, chunks: set<int>) {
    InChunk(t, w, chunks) &&
    if box.None? then
      w.row == -1 && w.rowEnd == 0 && w.minX == t.g.width && w.maxX == -1 && w.minY == t.g.height && w.maxY == -1
    else
      w.row >= 0 && InRow(t, w, w.row) && 0 <= w.minX && 0 <= w.maxX && 0 <= w.minY <= w.row <= w.maxY &&
      box.value == Bounds(w.minX, w.maxX, w.minY, w.maxY)
  }

  lemma SweepHasHull(t: Atlas, w: Sweep, box: Option<Bounds>, chunks: set<int>)
    requires SweepsOver(t, w, box, chunks) && box.Some?
    ensures 0 <= w.minX && 0 <= w.maxX && 0 <= w.minY && 0 <= w.maxY && box.value == Bounds(w.minX, w.maxX, w.minY, w.maxY)
  {
    hide InChunk, InRow;
  }

  /** The claimant's side of a bulk capture, up to its credit. */
  function BeforeGain(s: State, h: Haul, country: nat): State
    requires h.box.Some?
  {
    s.(owners := h.owners, queue := h.queue, dirtyChunks := s.dirtyChunks + h.chunks,
       bounds := Merged(s.bounds, country, h.box.value), changed := Add(s.changed, country),
       dirtyCountries := s.dirtyCountries + {country})
  }

  lemma HoistedIsGain(s: State, h: Haul, country: nat, mover: Trigger)
    requires h.box.Some?
    ensures Hoisted(s, h, country, mover) == Gain(BeforeGain(s, h, country), country, h.taken, true, mover)
  {
    hide Gain, Merged, Add;
  }

  lemma RowEndStep(w: Positive, row: nat)
    ensures At(w, 0, row + 1) == At(w, 0, row) + w && At(w, 0, 0) == 0
  {
  }

  lemma RowFound(w: Positive, row: nat, cell: nat)
    requires At(w, 0, row) <= cell < At(w, 0, row + 1)
    ensures Row(w, cell) == row && Col(w, cell) == cell - At(w, 0, row)
  {
    RowEndStep(w, row);
    CoordinatesAreQuotients(w, cell);
    QuotientIsUnique(w, row, cell - At(w, 0, row), cell);
  }

  lemma ColumnFound(w: Positive, column: nat, x: nat)
    requires At(w, 0, column) <= x < At(w, 0, column) + w
    ensures x / w == column
  {
    QuotientIsUnique(w, column, x - At(w, 0, column), x);
  }

  lemma AtSplits(w: Positive, x: int, y: int)
    ensures At(w, x, y) == At(w, 0, y) + x
  {
  }

  lemma CornerCell(g: Board, x: nat, y: nat)
    requires x < g.width && y < g.height
    ensures 0 <= y * g.width + x < g.Size() && Col(g.width, y * g.width + x) == x && Row(g.width, y * g.width + x) == y
  {
    CoordinatesOfAt(g.width, x, y);
    RowsAreBounded(g, At(g.width, x, y));
  }

  lemma MergedWithin(g: Board, bounds: map<nat, Bounds>, country: nat, box: Bounds)
    requires box.Within(g) && forall c :: c in bounds ==> bounds[c].Within(g)
    ensures forall c :: c in Merged(bounds, country, box) ==> Merged(bounds, country, box)[c].Within(g)
  {
  }

  lemma {:induction false} NothingTakenNothingQueued(t: Atlas, owners: seq<nat>, queue: map<nat, Search>, cells: seq<nat>, country: nat)
    requires t.Valid() && |owners| == t.g.Size() && forall k :: 0 <= k < |cells| ==> cells[k] < |owners|
    requires TakeAll(t, owners, queue, cells, country).taken == 0
    ensures TakeAll(t, owners, queue, cells, country).queue == queue
    decreases |cells|
  {
    hide Row, Col, At, Queued;
    if cells != [] {
      NothingTakenNothingQueued(t, owners, queue, cells[..|cells| - 1], country);
    }
  }

  lemma HaulIsOnBoard(t: Atlas, owners: seq<nat>, queue: map<nat, Search>, cells: seq<nat>, country: nat)
    requires t.Valid() && |owners| == t.g.Size() && forall k :: 0 <= k < |cells| ==> cells[k] < |owners|
    ensures TakeAll(t, owners, queue, cells, country).box.Some? ==> TakeAll(t, owners, queue, cells, country).box.value.Within(t.g)
  {
    hide TakeAll;
    BoxHoldsTaken(t, owners, queue, cells, country);
  }

  lemma NothingTakenNothingSettled(t: Atlas, s: State, cells: seq<nat>, country: nat, mover: Trigger)
    requires t.Valid() && |s.owners| == t.g.Size() && forall k :: 0 <= k < |cells| ==> cells[k] < |s.owners|
    ensures
      var h := TakeAll(t, s.owners, s.queue, cells, country);
      var captured := Captured(t, s, cells, country, mover);
      (h.taken == 0 ==> captured == s && h.owners == s.owners && h.queue == s.queue && h.chunks == {}) &&
      (h.taken > 0 ==> h.box.Some? && captured == SettleLosers(Hoisted(s, h, country, mover), h.losers, h.losses, mover))
  {
    hide TakeAll, SettleLosers, Hoisted, Owned;
    HaulIsTallied(t, s.owners, s.queue, cells, country);
    if TakeAll(t, s.owners, s.queue, cells, country).taken == 0 {
      NothingTakenNothingQueued(t, s.owners, s.queue, cells, country);
    }
  }

  function Corner(g: Board, x: nat, y: nat): nat {
    y * g.width + x
  }

  /** Four corners cover the region's extent. */
  lemma FourCorners(g: Board, bounds: map<nat, Bounds>, country: nat, box: Bounds)
    requires box.Within(g)
    ensures
      var a := Extended(g, bounds, country, Corner(g, box.left, box.top));
      var b := Extended(g, a, country, Corner(g, box.right, box.top));
      var c := Extended(g, b, country, Corner(g, box.left, box.bottom));
      Extended(g, c, country, Corner(g, box.right, box.bottom)) == Merged(bounds, country, box)
  {
    hide Row, Col, Corner, Extended, Stretch;
    ExtendedCorner(g, bounds, country, box.left, box.top);
    var a := Extended(g, bounds, country, Corner(g, box.left, box.top));
    ExtendedCorner(g, a, country, box.right, box.top);
    var b := Extended(g, a, country, Corner(g, box.right, box.top));
    ExtendedCorner(g, b, country, box.left, box.bottom);
    var c := Extended(g, b, country, Corner(g, box.left, box.bottom));
    ExtendedCorner(g, c, country, box.right, box.bottom);
    FourStretches(if country in bounds then bounds[country] else Bounds(box.left, box.left, box.top, box.top), box);
  }

  lemma ExtendedCorner(g: Board, bounds: map<nat, Bounds>, country: nat, x: nat, y: nat)
    requires x < g.width && y < g.height
    ensures Extended(g, bounds, country, Corner(g, x, y)) ==
      bounds[country := if country in bounds then Stretch(bounds[country], x, y) else Bounds(x, x, y, y)]
  {
    hide Row, Col;
    CornerCell(g, x, y);
  }

  lemma FourStretches(own: Bounds, box: Bounds)
    requires box.left <= box.right && box.top <= box.bottom
    ensures Stretch(Stretch(Stretch(Stretch(own, box.left, box.top), box.right, box.top), box.left, box.bottom), box.right, box.bottom) ==
      Bounds(Min(own.left, box.left), Max(own.right, box.right), Min(own.top, box.top), Max(own.bottom, box.bottom))
    ensures own == Bounds(box.left, box.left, box.top, box.top) ==>
      Stretch(own, box.left, box.top) == own && own.left == box.left && own.right == box.left && own.top == box.top && own.bottom == box.top
  {
  }

  /** The captures of a country: its enclosed components around the starts, or all of them. */
  ghost predicate Found(t: Atlas, owners: seq<nat>, country: nat, starts: Search, cells: seq<nat>) {
    (forall c :: c in cells <==> c in Enclosed(t.g, owners, country)) ||
    (starts.From? && forall c :: c in cells <==> c in L.Pockets(t.g, owners, country, starts.starts, |starts.starts|))
  }

  lemma PocketsAreFound(t: Atlas, owners: seq<nat>, country: nat, starts: seq<nat>, cells: seq<nat>)
    requires forall c :: c in cells <==> c in L.Pockets(t.g, owners, country, starts, |starts|)
    ensures Found(t, owners, country, From(starts), cells)
    ensures forall c :: c in cells ==> c in Enclosed(t.g, owners, country)
  {
  }

  lemma HolesAreFound(t: Atlas, owners: seq<nat>, country: nat, box: Bounds, starts: Search, cells: seq<nat>)
    requires |owners| == t.g.Size() && Covers(t.g, box, owners, country)
    requires forall c :: c in cells <==> F.IsHole(t.g, owners, country, box, c)
    ensures Found(t, owners, country, starts, cells)
    ensures forall c :: c in cells ==> c in Enclosed(t.g, owners, country)
  {
    forall c: nat
      ensures c in cells <==> c in Enclosed(t.g, owners, country)
    {
      F.HolesAreEnclosed(t.g, owners, country, box, c);
    }
  }

  lemma InvPlaces(t: Atlas, s: State)
    requires Inv(t, s)
    ensures s.cursor <= |s.changed| && t.Valid() && |s.owners| == t.g.Size()
    ensures forall c :: c in s.bounds ==> s.bounds[c].Within(t.g)
  {
  }

  /** What a turn may rely on, and what it does when the country needs no search. */
  lemma TurnFacts(t: Atlas, s: State)
    requires Inv(t, s) && s.cursor < |s.changed|
    ensures
      var c := s.changed[s.cursor];
      (forall b :: b in s.bounds ==> s.bounds[b].Within(t.g)) &&
      (if c !in s.queue || c !in s.countries || s.countries[c].count == 0 then PlainStep(t, s) == s.(cursor := s.cursor + 1)
       else
         c in s.bounds && Covers(t.g, s.bounds[c], s.owners, c) && StartsOnBoard(t, s.queue) &&
         (s.queue[c].From? ==> forall q :: q in s.queue[c].starts ==> q < t.g.Size()))
  {
  }

  lemma CapturedWithin(t: Atlas, s: State, cells: seq<nat>, country: nat)
    requires |s.owners| == t.g.Size() && forall c :: c in cells ==> c in Enclosed(t.g, s.owners, country)
    ensures forall k :: 0 <= k < |cells| ==> cells[k] < |s.owners|
  {
    forall k | 0 <= k < |cells|
      ensures cells[k] < |s.owners|
    {
      assert cells[k] in cells;
    }
  }

  /** Capturing what was found is the plain step: the land is the same. */
  lemma FoundIsPlain(t: Atlas, s: State, cells: seq<nat>)
    requires Inv(t, s) && s.cursor < |s.changed|
    requires
      var c := s.changed[s.cursor];
      c in s.queue && c in s.countries && s.countries[c].count != 0 && Strict(cells) &&
      (forall p :: p in cells ==> p in Enclosed(t.g, s.owners, c)) && Found(t, s.owners, c, s.queue[c], cells)
    ensures
      var c := s.changed[s.cursor];
      (forall k :: 0 <= k < |cells| ==> cells[k] < |s.owners|) &&
      Captured(t, s.(cursor := s.cursor + 1, queue := s.queue[c := Whole]), cells, c, TriggerOf(s, c)) == PlainStep(t, s)
  {
    hide Captured, Enclosed, Attended, StartsOnBoard, Owned, Covers, Reach;
    var c := s.changed[s.cursor];
    var due := s.(cursor := s.cursor + 1, queue := s.queue[c := Whole]);
    var plain := Listing(Enclosed(t.g, s.owners, c), t.g.Size());
    EntriesAreMembers(plain, t.g.Size());
    CapturedWithin(t, s, cells, c);
    forall p | 0 <= p < |s.owners| && t.land[p]
      ensures p in cells <==> p in plain
    {
      FoundHasTheLand(t, s, c, cells, p);
    }
    SameLandSameCapture(t, due, cells, plain, c, TriggerOf(s, c));
  }

  lemma FoundHasTheLand(t: Atlas, s: State, c: nat, cells: seq<nat>, p: nat)
    requires Inv(t, s) && c in s.countries && c in s.queue && Found(t, s.owners, c, s.queue[c], cells)
    requires p < |s.owners| && t.land[p]
    ensures p in cells <==> p in Enclosed(t.g, s.owners, c)
  {
    if s.queue[c].From? {
      WatchedPocketsHoldTheLand(t, s, c);
    }
  }

  lemma OneTurn(t: Atlas, s: State)
    requires Inv(t, s) && s.cursor < |s.changed|
    ensures Inv(t, PlainStep(t, s)) && PlainPass(t, s) == PlainPass(t, PlainStep(t, s)) && TurnsLeft(PlainStep(t, s)) < TurnsLeft(s)
  {
    hide Inv, PlainStep;
    PlainStepKeepsInv(t, s);
  }

  lemma NoTurns(t: Atlas, s: State)
    requires Inv(t, s) && s.cursor == |s.changed|
    ensures PlainPass(t, s) == s
  {
  }

  lemma {:induction false} NothingQueuedNothingTaken(t: Atlas, s: State)
    requires Inv(t, s) && s.queue == map[]
    ensures s.cursor <= |s.changed| && PlainPass(t, s) == s.(cursor := |s.changed|)
    decreases |s.changed| - s.cursor
  {
    hide Inv;
    InvPlaces(t, s);
    if s.cursor < |s.changed| {
      PlainStepKeepsInv(t, s);
      NothingQueuedNothingTaken(t, PlainStep(t, s));
    }
  }

  lemma NobodyLeft(s: State, losses: map<nat, nat>, mover: Trigger)
    ensures SettleLosers(s, [], losses, mover) == s
  {
  }

  lemma SettleOneMore(s: State, losers: seq<nat>, losses: map<nat, nat>, i: nat, mover: Trigger)
    requires i < |losers|
    ensures SettleLosers(s, losers[..i + 1], losses, mover) ==
      Deleted(Noted(Charge(SettleLosers(s, losers[..i], losses, mover), losers[i], LossOf(losses, losers[i]), true, mover), losers[i]), losers[i])
  {
    assert losers[..i + 1][..i] == losers[..i];
  }

  lemma SettledWorld(t: Atlas, s: State)
    requires Settled(t, s)
    ensures Inv(t, s) && s.cursor == 0 && t.Valid() && |s.owners| == t.g.Size()
    ensures forall c :: c in s.bounds ==> s.bounds[c].Within(t.g)
    ensures forall id :: id in s.players ==> OnMap(t.g, s.players[id])
  {
  }

  lemma NotGone(s: State, country: nat)
    requires !Gone(s, country)
    ensures Deleted(s, country) == s
  {
  }

  lemma NowGone(s: State, country: nat)
    requires Gone(s, country)
    ensures Deleted(s, country) == Forgotten(s, country)
  {
  }

  lemma {:induction false} PaintingFails(t: Atlas, byCode: map<nat, nat>, rows: seq<ChunkRow>, i: nat)
    requires Tiled(t) && i <= |rows| && Painting(t, byCode, rows[..i]).None?
    ensures Painting(t, byCode, rows).None?
    decreases |rows| - i
  {
    hide Legible, InRange;
    if i < |rows| {
      assert rows[..i + 1][..i] == rows[..i];
      PaintingFails(t, byCode, rows, i + 1);
    } else {
      assert rows[..i] == rows;
    }
  }

  lemma {:induction false} RegisteringFails(saved: seq<Saved>, i: nat)
    requires i <= |saved| && Registered(saved[..i]).None?
    ensures Registered(saved).None?
    decreases |saved| - i
  {
    hide Register;
    if i < |saved| {
      assert saved[..i + 1][..i] == saved[..i];
      RegisteringFails(saved, i + 1);
    } else {
      assert saved[..i] == saved;
    }
  }

  lemma PaintingStep(t: Atlas, byCode: map<nat, nat>, rows: seq<ChunkRow>, i: nat)
    requires Tiled(t) && i < |rows| && Painting(t, byCode, rows[..i]).Some?
    ensures
      var writes := Painting(t, byCode, rows[..i]).value;
      Painting(t, byCode, rows[..i + 1]) ==
        if !InRange(t, rows[i]) then Some(writes)
        else if !Legible(t, byCode, rows[i]) then None
        else Some(writes + WritesOf(t, byCode, rows[i].index.value, Expand(rows[i].bytes)))
  {
    hide Legible, InRange, Expand, WritesOf;
    assert rows[..i + 1][..i] == rows[..i];
  }

  lemma WroteOneMore(t: Atlas, s: State, writes: seq<Write>, w: Write)
    requires OnBoard(writes, |s.owners|) && w.cell < |s.owners|
    ensures OnBoard(writes + [w], |s.owners|) && WroteAll(t, s, writes + [w]) == Wrote(t, WroteAll(t, s, writes), w)
  {
    hide Wrote;
    var more := writes + [w];
    assert more[..|writes|] == writes;
  }

  /** The next cell of a chunk, the way the encoder walks it. */
  lemma ChunkWalk(t: Atlas, index: nat, dx: nat, dy: nat)
    requires Tiled(t) && index < ChunkCount(t) && dx < t.chunkWidth && dy < t.chunkHeight
    ensures At(t.chunkWidth, dx, dy) < ChunkCells(t)
    ensures CellOf(t, index, At(t.chunkWidth, dx, dy)) ==
      ((index / t.columns) * t.chunkHeight + dy) * t.g.width + (index % t.columns) * t.chunkWidth + dx
  {
    hide Row, Col;
    CoordinatesAreQuotients(t.columns, index);
    CoordinatesOfAt(t.chunkWidth, dx, dy);
    RowsAreBounded(Board(t.chunkWidth, t.chunkHeight), At(t.chunkWidth, dx, dy));
    ChunkCellsIs(t);
  }

  /** The i-th cell of a chunk, the way the loader walks it. */
  lemma LoaderWalk(t: Atlas, index: nat, i: nat)
    requires Tiled(t) && index < ChunkCount(t) && i < ChunkCells(t)
    ensures CellOf(t, index, i) ==
      ((index / t.columns) * t.chunkHeight + i / t.chunkWidth) * t.g.width + (index % t.columns) * t.chunkWidth + i % t.chunkWidth
  {
    hide Row, Col;
    CoordinatesAreQuotients(t.columns, index);
    CoordinatesAreQuotients(t.chunkWidth, i);
  }

  lemma SameCodes(t: Atlas, s: State, r: State, index: nat)
    requires Tiled(t) && index < ChunkCount(t) && |s.owners| == t.g.Size() && r.owners == s.owners
    requires forall c :: CodeOf(r, c) == CodeOf(s, c)
    ensures CodesOf(t, r, index) == CodesOf(t, s, index)
  {
    hide ChunkCount, ChunkCells, CodeOf;
    var a, b := CodesOf(t, r, index), CodesOf(t, s, index);
    forall i | 0 <= i < |a|
      ensures a[i] == b[i]
    {
      CellOfPlace(t, index, i);
      assert a[i] == CodeOf(r, r.owners[CellOf(t, index, i)]);
    }
  }

  lemma OpenedEmpty(t: Atlas)
    ensures Registered([]).Some? && Registered([]).value.byCode == map[] && Opened(t, Registered([]).value) == EmptyState(t)
  {
  }

  lemma WriteKeepsCountries(t: Atlas, s: State, w: Write)
    requires w.cell < |s.owners| && (w.country == 0 || w.country in s.countries)
    ensures Wrote(t, s, w).countries.Keys == s.countries.Keys
  {
    hide Extended, Add;
  }

  lemma NothingPainted(t: Atlas, byCode: map<nat, nat>, s: State)
    requires Tiled(t)
    ensures Painting(t, byCode, []) == Some([]) && WroteAll(t, s, []) == s
  {
  }

  lemma {:induction false} CodesOfCountries(saved: seq<Saved>)
    requires Registered(saved).Some?
    ensures
      var r := Registered(saved).value;
      forall code :: code in r.byCode ==> r.byCode[code] == 0 || r.byCode[code] in r.countries
    decreases |saved|
  {
    if saved != [] {
      CodesOfCountries(saved[..|saved| - 1]);
    }
  }

  lemma NothingPending(codes: seq<Byte>, encoded: array<Byte>)
    requires encoded.Length == 2 * |codes|
    ensures Pending(codes, 0, encoded, 0, 0, -1)
  {
  }

  lemma ChunkCellsAt(t: Atlas)
    ensures ChunkCells(t) == At(t.chunkWidth, 0, t.chunkHeight)
  {
  }

  lemma AtSteps(w: Positive, dx: nat, dy: nat)
    ensures At(w, dx + 1, dy) == At(w, dx, dy) + 1 && At(w, w, dy) == At(w, 0, dy + 1) && At(w, 0, 0) == 0
  {
  }

  lemma NotedBoxes(s: State, owner: nat, n: nat, mover: Trigger)
    ensures Noted(Charge(s, owner, n, true, mover), owner).bounds == s.bounds
  {
  }

  class World {
    const t: Atlas
    const owners: array<nat>
    var countries: map<nat, Country>
    var players: map<string, Player>
    var bounds: map<nat, Bounds>
    var changed: seq<nat>
    /** How many entries of `changed` the running iteration has passed. */
    var cursor: nat
    var enclosureCountries: map<nat, Search>
    var enclosureTriggers: map<nat, string>
    var dirtyChunks: set<int>
    var dirtyCountries: set<nat>
    var removedCountries: set<nat>
    var dirtyPlayers: set<string>
    var cueCountries: set<nat>
    var cuePlayers: set<string>
    var ownerCodes: map<nat, Code>
    var bulkCapturePending: bool
    const filler: F.HoleFiller
    const search: L.Search
    /** Every object an enclosure pass may write, apart from the world itself. */
    ghost var Repr: set<object>

    ghost predicate Valid()
      reads this`Repr, filler, search, search.marks
    {
      owners in Repr && filler in Repr && search in Repr && filler.Repr <= Repr && search.Buffers() <= Repr && this !in Repr &&
      t.Valid() && owners.Length == t.g.Size() && filler.g == t.g && filler.Valid() && search.Valid() &&
      owners !in filler.Repr && owners !in search.Buffers() && filler.Repr !! search.Buffers() &&
      filler !in filler.Repr && search !in filler.Repr
    }

    /** Boxes never leave the board. */
    ghost predicate Boxed()
      reads this`cursor, this`changed, this`bounds
    {
      cursor <= |changed| && forall c :: c in bounds ==> bounds[c].Within(t.g)
    }

    ghost function View(): State
      reads this, owners
    {
      State(owners[..], countries, players, bounds, changed, cursor, enclosureCountries, enclosureTriggers,
            dirtyChunks, dirtyCountries, removedCountries, dirtyPlayers, cueCountries, cuePlayers, ownerCodes)
    }

    /** An empty world over the given land. */
    constructor (t: Atlas)
      requires t.Valid()
      ensures this.t == t && Valid() && View() == EmptyState(t)
      ensures fresh(Repr)
    {
      this.t := t;
      owners := new nat[t.g.Size()](_ => 0);
      countries, players, bounds, changed, cursor := map[], map[], map[], [], 0;
      enclosureCountries, enclosureTriggers := map[], map[];
      dirtyChunks, dirtyCountries, removedCountries, dirtyPlayers := {}, {}, {}, {};
      cueCountries, cuePlayers, ownerCodes, bulkCapturePending := {}, {}, map[], false;
      filler := new F.HoleFiller(t.g);
      search := new L.Search();
      new;
      Repr := {owners as object, filler as object, search as object} + filler.Repr + search.Buffers();
      assert owners[..] == EmptyState(t).owners;
    }

    method ExtendBounds(country: nat, cell: nat)
      modifies this`bounds
      ensures bounds == Extended(t.g, old(bounds), country, cell)
    {
      CoordinatesAreQuotients(t.g.width, cell);
      var x, y := cell % t.g.width, cell / t.g.width;
      if country !in bounds {
        bounds := bounds[country := Bounds(x, x, y, y)];
      } else {
        var box := bounds[country];
        bounds := bounds[country := Bounds(Min(box.left, x), Max(box.right, x), Min(box.top, y), Max(box.bottom, y))];
      }
    }

    method QueueEnclosure(country: nat, cell: nat)
      modifies this`enclosureCountries
      ensures enclosureCountries == Queued(old(enclosureCountries), country, cell)
    {
      if country in enclosureCountries && enclosureCountries[country].Whole? {
        return;
      }
      if country !in enclosureCountries {
        enclosureCountries := enclosureCountries[country := From([])];
      }
      var starts := enclosureCountries[country].starts;
      if |starts| == LOCAL_SEARCH_BUDGET {
        enclosureCountries := enclosureCountries[country := Whole];
      } else if cell !in starts {
        enclosureCountries := enclosureCountries[country := From(starts + [cell])];
      }
    }

    method QueueCells(country: nat, cells: seq<nat>)
      modifies this`enclosureCountries
      ensures enclosureCountries == QueuedAll(old(enclosureCountries), country, cells)
    {
      var i := 0;
      while i < |cells|
        invariant 0 <= i <= |cells|
        invariant QueuedAll(enclosureCountries, country, cells[i..]) == QueuedAll(old(enclosureCountries), country, cells)
      {
        assert cells[i..][1..] == cells[i + 1..];
        QueueEnclosure(country, cells[i]);
        i := i + 1;
      }
    }

    /** Queue enclosure searches for a cell this claim has just taken. */
    method QueueEnclosureCandidates(cell: nat, country: nat, mover: Trigger)
      requires Valid() && cell < owners.Length
      requires country in bounds ==> bounds[country].Within(t.g)
      modifies this`enclosureCountries, this`enclosureTriggers
      ensures Valid() && View() == Candidates(t, old(View()), cell, country, mover)
    {
      hide Gate, QueuedAll, RingCells, Covers, Row, Col;
      if country in enclosureCountries && enclosureCountries[country].Whole? {
        return;
      }
      if (country in enclosureCountries && cell in enclosureCountries[country].starts) || country !in bounds {
        if Named(mover) {
          enclosureTriggers := enclosureTriggers[country := mover.value];
        }
        var ring := RingCells(t.g, cell, ROW_ORDER);
        QueueCells(country, ring);
        return;
      }
      var atRisk := MayEnclose(t.g, owners, country, cell, bounds[country]);
      if atRisk.None? {
        return;
      }
      if Named(mover) {
        enclosureTriggers := enclosureTriggers[country := mover.value];
      }
      QueueCells(country, atRisk.value);
    }

    /** Count the cell for the claiming country and credit the mover who closed a fill. */
    method CreditGain(country: nat, n: nat, fromFill: bool, mover: Trigger)
      modifies this`countries, this`players, this`dirtyPlayers, this`cuePlayers
      ensures View() == Gain(old(View()), country, n, fromFill, mover)
    {
      GainCases(View(), country, n, fromFill, mover);
      hide Gain;
      if country !in countries {
        return;
      }
      countries := countries[country := countries[country].(count := countries[country].count + n)];
      if !fromFill {
        return;
      }
      if Named(mover) && mover.value in players {
        var capturer := players[mover.value];
        players := players[mover.value := capturer.(captured := capturer.captured + n)];
        dirtyPlayers := dirtyPlayers + {mover.value};
        if !capturer.isBot {
          cuePlayers := cuePlayers + {mover.value};
        }
      }
    }

    /** Book n cells against the country that just lost them. */
    method ChargeLoss(owner: nat, n: nat, fromFill: bool, mover: Trigger)
      requires owner in countries
      modifies this`countries, this`cueCountries
      ensures View() == Charge(old(View()), owner, n, fromFill, mover)
    {
      var previous := countries[owner];
      countries := countries[owner := previous.(count := previous.count - n)];
      if !fromFill || mover.None? {
        return;
      }
      countries := countries[owner := countries[owner].(lost := previous.lost + n)];
      if !previous.isBot {
        cueCountries := cueCountries + {owner};
      }
    }

    /** Grace tombstones never pin a country: only live holders count. */
    method HasHolder(country: nat) returns (held: bool)
      ensures held <==> Held(View(), country)
    {
      held := exists id :: id in players && players[id].country == country;
    }

    /** A country with no land and no live holders is gone. */
    method MaybeDeleteCountry(country: nat)
      requires cursor <= |changed|
      modifies this`countries, this`bounds, this`enclosureCountries, this`changed, this`cursor,
        this`dirtyCountries, this`removedCountries, this`ownerCodes
      ensures View() == Deleted(old(View()), country)
    {
      hide Without, Deleted, Held;
      ghost var s := View();
      if country !in countries || countries[country].count != 0 {
        NotGone(s, country);
        return;
      }
      var held := HasHolder(country);
      if held {
        NotGone(s, country);
        return;
      }
      NowGone(s, country);
      ForgetCountry(country);
    }

    /** The deletions themselves; the iterator steps back over a deleted entry it had passed. */
    method ForgetCountry(country: nat)
      requires cursor <= |changed|
      modifies this`countries, this`bounds, this`enclosureCountries, this`changed, this`cursor,
        this`dirtyCountries, this`removedCountries, this`ownerCodes
      ensures countries == old(countries) - {country} && ownerCodes == old(ownerCodes) - {country}
      ensures bounds == old(bounds) - {country} && enclosureCountries == old(enclosureCountries) - {country}
      ensures changed == Without(old(changed), country) && cursor == |Without(old(changed[..cursor]), country)|
      ensures dirtyCountries == old(dirtyCountries) - {country} && removedCountries == old(removedCountries) + {country}
    {
      hide Without;
      countries, ownerCodes := countries - {country}, ownerCodes - {country};
      bounds, enclosureCountries := bounds - {country}, enclosureCountries - {country};
      cursor, changed := |Without(changed[..cursor], country)|, Without(changed, country);
      dirtyCountries, removedCountries := dirtyCountries - {country}, removedCountries + {country};
    }

    /** A loss needs reclaim unless the cell provably reaches the exterior. */
    method QueueReclaim(owner: nat, cell: nat, fromFill: bool)
      requires Valid() && cell < owners.Length
      requires owner in bounds ==> bounds[owner].Within(t.g)
      modifies this`enclosureCountries
      ensures Valid() && View() == Reclaim(t, old(View()), owner, cell, fromFill)
    {
      if owner in enclosureCountries && enclosureCountries[owner].Whole? {
        return;
      }
      if fromFill {
        QueueEnclosure(owner, cell);
        return;
      }
      var exits := false;
      if owner in bounds {
        exits := HasStraightExit(t.g, owners, owner, cell, bounds[owner]);
      }
      if !exits {
        QueueEnclosure(owner, cell);
      }
    }

    /** Charge the loss, if the country is known, and note that it changed. */
    method BookLoss(owner: nat, n: nat, fromFill: bool, mover: Trigger)
      requires cursor <= |changed|
      modifies this`countries, this`cueCountries, this`dirtyCountries, this`changed
      ensures View() == Noted(Charge(old(View()), owner, n, fromFill, mover), owner) && cursor <= |changed|
    {
      hide Add, Charge;
      ghost var s := View();
      if owner in countries {
        ChargeLoss(owner, n, fromFill, mover);
      } else {
        ChargeNobody(s, owner, n, fromFill, mover);
      }
      AddKeeps(changed, owner, cursor);
      dirtyCountries, changed := dirtyCountries + {owner}, Add(changed, owner);
    }

    /** Settle the country that just lost this cell: its count, its roster credit,
        whether it is now gone, and whether it needs to reclaim. */
    method SettleLoss(owner: nat, cell: nat, fromFill: bool, mover: Trigger)
      requires Valid() && cell < owners.Length && cursor <= |changed|
      requires owner in bounds ==> bounds[owner].Within(t.g)
      modifies this
      ensures Repr == old(Repr)
      ensures Valid() && View() == Loss(t, old(View()), owner, cell, fromFill, mover)
    {
      hide Reclaim, Add, Without, Charge, Deleted;
      ghost var s := View();
      ChargeShape(s, owner, fromFill, mover);
      BookLoss(owner, 1, fromFill, mover);
      if owner in countries && countries[owner].count == 0 {
        MaybeDeleteCountry(owner);
      } else {
        NotGone(View(), owner);
        if owner in countries {
          QueueReclaim(owner, cell, fromFill);
        }
      }
    }

    /** The owner write, and what depends on it alone. */
    method MoveOwner(cell: nat, country: nat)
      requires Valid() && Boxed() && cell < owners.Length
      modifies this`bounds, this`changed, owners
      ensures Valid() && Boxed()
      ensures View() == old(View()).(owners := old(owners[..])[cell := country],
                                     bounds := Extended(t.g, old(bounds), country, cell), changed := Add(old(changed), country))
    {
      hide Extended, Add;
      owners[cell] := country;
      assert owners[..] == old(owners[..])[cell := country];
      ExtendedWithin(t.g, bounds, country, cell);
      ExtendBounds(country, cell);
      AddKeeps(changed, country, cursor);
      changed := Add(changed, country);
    }

    /** The claimant's side of a claim. */
    method TakeCell(cell: nat, country: nat, fromFill: bool, mover: Trigger)
      requires Valid() && Boxed() && cell < owners.Length
      modifies this, owners
      ensures Repr == old(Repr)
      ensures Valid() && Boxed() && View() == Booked(t, old(View()), cell, country, fromFill, mover)
    {
      hide Candidates, Gain, Extended, Add, At, Row, Col;
      MoveOwner(cell, country);
      CandidatesFields(t, View(), cell, country, mover);
      QueueEnclosureCandidates(cell, country, mover);
      GainShape(View().(dirtyChunks := dirtyChunks + {t.ChunkOf(cell)}, dirtyCountries := dirtyCountries + {country}),
                country, 1, fromFill, mover);
      BookGain(cell, country, fromFill, mover);
    }

    method BookGain(cell: nat, country: nat, fromFill: bool, mover: Trigger)
      requires t.Valid()
      modifies this`dirtyChunks, this`dirtyCountries, this`countries, this`players, this`dirtyPlayers, this`cuePlayers
      ensures View() == Gain(old(View()).(dirtyChunks := old(dirtyChunks) + {t.ChunkOf(cell)},
                                          dirtyCountries := old(dirtyCountries) + {country}), country, 1, fromFill, mover)
    {
      hide Gain, At, Row, Col;
      var chunk := ChunkIndex(cell);
      dirtyChunks, dirtyCountries := dirtyChunks + {chunk}, dirtyCountries + {country};
      CreditGain(country, 1, fromFill, mover);
    }

    /** Hand one cell to a country, then settle both sides of the trade. */
    method ClaimCell(cell: nat, country: nat, fromFill: bool, mover: Trigger)
      requires Valid() && Boxed() && cell < owners.Length
      modifies this, owners
      ensures Repr == old(Repr)
      ensures Valid() && Boxed() && View() == Claim(t, old(View()), cell, country, fromFill, mover)
    {
      hide Booked, Loss, Claim;
      ghost var s := View();
      var owner := owners[cell];
      if !t.land[cell] || owner == country {
        ClaimIsNothing(t, s, cell, country, fromFill, mover);
        return;
      }
      ClaimIsBookedThenLost(t, s, cell, country, fromFill, mover);
      TakeCell(cell, country, fromFill, mover);
      if owner != 0 {
        LossKeepsBoxes(t, View(), owner, cell, fromFill, mover);
        SettleLoss(owner, cell, fromFill, mover);
      }
    }

    method ChunkIndex(cell: nat) returns (chunk: int)
      requires t.Valid()
      ensures chunk == t.ChunkOf(cell)
    {
      CoordinatesAreQuotients(t.g.width, cell);
      RowStart(t.g.width, cell);
      var x := cell % t.g.width;
      var y := (cell - x) / t.g.width;
      chunk := (y / t.chunkHeight) * t.columns + x / t.chunkWidth;
    }

    /** The row only ever advances: cells arrive ascending. */
    method AdvanceRow(w: Sweep, cell: nat, ghost box: Option<Bounds>) returns (next: Sweep)
      requires t.Valid() && cell < t.g.Size() && SweepsOver(t, w, box, dirtyChunks)
      requires box.Some? ==> w.rowBase <= cell
      ensures InRow(t, next, Row(t.g.width, cell)) && InChunk(t, next, dirtyChunks) && next.rowBase <= cell < next.rowEnd
      ensures next.minX == w.minX && next.maxX == w.maxX
      ensures next.minY == if next.row < w.minY then next.row else w.minY
      ensures next.maxY == if next.row > w.maxY then next.row else w.maxY
    {
      hide Row, Col, At;
      next := w;
      if cell >= next.rowEnd {
        var row := next.row + 1;
        var rowEnd := next.rowEnd + t.g.width;
        RowEndStep(t.g.width, row);
        while cell >= rowEnd
          invariant row >= 0 && rowEnd == At(t.g.width, 0, row + 1) == At(t.g.width, 0, row) + t.g.width
          invariant At(t.g.width, 0, row) <= cell
          decreases cell - rowEnd
        {
          RowEndStep(t.g.width, row + 1);
          row, rowEnd := row + 1, rowEnd + t.g.width;
        }
        next := next.(row := row, rowEnd := rowEnd, rowBase := At(t.g.width, 0, row),
                      chunkRow := At(t.columns, 0, row / t.chunkHeight), chunkFrom := t.g.width,
                      minY := if row < next.minY then row else next.minY, maxY := if row > next.maxY then row else next.maxY);
      }
      RowFound(t.g.width, next.row, cell);
    }

    /** Marks the chunk of a cell; divides only when the chunk column changes. */
    method MarkChunk(w: Sweep, cell: nat) returns (next: Sweep)
      requires t.Valid() && cell < t.g.Size() && InChunk(t, w, dirtyChunks)
      requires InRow(t, w, Row(t.g.width, cell)) && w.rowBase <= cell < w.rowEnd
      modifies this`dirtyChunks
      ensures dirtyChunks == old(dirtyChunks) + {t.ChunkOf(cell)} && InChunk(t, next, dirtyChunks)
      ensures next == w.(chunkFrom := next.chunkFrom, chunkTo := next.chunkTo)
    {
      hide Row, Col, At;
      RowFound(t.g.width, Row(t.g.width, cell), cell);
      var x: nat := cell - w.rowBase;
      next := w;
      AtSplits(t.columns, x / t.chunkWidth, Row(t.g.width, cell) / t.chunkHeight);
      if x < w.chunkFrom || x >= w.chunkTo {
        var column: nat := x / t.chunkWidth;
        next := w.(chunkFrom := At(t.chunkWidth, 0, column), chunkTo := At(t.chunkWidth, 0, column) + t.chunkWidth);
        dirtyChunks := dirtyChunks + {w.chunkRow + column};
        assert w.chunkRow + column in dirtyChunks;
      } else {
        ghost var column: nat :| w.chunkFrom == At(t.chunkWidth, 0, column) && w.chunkTo == w.chunkFrom + t.chunkWidth &&
                           w.chunkRow + column in dirtyChunks;
        ColumnFound(t.chunkWidth, column, x);
      }
    }

    /** Advances the sweep to the next taken cell. */
    method SweepCell(w: Sweep, cell: nat, ghost box: Option<Bounds>) returns (next: Sweep)
      requires t.Valid() && cell < t.g.Size() && SweepsOver(t, w, box, dirtyChunks)
      requires box.Some? ==> w.rowBase <= cell
      modifies this`dirtyChunks
      ensures dirtyChunks == old(dirtyChunks) + {t.ChunkOf(cell)} && next.rowBase <= cell
      ensures SweepsOver(t, next, Some(Hulled(box, Col(t.g.width, cell), Row(t.g.width, cell))), dirtyChunks)
    {
      hide Row, Col, At;
      next := AdvanceRow(w, cell, box);
      RowFound(t.g.width, next.row, cell);
      RowsAreBounded(t.g, cell);
      var x := cell - next.rowBase;
      next := next.(minX := if x < next.minX then x else next.minX, maxX := if x > next.maxX then x else next.maxX);
      next := MarkChunk(next, cell);
    }

    /** Counts one lost cell and queues it for reclaim, unless the loser needs a whole scan anyway. */
    method NoteLoss(owner: nat, cell: nat, lost: seq<nat>, counts: map<nat, nat>, last: nat, lastReclaims: bool)
      returns (losers: seq<nat>, losses: map<nat, nat>, reclaim: bool)
      requires owner != 0
      requires last != 0 && !lastReclaims ==> last in enclosureCountries && enclosureCountries[last].Whole?
      modifies this`enclosureCountries
      ensures enclosureCountries == Queued(old(enclosureCountries), owner, cell)
      ensures losers == Add(lost, owner) && losses == counts[owner := LossOf(counts, owner) + 1]
      ensures !reclaim ==> owner in enclosureCountries && enclosureCountries[owner].Whole?
    {
      losers := Add(lost, owner);
      losses := counts[owner := LossOf(counts, owner) + 1];
      reclaim := lastReclaims;
      if owner != last {
        reclaim := !(owner in enclosureCountries && enclosureCountries[owner].Whole?);
      }
      if reclaim {
        QueueEnclosure(owner, cell);
      }
    }

    /** One pass of the loop over the cells. */
    method TakeNext(cell: nat, country: nat, before: nat, lost: seq<nat>, counts: map<nat, nat>, old': Sweep, last: nat, lastReclaims: bool,
                    ghost h: Haul, ghost chunks: set<int>)
      returns (taken: nat, losers: seq<nat>, losses: map<nat, nat>, sweep: Sweep, lastOwner: nat, reclaim: bool)
      requires Valid() && cell < owners.Length && Hauled(h, chunks, before, lost, counts, old')
      requires last != 0 && !lastReclaims ==> last in enclosureCountries && enclosureCountries[last].Whole?
      requires before > 0 ==> old'.rowBase <= cell
      modifies this`enclosureCountries, this`dirtyChunks, owners
      ensures Valid() && Hauled(TakeOne(t, h, cell, country), chunks, taken, losers, losses, sweep)
      ensures lastOwner != 0 && !reclaim ==> lastOwner in enclosureCountries && enclosureCountries[lastOwner].Whole?
      ensures taken > 0 ==> sweep.rowBase <= cell
    {
      hide Row, Col, At, Queued, Hulled;
      taken, losers, losses, sweep, lastOwner, reclaim := before, lost, counts, old', last, lastReclaims;
      var owner := owners[cell];
      if !t.land[cell] || owner == country {
        return;
      }
      owners[cell] := country;
      taken := taken + 1;
      if owner != 0 {
        losers, losses, reclaim := NoteLoss(owner, cell, losers, losses, lastOwner, reclaim);
        lastOwner := owner;
      }
      sweep := SweepCell(sweep, cell, h.box);
      assert chunks + h.chunks + {t.ChunkOf(cell)} == chunks + (h.chunks + {t.ChunkOf(cell)});
      assert owners[..] == h.owners[cell := country];
    }

    /** The loop over the cells: owner writes, losses, and the sweep. */
    method TakeCells(cells: seq<nat>, country: nat) returns (taken: nat, losers: seq<nat>, losses: map<nat, nat>, sweep: Sweep)
      requires Valid() && Strict(cells) && forall k :: 0 <= k < |cells| ==> cells[k] < owners.Length
      modifies this`enclosureCountries, this`dirtyChunks, owners
      ensures Valid()
      ensures Hauled(TakeAll(t, old(owners[..]), old(enclosureCountries), cells, country), old(dirtyChunks), taken, losers, losses, sweep)
    {
      hide TakeOne;
      taken, losers, losses := 0, [], map[];
      var width, height := t.g.width, t.g.height;
      sweep := Sweep(-1, 0, 0, 0, width, width, width, -1, height, -1);
      var lastOwner, reclaim := 0, false;
      ghost var first, queued, chunks := owners[..], enclosureCountries, dirtyChunks;
      for i := 0 to |cells|
        invariant Valid()
        invariant Hauled(TakeAll(t, first, queued, cells[..i], country), chunks, taken, losers, losses, sweep)
        invariant lastOwner != 0 && !reclaim ==> lastOwner in enclosureCountries && enclosureCountries[lastOwner].Whole?
        invariant taken > 0 ==> forall k :: i <= k < |cells| ==> sweep.rowBase <= cells[k]
      {
        hide Hauled;
        assert cells[..i + 1][..i] == cells[..i];
        ghost var h := TakeAll(t, first, queued, cells[..i], country);
        taken, losers, losses, sweep, lastOwner, reclaim :=
          TakeNext(cells[i], country, taken, losers, losses, sweep, lastOwner, reclaim, h, chunks);
      }
      assert cells[..|cells|] == cells;
    }

    /** The loop variables hold the haul so far. */
    ghost predicate Hauled(h: Haul, chunks: set<int>, taken: nat, losers: seq<nat>, losses: map<nat, nat>, sweep: Sweep)
      reads this, owners
    {
      owners[..] == h.owners && enclosureCountries == h.queue && dirtyChunks == chunks + h.chunks &&
      taken == h.taken && losers == h.losers && losses == h.losses && (taken > 0 <==> h.box.Some?) &&
      SweepsOver(t, sweep, h.box, dirtyChunks)
    }

    /** The four corners of the hull cover its extent. */
    method ExtendToHull(country: nat, sweep: Sweep, ghost box: Bounds)
      requires t.Valid() && 0 <= sweep.minX && 0 <= sweep.maxX && 0 <= sweep.minY && 0 <= sweep.maxY
      requires box.Within(t.g) && box == Bounds(sweep.minX, sweep.maxX, sweep.minY, sweep.maxY)
      modifies this`bounds
      ensures bounds == Merged(old(bounds), country, box)
    {
      hide Extended, Merged, Row, Col;
      FourCorners(t.g, bounds, country, box);
      ExtendBounds(country, Corner(t.g, sweep.minX, sweep.minY));
      ExtendBounds(country, Corner(t.g, sweep.maxX, sweep.minY));
      ExtendBounds(country, Corner(t.g, sweep.minX, sweep.maxY));
      ExtendBounds(country, Corner(t.g, sweep.maxX, sweep.maxY));
    }

    /** The losers, in first-touch order. */
    method SettleLosses(losers: seq<nat>, losses: map<nat, nat>, mover: Trigger)
      requires Valid() && Boxed()
      modifies this
      ensures Repr == old(Repr)
      ensures Valid() && Boxed() && View() == SettleLosers(old(View()), losers, losses, mover)
    {
      hide SettleLoser, Charge, Deleted, Noted, SettleLosers;
      ghost var s := View();
      NobodyLeft(s, losses, mover);
      for i := 0 to |losers|
        invariant Repr == old(Repr) && Valid() && Boxed() && View() == SettleLosers(s, losers[..i], losses, mover)
      {
        SettleOneMore(s, losers, losses, i, mover);
        ghost var x := View();
        BookLoss(losers[i], LossOf(losses, losers[i]), true, mover);
        ghost var noted := View();
        NotedBoxes(x, losers[i], LossOf(losses, losers[i]), mover);
        DeletedKeepsBoxes(noted, losers[i]);
        DeletedKeepsPlace(noted, losers[i]);
        if losers[i] in countries && countries[losers[i]].count == 0 {
          MaybeDeleteCountry(losers[i]);
        } else {
          NotGone(noted, losers[i]);
        }
      }
      assert losers[..|losers|] == losers;
    }

    method ClaimCells(cells: seq<nat>, country: nat, mover: Trigger)
      requires Valid() && Boxed() && forall k :: 0 <= k < |cells| ==> cells[k] < owners.Length
      modifies this, owners
      ensures Repr == old(Repr)
      ensures Valid() && Boxed() && View() == ClaimEach(t, old(View()), cells, country, mover)
    {
      hide Claim;
      for i := 0 to |cells|
        invariant Repr == old(Repr) && Valid() && Boxed() && View() == ClaimEach(t, old(View()), cells[..i], country, mover)
      {
        assert cells[..i + 1][..i] == cells[..i];
        ClaimCell(cells[i], country, true, mover);
      }
      assert cells[..|cells|] == cells;
    }

    /** The claimant's side of a bulk capture, outside the loop. */
    method HoistGain(ghost s: State, ghost h: Haul, country: nat, taken: nat, sweep: Sweep, mover: Trigger)
      requires Valid() && Boxed() && h.box.Some? && h.box.value.Within(t.g) && taken == h.taken
      requires View() == s.(owners := h.owners, queue := h.queue, dirtyChunks := s.dirtyChunks + h.chunks)
      requires SweepsOver(t, sweep, h.box, dirtyChunks)
      modifies this
      ensures Repr == old(Repr)
      ensures Valid() && Boxed() && View() == Hoisted(s, h, country, mover)
    {
      SweepHasHull(t, sweep, h.box, dirtyChunks);
      HoistedIsGain(s, h, country, mover);
      hide Gain, Merged, Add, Hoisted, SweepsOver;
      MergedWithin(t.g, bounds, country, h.box.value);
      AddKeeps(changed, country, cursor);
      ExtendToHull(country, sweep, h.box.value);
      changed, dirtyCountries := Add(changed, country), dirtyCountries + {country};
      assert View() == BeforeGain(s, h, country);
      GainShape(View(), country, taken, true, mover);
      CreditGain(country, taken, true, mover);
    }

    /** The bulk loop and the bookkeeping hoisted out of it, for a processed country. */
    method CaptureInBulk(cells: seq<nat>, country: nat, mover: Trigger)
      requires Valid() && Boxed() && Strict(cells) && forall k :: 0 <= k < |cells| ==> cells[k] < owners.Length
      requires country in enclosureCountries && enclosureCountries[country].Whole?
      modifies this, owners
      ensures Repr == old(Repr)
      ensures Valid() && Boxed() && View() == Captured(t, old(View()), cells, country, mover)
    {
      hide Captured, SettleHaul, Hoisted, SettleLosers, TakeAll, SweepsOver, Tallied;
      ghost var s := View();
      ghost var h := TakeAll(t, s.owners, s.queue, cells, country);
      HaulIsOnBoard(t, s.owners, s.queue, cells, country);
      NothingTakenNothingSettled(t, s, cells, country, mover);
      var taken, losers, losses, sweep := TakeCells(cells, country);
      if taken == 0 {
        assert dirtyChunks == s.dirtyChunks;
        return;
      }
      if taken >= BULK_CAPTURE_FLUSH_CELLS {
        bulkCapturePending := true;
      }
      HoistGain(s, h, country, taken, sweep, mover);
      SettleLosses(losers, losses, mover);
    }

    /** An enclosure fill takes a whole region at once; the roster counters, the credit, the
        dirty sets and the box move out of the loop. */
    method CaptureEnclosure(cells: seq<nat>, country: nat, mover: Trigger)
      requires Valid() && Boxed() && Strict(cells) && forall k :: 0 <= k < |cells| ==> cells[k] < owners.Length
      modifies this, owners
      ensures Repr == old(Repr)
      ensures Valid() && Boxed()
      ensures old(country in enclosureCountries && enclosureCountries[country].Whole?) ==>
        View() == Captured(t, old(View()), cells, country, mover)
      ensures !old(country in enclosureCountries && enclosureCountries[country].Whole?) ==>
        View() == ClaimEach(t, old(View()), cells, country, mover)
    {
      hide ClaimEach, Captured;
      if !(country in enclosureCountries && enclosureCountries[country].Whole?) {
        if |cells| >= BULK_CAPTURE_FLUSH_CELLS {
          bulkCapturePending := true;
        }
        ClaimCells(cells, country, mover);
        return;
      }
      CaptureInBulk(cells, country, mover);
    }

    /** The cells a country captures: the local search if it resolves within its budget,
        the whole scan otherwise. */
    method FindCaptures(country: nat, starts: Search) returns (cells: seq<nat>)
      requires Valid() && country in bounds && Covers(t.g, bounds[country], owners[..], country)
      requires starts.From? ==> forall q :: q in starts.starts ==> q < t.g.Size()
      modifies this`Repr, Repr - {owners}
      ensures Valid() && View() == old(View()) && fresh(Repr - old(Repr))
      ensures Strict(cells) && forall c :: c in cells ==> c in Enclosed(t.g, owners[..], country)
      ensures Found(t, owners[..], country, starts, cells)
    {
      hide Enclosed, L.Pockets, F.IsHole, Row, Col;
      if starts.From? {
        var local := search.LocalEnclosures(t.g, owners, country, starts.starts, bounds[country]);
        Repr := Repr + search.Buffers();
        if local.Some? {
          PocketsAreFound(t, owners[..], country, starts.starts, local.value);
          return local.value;
        }
      }
      cells := filler.Fill(owners, country, bounds[country]);
      Repr := Repr + filler.Repr;
      HolesAreFound(t, owners[..], country, bounds[country], starts, cells);
    }

    /** The turn of a country to be searched: find what it encloses and take it. */
    method SearchTurn(ghost s: State, country: nat, starts: Search, mover: Trigger)
      requires Valid() && Boxed() && Inv(t, s) && s.cursor < |s.changed| && country == s.changed[s.cursor]
      requires country in s.queue && country in s.countries && s.countries[country].count != 0
      requires View() == s.(cursor := s.cursor + 1, queue := s.queue[country := Whole])
      requires starts == s.queue[country] && mover == TriggerOf(s, country)
      requires country in bounds && Covers(t.g, bounds[country], owners[..], country)
      requires starts.From? ==> forall q :: q in starts.starts ==> q < t.g.Size()
      modifies this, Repr
      ensures Valid() && View() == PlainStep(t, s)
      ensures fresh(Repr - old(Repr))
    {
      hide Inv, Captured, ClaimEach, Enclosed, Found, PlainStep, Covers, TriggerOf;
      var cells := FindCaptures(country, starts);
      FoundIsPlain(t, s, cells);
      CaptureEnclosure(cells, country, mover);
    }

    /** One turn of the pass: the first entry ahead of the cursor. */
    method RunTurn()
      requires Valid() && Inv(t, View()) && cursor < |changed|
      modifies this, Repr
      ensures Valid() && View() == PlainStep(t, old(View()))
      ensures fresh(Repr - old(Repr)) && Credits.TurnIsPaid(t, old(View()), View())
    {
      hide Inv, Captured, Enclosed, Found, PlainStep, Covers, StartsOnBoard, ClaimEach, Credits.TurnIsPaid;
      ghost var s := View();
      TurnFacts(t, s);
      var country := changed[cursor];
      cursor := cursor + 1;
      if country in enclosureCountries && country in countries && countries[country].count != 0 && country in bounds {
        var starts := enclosureCountries[country];
        // A processed country needs no more candidates from its own captures.
        enclosureCountries := enclosureCountries[country := Whole];
        var mover := if country in enclosureTriggers then Some(enclosureTriggers[country]) else None;
        SearchTurn(s, country, starts, mover);
      }
      assert View() == PlainStep(t, s);
      hide *;
      Credits.StepIsPaid(t, s);
    }

    /** All turns of the pass. */
    method RunTurns()
      requires Valid() && Inv(t, View())
      modifies this, Repr
      ensures Valid() && fresh(Repr - old(Repr)) && View() == PlainPass(t, old(View()))
    {
      hide Inv, PlainStep, PlainPass, TurnsLeft, Valid;
      ghost var s := View();
      InvPlaces(t, s);
      while cursor < |changed|
        invariant Valid() && Inv(t, View()) && cursor <= |changed| && fresh(Repr - old(Repr))
        invariant PlainPass(t, View()) == PlainPass(t, s)
        decreases TurnsLeft(View())
      {
        OneTurn(t, View());
        RunTurn();
        InvPlaces(t, View());
      }
      NoTurns(t, View());
    }

    /** The enclosure pass: exactly the plain pass, whatever the budget allowed. */
    method FillEnclosures()
      requires Valid() && Inv(t, View())
      modifies this, Repr
      ensures Valid() && fresh(Repr - old(Repr)) && View() == Cleared(PlainPass(t, old(View())))
      ensures Credits.PassIsPaid(t, old(View()), View())
    {
      Credits.ClearedIsPaid(t, View());
      hide Credits.PassIsPaid;
      hide Inv, PlainStep, PlainPass;
      ghost var s := View();
      if |enclosureCountries| == 0 {
        NothingQueuedNothingTaken(t, s);
      } else {
        RunTurns();
      }
      ClearPass();
    }

    method ClearPass()
      modifies this`changed, this`cursor, this`enclosureCountries, this`enclosureTriggers
      ensures View() == Cleared(old(View()))
    {
      changed, cursor, enclosureCountries, enclosureTriggers := [], 0, map[], map[];
    }

    // ----- players -----

    method SurroundedByEnemy(cell: nat, country: nat) returns (surrounded: bool)
      requires Valid() && cell < owners.Length
      ensures surrounded <==> Surrounded(t.g, owners[..], cell, country)
    {
      hide Row, Col;
      var owner := owners[cell];
      if owner == 0 || owner == country {
        return false;
      }
      for i := 0 to 8
        invariant forall k :: 0 <= k < i ==> HasNeighbour(t.g, cell, k) && owners[Neighbour(t.g, cell, k)] == owner
      {
        if !HasNeighbour(t.g, cell, i) || owners[Neighbour(t.g, cell, i)] != owner {
          return false;
        }
      }
      return true;
    }

    /** Claim the cell a player stands on. */
    method Paint(cell: nat, country: nat, id: string)
      requires Valid() && Boxed() && cell < owners.Length
      modifies this, owners
      ensures Repr == old(Repr) && Valid() && View() == Painted(t, old(View()), cell, country, id)
    {
      hide Claim, Surrounded;
      if !t.land[cell] || owners[cell] == country {
        return;
      }
      var surrounded := SurroundedByEnemy(cell, country);
      if !surrounded {
        ClaimCell(cell, country, false, Some(id));
      }
    }

    method StepTo(id: string, x: nat, y: nat)
      requires t.Valid() && id in players && OnMap(t.g, players[id]) && x < t.g.width && y < t.g.height
      modifies this`players, this`dirtyPlayers
      ensures View() == Stepped(t, old(View()), id, x, y)
    {
      hide Row, Col, At;
      var player := players[id];
      var before := ChunkIndex(CellAt(t.g, player.x, player.y));
      var after := ChunkIndex(CellAt(t.g, x, y));
      var stepped := player.(credit := 0, x := x, y := y);
      if after != before {
        stepped := stepped.(lastX := x, lastY := y);
        dirtyPlayers := dirtyPlayers + {id};
      }
      players := players[id := stepped];
    }

    method Rest(id: string, player: Player)
      modifies this`players
      ensures View() == Moved(old(View()), id, player)
    {
      players := players[id := player];
    }

    /** Gather credit, step, and claim what was stepped on. */
    method Advance(id: string, x: nat, y: nat)
      requires Valid() && Boxed() && id in players && OnMap(t.g, players[id]) && x < t.g.width && y < t.g.height
      modifies this, owners
      ensures Repr == old(Repr) && Valid() && View() == Advanced(t, old(View()), id, x, y)
    {
      hide Painted, Stepped, Moved, StepCost, Row, Col, At;
      var player := players[id];
      var from, to := CellAt(t.g, player.x, player.y), CellAt(t.g, x, y);
      if player.credit + 1 < StepCost(t.land, player.country, from, to, owners[to]) {
        Rest(id, player.(credit := player.credit + 1));
        return;
      }
      StepTo(id, x, y);
      Paint(to, player.country, id);
    }

    method MovePlayer(id: string, direction: Direction)
      requires Valid() && Settled(t, View()) && id in players
      modifies this, owners
      ensures Repr == old(Repr) && Valid() && View() == Move(t, old(View()), id, direction)
      ensures Moves.Moves(t, old(View()), id, direction, View())
    {
      hide Settled, Inv, Advanced, Moved, WrapX, StepX, StepY, Moves.Moves;
      ghost var s := View();
      SettledWorld(t, View());
      if direction != Idle {
        var player := players[id];
        // Horizontal movement wraps around the seam; only the poles block.
        var x, y := WrapX(t.g.width, player.x + StepX(direction)), player.y + StepY(direction);
        if y < 0 || y >= t.g.height {
          Rest(id, player.(credit := 0));
        } else {
          Advance(id, x, y);
        }
      }
      assert View() == Move(t, s, id, direction);
      hide *;
      Moves.SettledMoves(t, s, id, direction);
    }

    /** A new player paints the cell it lands on. */
    method MakePlayer(id: string, country: nat, isBot: bool, x: nat, y: nat)
      requires Valid() && Settled(t, View()) && x < t.g.width && y < t.g.height
      modifies this, owners
      ensures Repr == old(Repr) && Valid() && View() == Joined(t, old(View()), id, country, isBot, x, y)
    {
      hide Settled, Inv, Claim, Row, Col, At;
      SettledWorld(t, View());
      players := players[id := Player(country, isBot, x, y, x, y, 0, 0)];
      dirtyPlayers := dirtyPlayers + {id};
      ClaimCell(CellAt(t.g, x, y), country, false, Some(id));
    }

    method Remove(id: string)
      requires Valid() && Settled(t, View()) && id in players
      modifies this
      ensures Repr == old(Repr) && Valid() && View() == Departed(old(View()), id)
    {
      hide Settled, Inv, Deleted;
      SettledWorld(t, View());
      var country := players[id].country;
      players := players - {id};
      dirtyPlayers := dirtyPlayers + {id};
      MaybeDeleteCountry(country);
    }

    method CreateCountry(country: nat, color: Code, isBot: bool)
      requires Valid()
      modifies this`countries, this`ownerCodes, this`dirtyCountries
      ensures View() == Founded(old(View()), country, color, isBot)
    {
      ownerCodes := ownerCodes[country := color];
      countries := countries[country := Country(color, 0, isBot, 0)];
      dirtyCountries := dirtyCountries + {country};
    }

    method Occur(e: Event)
      requires Valid() && Settled(t, View()) && Allowed(t, View(), e)
      modifies this, owners
      ensures Repr == old(Repr) && Valid() && View() == Apply(t, old(View()), e)
    {
      hide Settled, Move, Joined, Departed, Founded;
      match e
      case Step(id, direction) => MovePlayer(id, direction);
      case Arrive(id, country, isBot, x, y) => MakePlayer(id, country, isBot, x, y);
      case Leave(id) => Remove(id);
      case Create(country, color, isBot) => CreateCountry(country, color, isBot);
    }

    /** One tick in place: its events in turn, then the enclosure pass. */
    method RunTick(events: seq<Event>)
      requires Valid() && Settled(t, View()) && Play(t, View(), events).Some?
      modifies this, Repr
      ensures Valid() && fresh(Repr - old(Repr))
      ensures Tick(t, old(View()), events) == Some(View())
      ensures Settled(t, View()) && Sealed(t, owners[..]) && Books(t, View())
    {
      hide Settled, Apply, PlainPass, Inv, Allowed, Sealed, Books;
      ghost var s := View();
      var i := 0;
      while i < |events|
        invariant 0 <= i <= |events| && Repr == old(Repr) && Valid() && Settled(t, View())
        invariant Play(t, s, events) == Play(t, View(), events[i..])
      {
        assert events[i..][1..] == events[i + 1..];
        EventKeepsSettled(t, View(), events[i]);
        Occur(events[i]);
        i := i + 1;
      }
      assert Play(t, s, events) == Some(View());
      SettledWorld(t, View());
      FillEnclosures();
      TickSeals(t, s, events);
    }

    // ----- chunks -----

    /** Wire owner code for a country id; looked up once for rows that skipped registration. */
    method WireCode(country: nat) returns (code: Code)
      modifies this`ownerCodes
      ensures code == CodeOf(old(View()), country)
      ensures forall c :: CodeOf(View(), c) == CodeOf(old(View()), c)
    {
      code := if country in ownerCodes then ownerCodes[country] else 0;
      if code == 0 && country != 0 {
        code := if country in countries then countries[country].color else 0;
        ownerCodes := ownerCodes[country := code];
      }
    }

    /** One row of cells of a chunk, into the one-pass encoder. */
    method EncodeRow(ghost codes: seq<Byte>, index: nat, dy: nat, encoded: array<Byte>, from: nat, run: nat, last: int)
      returns (out: nat, currentRun: nat, currentCode: int)
      requires Valid() && Tiled(t) && index < ChunkCount(t) && dy < t.chunkHeight && (encoded as object) != owners
      requires codes == CodesOf(t, View(), index) && 0 <= At(t.chunkWidth, 0, dy)
      requires Pending(codes, At(t.chunkWidth, 0, dy), encoded, from, run, last)
      modifies this`ownerCodes, encoded
      ensures View() == old(View()).(ownerCodes := ownerCodes) && forall c :: CodeOf(View(), c) == CodeOf(old(View()), c)
      ensures 0 <= At(t.chunkWidth, 0, dy + 1) && Pending(codes, At(t.chunkWidth, 0, dy + 1), encoded, out, currentRun, currentCode)
    {
      hide CellOf, ChunkCount, ChunkCells, CodeOf, Encode, Pending, Row, Col, At;
      ghost var s := View();
      out, currentRun, currentCode := from, run, last;
      var start := ((index / t.columns) * t.chunkHeight + dy) * t.g.width + (index % t.columns) * t.chunkWidth;
      var dx := 0;
      while dx < t.chunkWidth
        invariant 0 <= dx <= t.chunkWidth && 0 <= At(t.chunkWidth, dx, dy)
        invariant Pending(codes, At(t.chunkWidth, dx, dy), encoded, out, currentRun, currentCode)
        invariant View() == s.(ownerCodes := ownerCodes) && forall c :: CodeOf(View(), c) == CodeOf(s, c)
      {
        ghost var i := At(t.chunkWidth, dx, dy);
        ChunkWalk(t, index, dx, dy);
        CellOfPlace(t, index, i);
        var code := WireCode(owners[start + dx]);
        out, currentRun, currentCode := PushCode(codes, i, encoded, out, currentRun, currentCode, code);
        AtSteps(t.chunkWidth, dx, dy);
        dx := dx + 1;
      }
      AtSteps(t.chunkWidth, dx, dy);
    }

    /** Fused palette mapping and run-length encoding for one chunk: one pass over the cells. */
    method EncodeChunk(index: nat, encoded: array<Byte>) returns (out: nat)
      requires Valid() && Tiled(t) && index < ChunkCount(t) && encoded.Length == 2 * ChunkCells(t) && (encoded as object) != owners
      modifies this`ownerCodes, encoded
      ensures View() == old(View()).(ownerCodes := ownerCodes) && forall c :: CodeOf(View(), c) == CodeOf(old(View()), c)
      ensures out <= encoded.Length && encoded[..out] == Encode(CodesOf(t, old(View()), index))
    {
      hide CellOf, ChunkCount, ChunkCells, CodeOf, Encode, Pending, Row, Col, At;
      ghost var s := View();
      ghost var codes := CodesOf(t, s, index);
      var currentCode, currentRun := -1, 0;
      out := 0;
      NothingPending(codes, encoded);
      AtSteps(t.chunkWidth, 0, 0);
      for dy := 0 to t.chunkHeight
        invariant 0 <= At(t.chunkWidth, 0, dy) && Pending(codes, At(t.chunkWidth, 0, dy), encoded, out, currentRun, currentCode)
        invariant View() == s.(ownerCodes := ownerCodes) && forall c :: CodeOf(View(), c) == CodeOf(s, c)
      {
        SameCodes(t, s, View(), index);
        out, currentRun, currentCode := EncodeRow(codes, index, dy, encoded, out, currentRun, currentCode);
      }
      ChunkCellsAt(t);
      out := FlushRun(codes, encoded, out, currentRun, currentCode);
    }

    // ----- publishing -----

    /** Snapshot the dirty marks and clear those this publish owns. */
    method Drain(rosters: bool, chunks: bool) returns (d: Snapshot)
      modifies this`dirtyChunks, this`dirtyCountries, this`removedCountries, this`dirtyPlayers, this`cueCountries, this`cuePlayers
      ensures d == DrainedSnapshot(old(View()), rosters, chunks) && View() == Drained(old(View()), rosters, chunks)
    {
      ghost var taken, left := DrainedSnapshot(View(), rosters, chunks), Drained(View(), rosters, chunks);
      assert left.owners == owners[..] && taken.cueCountries == cueCountries && taken.cuePlayers == cuePlayers;
      var countriesCued, playersCued := cueCountries, cuePlayers;
      cueCountries, cuePlayers := {}, {};
      var listedCountries, listedRemoved, listedPlayers := countriesCued, {}, playersCued;
      if rosters {
        listedCountries, listedRemoved, listedPlayers := dirtyCountries, removedCountries, dirtyPlayers;
        dirtyCountries, removedCountries, dirtyPlayers := {}, {}, {};
      } else {
        dirtyCountries, dirtyPlayers := dirtyCountries - countriesCued, dirtyPlayers - playersCued;
      }
      d := Snapshot(if chunks then dirtyChunks else {}, listedCountries, listedRemoved, listedPlayers, countriesCued, playersCued);
      if chunks {
        dirtyChunks := {};
      }
    }

    /** Re-queue a drained snapshot, so that a retry resends everything. */
    method Requeue(d: Snapshot)
      modifies this`dirtyChunks, this`dirtyCountries, this`removedCountries, this`dirtyPlayers, this`cueCountries, this`cuePlayers
      ensures View() == Requeued(old(View()), d)
    {
      ghost var s := Requeued(View(), d);
      assert s.owners == owners[..] && s.dirtyChunks == dirtyChunks + d.countryChunks && s.dirtyCountries == dirtyCountries + d.countries;
      dirtyChunks, dirtyCountries := dirtyChunks + d.countryChunks, dirtyCountries + d.countries;
      removedCountries, dirtyPlayers := removedCountries + d.removed, dirtyPlayers + d.playerRows;
      cueCountries, cuePlayers := cueCountries + d.cueCountries, cuePlayers + d.cuePlayers;
    }

    method DropOperations(removed: set<nat>) returns (ops: seq<Op>)
      ensures forall op :: op in ops <==> op.DropCountry? && op.country in removed
    {
      var todo := removed;
      ops := [];
      while todo != {}
        invariant todo <= removed
        invariant forall op :: op in ops <==> op.DropCountry? && op.country in removed - todo
      {
        var c :| c in todo;
        todo := todo - {c};
        ops := ops + [DropCountry(c)];
      }
    }

    method CountryOperations(listed: set<nat>) returns (ops: seq<Op>)
      ensures forall op :: op in ops <==> op.PutCountry? && op.country in listed && op.country in countries && op.row == countries[op.country]
    {
      var todo := listed;
      ops := [];
      while todo != {}
        invariant todo <= listed
        invariant forall op :: op in ops <==> op.PutCountry? && op.country in listed - todo && op.country in countries && op.row == countries[op.country]
      {
        var c :| c in todo;
        todo := todo - {c};
        // A country may have gone since it was marked.
        if c in countries {
          ops := ops + [PutCountry(c, countries[c])];
        }
      }
    }

    method ChunkOperations(chunks: set<int>, scratch: array<Byte>) returns (ops: seq<Op>)
      requires Valid() && Tiled(t) && ChunksExist(t, chunks) && scratch.Length == 2 * ChunkCells(t) && (scratch as object) != owners
      modifies this`ownerCodes, scratch
      ensures View() == old(View()).(ownerCodes := ownerCodes) && forall c :: CodeOf(View(), c) == CodeOf(old(View()), c)
      ensures forall op :: op in ops <==> op.PutChunk? && op.index in chunks && op.bytes == RowOf(t, old(View()), op.index)
    {
      hide CellOf, ChunkCount, ChunkCells, CodeOf, Encode;
      ghost var s := View();
      var todo: set<nat> := set k: nat | k in chunks;
      ops := [];
      while todo != {}
        invariant todo <= chunks && View() == s.(ownerCodes := ownerCodes) && forall c :: CodeOf(View(), c) == CodeOf(s, c)
        invariant forall op :: op in ops <==> op.PutChunk? && op.index in chunks - todo && op.bytes == RowOf(t, s, op.index)
      {
        var k :| k in todo;
        todo := todo - {k};
        SameCodes(t, s, View(), k);
        var out := EncodeChunk(k, scratch);
        ops := ops + [PutChunk(k, scratch[..out])];
      }
    }

    /** The operations of a snapshot; removes go first. */
    method BuildOperations(d: Snapshot, scratch: array<Byte>) returns (ops: seq<Op>)
      requires Valid() && Tiled(t) && ChunksExist(t, d.countryChunks) && scratch.Length == 2 * ChunkCells(t) && (scratch as object) != owners
      modifies this`ownerCodes, scratch
      ensures View() == old(View()).(ownerCodes := ownerCodes) && forall c :: CodeOf(View(), c) == CodeOf(old(View()), c)
      ensures OpsOf(t, old(View()), d, ops) && DropsFirst(ops)
    {
      hide CodeOf, RowOf, ChunkCells, ChunkCount;
      var drops := DropOperations(d.removed);
      var puts := CountryOperations(d.countries + d.cueCountries);
      var chunks := ChunkOperations(d.countryChunks, scratch);
      ops := drops + puts + chunks;
      assert forall i :: 0 <= i < |drops| ==> drops[i] in drops;
      assert forall i :: 0 <= i < |puts| ==> puts[i] in puts;
      assert forall i :: 0 <= i < |chunks| ==> chunks[i] in chunks;
    }

    // ----- loading a saved world -----

    /** One saved country; false when it shares its palette colour. */
    method RegisterCountry(c: Saved, ghost r: Roster, byCode: map<nat, nat>) returns (ok: bool, coded: map<nat, nat>)
      requires View() == Opened(t, r) && byCode == r.byCode
      modifies this`countries, this`ownerCodes, this`dirtyCountries
      ensures ok <==> Register(r, c).Some?
      ensures ok ==> View() == Opened(t, Register(r, c).value) && coded == Register(r, c).value.byCode
    {
      countries := countries[c.country := Country(c.color, 0, c.isBot, c.lost)];
      coded := byCode;
      if c.color != 0 {
        if Painter(byCode, c.color) != 0 {
          return false, coded;
        }
        coded := byCode[c.color := c.country];
        ownerCodes := ownerCodes[c.country := c.color];
      }
      dirtyCountries := dirtyCountries + {c.country};
      return true, coded;
    }

    method RegisterCountries(saved: seq<Saved>) returns (ok: bool, byCode: map<nat, nat>)
      requires Valid() && View() == EmptyState(t)
      modifies this`countries, this`ownerCodes, this`dirtyCountries
      ensures Valid() && (ok <==> Registered(saved).Some?)
      ensures ok ==> View() == Opened(t, Registered(saved).value) && byCode == Registered(saved).value.byCode
    {
      hide Register, Opened;
      byCode := map[];
      OpenedEmpty(t);
      for i := 0 to |saved|
        invariant Valid() && Registered(saved[..i]).Some?
        invariant View() == Opened(t, Registered(saved[..i]).value) && byCode == Registered(saved[..i]).value.byCode
      {
        assert saved[..i + 1][..i] == saved[..i];
        ok, byCode := RegisterCountry(saved[i], Registered(saved[..i]).value, byCode);
        if !ok {
          RegisteringFails(saved, i + 1);
          return;
        }
      }
      assert saved[..|saved|] == saved;
      return true, byCode;
    }

    method CountCell(cell: nat, country: nat)
      requires country in countries
      modifies this`countries, this`bounds, this`changed, this`enclosureCountries
      ensures View() == old(View()).(countries := Counted(old(countries), country, 1), bounds := Extended(t.g, old(bounds), country, cell),
                                     changed := Add(old(changed), country), queue := old(enclosureCountries)[country := Whole])
    {
      hide Extended, Add;
      countries := countries[country := countries[country].(count := countries[country].count + 1)];
      ExtendBounds(country, cell);
      changed := Add(changed, country);
      enclosureCountries := enclosureCountries[country := Whole];
    }

    /** Paint one loaded cell and count it. */
    method LoadCell(cell: nat, country: nat)
      requires Valid() && cell < owners.Length && (country == 0 || country in countries)
      modifies this, owners
      ensures Repr == old(Repr) && Valid() && View() == Wrote(t, old(View()), Write(cell, country))
    {
      owners[cell] := country;
      if country != 0 {
        CountCell(cell, country);
      }
    }

    /** Cell i of a chunk row; false where its code names no country. */
    method LoadCode(index: nat, i: nat, code: Byte, byCode: map<nat, nat>) returns (ok: bool)
      requires Valid() && Tiled(t) && index < ChunkCount(t) && i < ChunkCells(t)
      requires forall c :: c in byCode ==> byCode[c] == 0 || byCode[c] in countries
      modifies this, owners
      ensures Repr == old(Repr) && Valid() && countries.Keys == old(countries.Keys)
      ensures ok <==> code == 0 || Painter(byCode, code) != 0
      ensures 0 <= CellOf(t, index, i) < |old(View()).owners|
      ensures ok ==> View() == Wrote(t, old(View()), Write(CellOf(t, index, i), Painter(byCode, code)))
    {
      hide CellOf, ChunkCount, ChunkCells, Wrote;
      LoaderWalk(t, index, i);
      CellOfPlace(t, index, i);
      var px := (index % t.columns) * t.chunkWidth + i % t.chunkWidth;
      var py := (index / t.columns) * t.chunkHeight + i / t.chunkWidth;
      var country := if code != 0 then Painter(byCode, code) else 0;
      if code != 0 && country == 0 {
        return false;
      }
      WriteKeepsCountries(t, View(), Write(py * t.g.width + px, country));
      LoadCell(py * t.g.width + px, country);
      return true;
    }

    /** One chunk row; false where loading throws. */
    method LoadRow(row: ChunkRow, ghost s: State, ghost before: seq<Write>, byCode: map<nat, nat>) returns (ok: bool)
      requires Valid() && Tiled(t) && InRange(t, row) && OnBoard(before, |s.owners|) && View() == WroteAll(t, s, before)
      requires |s.owners| == owners.Length && forall code :: code in byCode ==> byCode[code] == 0 || byCode[code] in countries
      modifies this, owners
      ensures Repr == old(Repr) && Valid() && countries.Keys == old(countries.Keys)
      ensures ok <==> Legible(t, byCode, row)
      ensures ok ==>
        var writes := WritesOf(t, byCode, row.index.value, Expand(row.bytes));
        OnBoard(before + writes, |s.owners|) && View() == WroteAll(t, s, before + writes)
    {
      hide Expand, CellOf, ChunkCount, ChunkCells, Painter, Wrote, WroteAll;
      var read := ReadColorIndexes(row.bytes, ChunkCells(t));
      if read.InvalidChunkSize? {
        return false;
      }
      var codes, index := read.codes, row.index.value;
      ghost var writes := WritesOf(t, byCode, index, codes);
      assert before + writes[..0] == before;
      for i := 0 to |codes|
        invariant Repr == old(Repr) && Valid() && countries.Keys == old(countries.Keys)
        invariant forall k :: 0 <= k < i ==> codes[k] == 0 || Painter(byCode, codes[k]) != 0
        invariant OnBoard(before + writes[..i], |s.owners|) && View() == WroteAll(t, s, before + writes[..i])
      {
        WroteOneMore(t, s, before + writes[..i], writes[i]);
        assert before + writes[..i] + [writes[i]] == before + writes[..i + 1];
        ok := LoadCode(index, i, codes[i], byCode);
        if !ok {
          return;
        }
      }
      assert writes[..|codes|] == writes;
      return true;
    }

    /** All chunk rows; rows with unusable ids are passed over. */
    method LoadRows(rows: seq<ChunkRow>, ghost s: State, byCode: map<nat, nat>) returns (ok: bool)
      requires Valid() && Tiled(t) && View() == s
      requires forall code :: code in byCode ==> byCode[code] == 0 || byCode[code] in countries
      modifies this, owners
      ensures Repr == old(Repr) && Valid() && (ok <==> Painting(t, byCode, rows).Some?)
      ensures ok ==> View() == WroteAll(t, s, Painting(t, byCode, rows).value)
    {
      hide Legible, WritesOf, WroteAll, Painting;
      NothingPainted(t, byCode, s);
      for i := 0 to |rows|
        invariant Repr == old(Repr) && Valid() && countries.Keys == old(countries.Keys)
        invariant Painting(t, byCode, rows[..i]).Some? && View() == WroteAll(t, s, Painting(t, byCode, rows[..i]).value)
      {
        PaintingStep(t, byCode, rows, i);
        if InRange(t, rows[i]) {
          ok := LoadRow(rows[i], s, Painting(t, byCode, rows[..i]).value, byCode);
          if !ok {
            PaintingFails(t, byCode, rows, i + 1);
            return;
          }
        }
      }
      assert rows[..|rows|] == rows;
      return true;
    }

    /** Countries without land are dropped. */
    method Prune()
      modifies this`countries, this`ownerCodes, this`dirtyCountries, this`removedCountries
      ensures View() == Pruned(old(View()))
    {
      var dropped := set c | c in countries && countries[c].count == 0;
      assert dropped == countries.Keys - (set c | c in countries && countries[c].count != 0);
      countries, ownerCodes := countries - dropped, ownerCodes - dropped;
      dirtyCountries, removedCountries := dirtyCountries - dropped, removedCountries + dropped;
    }

    /** Everything of a restore before its enclosure pass; false where it throws. */
    method Load(saved: seq<Saved>, rows: seq<ChunkRow>) returns (ok: bool)
      requires Valid() && Tiled(t) && View() == EmptyState(t)
      modifies this, owners
      ensures Repr == old(Repr) && Valid() && (ok <==> Loaded(t, saved, rows).Some?)
      ensures ok ==> View() == Loaded(t, saved, rows).value
    {
      hide Registered, Painting, WroteAll, Pruned;
      var byCode;
      ok, byCode := RegisterCountries(saved);
      if ok {
        CodesOfCountries(saved);
        ok := LoadRows(rows, View(), byCode);
        if ok {
          Prune();
        }
      }
    }

    /** A restored world: loaded, and sealed by its first pass. */
    method Restore(saved: seq<Saved>, rows: seq<ChunkRow>) returns (ok: bool)
      requires Valid() && Tiled(t) && View() == EmptyState(t)
      requires NonzeroIds(saved) && RowsAgree(t, rows) && RowsOnLand(t, rows)
      modifies this, Repr
      ensures Valid() && fresh(Repr - old(Repr)) && (ok <==> Loaded(t, saved, rows).Some?)
      ensures ok ==> Inv(t, Loaded(t, saved, rows).value) && View() == Cleared(PlainPass(t, Loaded(t, saved, rows).value)) && Sealed(t, owners[..])
    {
      hide Loaded, RowsAgree, RowsOnLand, Inv, PlainPass, Sealed;
      ok := Load(saved, rows);
      if ok {
        RestoreSeals(t, saved, rows);
        SettledWorld(t, View());
        FillEnclosures();
      }
    }
  }
}
