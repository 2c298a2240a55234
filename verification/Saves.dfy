/** Saving the world as chunk rows and loading it back.

    Loading paints the rows one after another and counts what it paints.  The counts
    come out right exactly when nothing painted is overwritten and nothing painted is
    water; then the first enclosure pass leaves a sealed world, and a world saved
    without enclosed land comes back as it was. */
module Saves {
  import opened Basics
  import opened Grid
  import opened Enclosure
  import opened Territory
  import opened Claims
  import opened Capture
  import opened Pass
  import opened Rounds
  import opened Chunks

  // ----- the grid of chunks -----

  function ChunkRows(t: Atlas): nat {
    t.g.height / t.chunkHeight
  }

  function ChunkCount(t: Atlas): nat {
    t.columns * ChunkRows(t)
  }

  function ChunkCells(t: Atlas): nat {
    t.chunkWidth * t.chunkHeight
  }

  /** Both chunk dimensions divide the map exactly. */
  predicate Tiled(t: Atlas) {
    t.Valid() && t.g.height == ChunkRows(t) * t.chunkHeight
  }

  /** The i-th cell of a chunk, row by row. */
  function CellOf(t: Atlas, index: nat, i: nat): int {
    At(t.g.width,
       At(t.chunkWidth, Col(t.chunkWidth, i), Col(t.columns, index)),
       At(t.chunkHeight, Row(t.chunkWidth, i), Row(t.columns, index)))
  }

  /** A cell's position within its chunk. */
  function Offset(t: Atlas, cell: nat): int {
    At(t.chunkWidth, Col(t.g.width, cell) % t.chunkWidth, Row(t.g.width, cell) % t.chunkHeight)
  }

  lemma InTile(n: nat, size: Positive, k: nat, r: nat)
    requires r < size
    ensures 0 <= At(size, r, k) && At(size, r, k) / size == k && At(size, r, k) % size == r
    ensures k < n <==> At(size, r, k) < n * size
  {
    QuotientIsUnique(size, k, r, At(size, r, k));
    Distribute(k, n - k, size);
    MultiplesAreApart(size, n - k);
  }

  lemma OfTile(n: nat, size: Positive, a: nat)
    requires a < n * size
    ensures a / size < n && At(size, a % size, a / size) == a
  {
    InTile(n, size, a / size, a % size);
  }

  lemma TiledRows(t: Atlas)
    requires Tiled(t)
    ensures ChunkRows(t) > 0
  {
  }

  lemma ChunkPlace(t: Atlas, index: nat)
    requires Tiled(t)
    ensures index < ChunkCount(t) <==> Row(t.columns, index) < ChunkRows(t)
  {
    TiledRows(t);
    RowsAreBounded(Board(t.columns, ChunkRows(t)), index);
  }

  /** Every position of every chunk is a cell of the map, in that chunk and at that position. */
  lemma CellOfPlace(t: Atlas, index: nat, i: nat)
    requires Tiled(t) && index < ChunkCount(t) && i < ChunkCells(t)
    ensures 0 <= CellOf(t, index, i) < t.g.Size()
    ensures t.ChunkOf(CellOf(t, index, i)) == index && Offset(t, CellOf(t, index, i)) == i
  {
    hide Row, Col, At, ChunkRows, ChunkCount, ChunkCells;
    ChunkPlace(t, index);
    RowsAreBounded(Board(t.chunkWidth, t.chunkHeight), i);
    assert ChunkCells(t) == Board(t.chunkWidth, t.chunkHeight).Size() by { ChunkCellsIs(t); }
    InTile(t.columns, t.chunkWidth, Col(t.columns, index), Col(t.chunkWidth, i));
    InTile(ChunkRows(t), t.chunkHeight, Row(t.columns, index), Row(t.chunkWidth, i));
    var x := At(t.chunkWidth, Col(t.chunkWidth, i), Col(t.columns, index));
    var y := At(t.chunkHeight, Row(t.chunkWidth, i), Row(t.columns, index));
    CoordinatesOfAt(t.g.width, x, y);
    RowsAreBounded(t.g, At(t.g.width, x, y));
    CoordinatesAreQuotients(t.columns, index);
    CoordinatesAreQuotients(t.chunkWidth, i);
  }

  lemma ChunkCellsIs(t: Atlas)
    ensures ChunkCells(t) == Board(t.chunkWidth, t.chunkHeight).Size()
  {
  }

  /** Every cell of the map is in one chunk, at one position. */
  lemma PlaceOfCell(t: Atlas, cell: nat)
    requires Tiled(t) && cell < t.g.Size()
    ensures 0 <= t.ChunkOf(cell) < ChunkCount(t) && 0 <= Offset(t, cell) < ChunkCells(t)
    ensures CellOf(t, t.ChunkOf(cell), Offset(t, cell)) == cell
  {
    hide Row, Col, At, ChunkRows, ChunkCount, ChunkCells;
    var x, y := Col(t.g.width, cell), Row(t.g.width, cell);
    RowsAreBounded(t.g, cell);
    assert At(t.g.width, x, y) == cell by { CoordinatesAreQuotients(t.g.width, cell); }
    OfTile(t.columns, t.chunkWidth, x);
    OfTile(ChunkRows(t), t.chunkHeight, y);
    CoordinatesOfAt(t.columns, x / t.chunkWidth, y / t.chunkHeight);
    ChunkPlace(t, t.ChunkOf(cell));
    CoordinatesOfAt(t.chunkWidth, x % t.chunkWidth, y % t.chunkHeight);
    RowsAreBounded(Board(t.chunkWidth, t.chunkHeight), Offset(t, cell));
    ChunkCellsIs(t);
  }

  // ----- loading -----

  datatype Saved = Saved(country: nat, color: Code, isBot: bool, lost: nat)

  /** A stored chunk; its index is None when the row id is no safe integer. */
  datatype ChunkRow = ChunkRow(index: Option<int>, bytes: seq<Byte>)

  datatype Roster = Roster(countries: map<nat, Country>, byCode: map<nat, nat>, ownerCodes: map<nat, Code>, dirty: set<nat>)

  /** The country a palette code stands for; 0 when there is none. */
  function Painter(byCode: map<nat, nat>, code: nat): nat {
    if code != 0 && code in byCode then byCode[code] else 0
  }

  /** One saved country; two of them must not share a palette colour. */
  function Register(r: Roster, c: Saved): Option<Roster> {
    if c.color != 0 && Painter(r.byCode, c.color) != 0 then None
    else Some(Roster(r.countries[c.country := Country(c.color, 0, c.isBot, c.lost)],
                       if c.color != 0 then r.byCode[c.color := c.country] else r.byCode,
                       if c.color != 0 then r.ownerCodes[c.country := c.color] else r.ownerCodes,
                       r.dirty + {c.country}))
  }

  function Registered(saved: seq<Saved>): Option<Roster>
    decreases |saved|
  {
    if saved == [] then Some(Roster(map[], map[], map[], {}))
    else
      match Registered(saved[..|saved| - 1])
      case None => None
      case Some(r) => Register(r, saved[|saved| - 1])
  }

  datatype Write = Write(cell: nat, country: nat)

  /** Paint one cell, and count it for the country painted. */
  function Wrote(t: Atlas, s: State, w: Write): State
    requires w.cell < |s.owners|
  {
    var c := w.country;
    if c == 0 then s.(owners := s.owners[w.cell := 0])
    else
      s.(owners := s.owners[w.cell := c],
         countries := Counted(s.countries, c, 1),
         bounds := Extended(t.g, s.bounds, c, w.cell),
         changed := Add(s.changed, c),
         queue := s.queue[c := Whole])
  }

  predicate OnBoard(writes: seq<Write>, size: nat) {
    forall k :: 0 <= k < |writes| ==> writes[k].cell < size
  }

  function WroteAll(t: Atlas, s: State, writes: seq<Write>): (r: State)
    requires OnBoard(writes, |s.owners|)
    ensures |r.owners| == |s.owners|
    decreases |writes|
  {
    if writes == [] then s
    else
      var n := |writes| - 1;
      Wrote(t, WroteAll(t, s, writes[..n]), writes[n])
  }

  function WritesOf(t: Atlas, byCode: map<nat, nat>, index: nat, codes: seq<Byte>): (writes: seq<Write>)
    requires Tiled(t) && index < ChunkCount(t) && |codes| == ChunkCells(t)
    ensures OnBoard(writes, t.g.Size())
  {
    hide CellOf, ChunkCount, ChunkCells;
    assert forall i :: 0 <= i < |codes| ==> 0 <= CellOf(t, index, i) < t.g.Size() by {
      forall i | 0 <= i < |codes|
        ensures 0 <= CellOf(t, index, i) < t.g.Size()
      {
        CellOfPlace(t, index, i);
      }
    }
    seq(|codes|, i requires 0 <= i < |codes| => Write(CellOf(t, index, i), Painter(byCode, codes[i])))
  }

  /** Negative, out-of-range and non-numeric row ids are passed over. */
  predicate InRange(t: Atlas, row: ChunkRow) {
    row.index.Some? && 0 <= row.index.value < ChunkCount(t)
  }

  /** The row can be read: an exact stream, and every code names a country. */
  predicate Legible(t: Atlas, byCode: map<nat, nat>, row: ChunkRow) {
    Exact(row.bytes, ChunkCells(t)) &&
    forall i :: 0 <= i < |Expand(row.bytes)| ==> Expand(row.bytes)[i] == 0 || Painter(byCode, Expand(row.bytes)[i]) != 0
  }

  /** Everything the rows paint, in order; None if one of them cannot be read. */
  function Painting(t: Atlas, byCode: map<nat, nat>, rows: seq<ChunkRow>): (r: Option<seq<Write>>)
    requires Tiled(t)
    ensures r.Some? ==> OnBoard(r.value, t.g.Size())
    decreases |rows|
  {
    if rows == [] then Some([])
    else
      var n := |rows| - 1;
      var row := rows[n];
      match Painting(t, byCode, rows[..n])
      case None => None
      case Some(writes) =>
        if !InRange(t, row) then Some(writes)
        else if !Legible(t, byCode, row) then None
        else Some(writes + WritesOf(t, byCode, row.index.value, Expand(row.bytes)))
  }

  /** Nobody plays yet, so countries without land are dropped. */
  function Pruned(s: State): State {
    var kept := set c | c in s.countries && s.countries[c].count != 0;
    var dropped := s.countries.Keys - kept;
    s.(countries := s.countries - dropped,
       ownerCodes := s.ownerCodes - dropped,
       dirtyCountries := s.dirtyCountries - dropped,
       removedCountries := s.removedCountries + dropped)
  }

  /** The world before its first pass, as loaded from saved rows; None where loading throws. */
  function Loaded(t: Atlas, saved: seq<Saved>, rows: seq<ChunkRow>): Option<State>
    requires Tiled(t)
  {
    match Registered(saved)
    case None => None
    case Some(r) =>
      match Painting(t, r.byCode, rows)
      case None => None
      case Some(writes) => Some(Pruned(WroteAll(t, Opened(t, r), writes)))
  }

  function Opened(t: Atlas, r: Roster): State {
    EmptyState(t).(countries := r.countries, ownerCodes := r.ownerCodes, dirtyCountries := r.dirty)
  }

  // ----- what a painting leaves -----

  function Paint(owners: seq<nat>, writes: seq<Write>): (r: seq<nat>)
    requires OnBoard(writes, |owners|)
    ensures |r| == |owners|
    decreases |writes|
  {
    if writes == [] then owners
    else
      var n := |writes| - 1;
      Paint(owners, writes[..n])[writes[n].cell := writes[n].country]
  }

  /** How often a country is painted. */
  function Tally(writes: seq<Write>, c: nat): nat
    decreases |writes|
  {
    if writes == [] then 0
    else
      var n := |writes| - 1;
      Tally(writes[..n], c) + if writes[n].country == c then 1 else 0
  }

  /** How often a cell of a country is painted over. */
  function Overpainted(owners: seq<nat>, writes: seq<Write>, c: nat): nat
    requires OnBoard(writes, |owners|)
    decreases |writes|
  {
    if writes == [] then 0
    else
      var n := |writes| - 1;
      Overpainted(owners, writes[..n], c) + if Paint(owners, writes[..n])[writes[n].cell] == c then 1 else 0
  }

  /** Counting while painting over-counts by exactly what is painted over. */
  lemma {:induction false} TallyIsOwnedPlusOverpainted(owners: seq<nat>, writes: seq<Write>, c: nat)
    requires OnBoard(writes, |owners|)
    ensures |Owned(owners, c)| + Tally(writes, c) == |Owned(Paint(owners, writes), c)| + Overpainted(owners, writes, c)
    decreases |writes|
  {
    hide Owned;
    if writes != [] {
      var n := |writes| - 1;
      TallyIsOwnedPlusOverpainted(owners, writes[..n], c);
      var before := Paint(owners, writes[..n]);
      OwnedAfterWrite(before, writes[n].cell, writes[n].country, c);
    }
  }

  lemma OwnedAfterWrite(owners: seq<nat>, cell: nat, country: nat, c: nat)
    requires cell < |owners|
    ensures |Owned(owners[cell := country], c)| + (if owners[cell] == c then 1 else 0) == |Owned(owners, c)| + (if country == c then 1 else 0)
  {
    if owners[cell] == country {
      assert owners[cell := country] == owners;
    } else {
      OwnedMoves(owners, cell, country);
      assert c != country && c != owners[cell] ==> Owned(owners[cell := country], c) == Owned(owners, c);
    }
  }

  /** Nothing painted is painted over later. */
  predicate NoOverpainting(writes: seq<Write>) {
    forall i, j :: 0 <= i < j < |writes| && writes[i].cell == writes[j].cell ==> writes[i].country == 0
  }

  /** A cell holds what was painted on it last. */
  lemma {:induction false} LastWriteHolds(owners: seq<nat>, writes: seq<Write>, k: nat)
    requires OnBoard(writes, |owners|) && k < |writes|
    requires forall j :: k < j < |writes| ==> writes[j].cell != writes[k].cell
    ensures Paint(owners, writes)[writes[k].cell] == writes[k].country
    decreases |writes|
  {
    var n := |writes| - 1;
    if k < n {
      LastWriteHolds(owners, writes[..n], k);
    }
  }

  lemma {:induction false} UnpaintedHolds(owners: seq<nat>, writes: seq<Write>, cell: nat)
    requires OnBoard(writes, |owners|) && cell < |owners|
    requires forall j :: 0 <= j < |writes| ==> writes[j].cell != cell
    ensures Paint(owners, writes)[cell] == owners[cell]
    decreases |writes|
  {
    if writes != [] {
      UnpaintedHolds(owners, writes[..|writes| - 1], cell);
    }
  }

  /** A cell not empty at the end was painted, and not since. */
  lemma {:induction false} PaintedBySomeone(owners: seq<nat>, writes: seq<Write>, cell: nat) returns (k: nat)
    requires OnBoard(writes, |owners|) && cell < |owners| && owners[cell] != Paint(owners, writes)[cell]
    ensures k < |writes| && writes[k].cell == cell && writes[k].country == Paint(owners, writes)[cell]
    ensures forall j :: k < j < |writes| ==> writes[j].cell != cell
    decreases |writes|
  {
    var n := |writes| - 1;
    if writes[n].cell == cell {
      k := n;
    } else {
      k := PaintedBySomeone(owners, writes[..n], cell);
    }
  }

  predicate Blank(owners: seq<nat>) {
    forall q :: 0 <= q < |owners| ==> owners[q] == 0
  }

  lemma {:induction false} CleanPaintingLosesNothing(owners: seq<nat>, writes: seq<Write>, c: nat)
    requires OnBoard(writes, |owners|) && Blank(owners) && NoOverpainting(writes) && c != 0
    ensures Overpainted(owners, writes, c) == 0
    decreases |writes|
  {
    if writes != [] {
      var n := |writes| - 1;
      CleanPaintingLosesNothing(owners, writes[..n], c);
      var before := Paint(owners, writes[..n]);
      if before[writes[n].cell] == c {
        var k := PaintedBySomeone(owners, writes[..n], writes[n].cell);
      }
    }
  }

  /** The first write over a painted cell is counted as painted over. */
  lemma {:induction false} OverpaintingIsCounted(owners: seq<nat>, writes: seq<Write>, i: nat, j: nat)
    requires OnBoard(writes, |owners|) && i < j < |writes| && writes[i].cell == writes[j].cell
    ensures Overpainted(owners, writes, writes[i].country) > 0
    decreases |writes|
  {
    var n := |writes| - 1;
    if j < n {
      OverpaintingIsCounted(owners, writes[..n], i, j);
    } else if k :| i < k < n && writes[k].cell == writes[i].cell {
      OverpaintingIsCounted(owners, writes[..n], i, k);
    } else {
      LastWriteHolds(owners, writes[..n], i);
    }
  }

  // ----- the books after loading -----

  /** Every country painted is registered. */
  predicate AllRegistered(writes: seq<Write>, countries: map<nat, Country>) {
    forall k :: 0 <= k < |writes| ==> writes[k].country == 0 || writes[k].country in countries
  }

  ghost predicate Boxes(t: Atlas, s: State) {
    |s.owners| == t.g.Size() && s.bounds.Keys == s.queue.Keys == Cells(s.changed) &&
    (forall c :: c in s.bounds ==> c != 0 && s.queue[c] == Whole && Covers(t.g, s.bounds[c], s.owners, c)) &&
    (forall c, q :: c != 0 && 0 <= q < |s.owners| && s.owners[q] == c ==> c in s.bounds)
  }

  lemma WriteKeepsBoxes(t: Atlas, s: State, w: Write)
    requires Boxes(t, s) && w.cell < |s.owners|
    ensures Boxes(t, Wrote(t, s, w))
  {
    hide Covers, Extended;
    if w.country == 0 {
      forall d | d in s.bounds
        ensures Covers(t.g, s.bounds[d], s.owners[w.cell := 0], d)
      {
        StillCovers(t.g, s.bounds[d], s.owners, d, w.cell, 0);
      }
    } else {
      hide Counted, Add;
      PaintedBoxes(t, s, w.cell, w.country);
      assert Cells(Add(s.changed, w.country)) == Cells(s.changed) + {w.country} by { AddedCells(s.changed, w.country); }
    }
  }

  lemma AddedCells(s: seq<nat>, x: nat)
    ensures Cells(Add(s, x)) == Cells(s) + {x}
  {
  }

  lemma PaintedBoxes(t: Atlas, s: State, cell: nat, c: nat)
    requires Boxes(t, s) && cell < |s.owners| && c != 0
    ensures
      var bounds := Extended(t.g, s.bounds, c, cell);
      bounds.Keys == s.bounds.Keys + {c} && forall d :: d in bounds ==> Covers(t.g, bounds[d], s.owners[cell := c], d)
  {
    hide Covers, Extended;
    ExtendedHas(t.g, s.bounds, c, cell);
    CoversIsWithin(t, s);
    ExtendedCovers(t, s.owners, s.bounds, c, cell);
    forall d | d in s.bounds && d != c
      ensures Covers(t.g, s.bounds[d], s.owners[cell := c], d)
    {
      StillCovers(t.g, s.bounds[d], s.owners, d, cell, c);
    }
  }

  lemma CoversIsWithin(t: Atlas, s: State)
    requires Boxes(t, s)
    ensures forall c :: c in s.bounds ==> s.bounds[c].Within(t.g)
  {
  }

  /** What loading leaves, field by field. */
  ghost predicate LoadedFields(t: Atlas, s: State, writes: seq<Write>, r: State)
    requires OnBoard(writes, |s.owners|)
  {
    r == s.(owners := Paint(s.owners, writes), countries := r.countries, bounds := r.bounds, changed := r.changed, queue := r.queue) &&
    r.countries.Keys == s.countries.Keys && Boxes(t, r) &&
    (forall c :: c in s.countries ==> r.countries[c] == s.countries[c].(count := s.countries[c].count + if c == 0 then 0 else Tally(writes, c))) &&
    (forall c :: c in r.bounds <==> c in s.bounds || (c != 0 && Tally(writes, c) > 0))
  }

  /** One write, field by field. */
  lemma WriteFields(t: Atlas, s: State, w: Write)
    requires w.cell < |s.owners| && (w.country == 0 || w.country in s.countries)
    ensures
      var r, c := Wrote(t, s, w), w.country;
      r == s.(owners := s.owners[w.cell := c], countries := r.countries, bounds := r.bounds, changed := r.changed, queue := r.queue) &&
      r.countries.Keys == s.countries.Keys && r.bounds.Keys == (if c == 0 then s.bounds.Keys else s.bounds.Keys + {c}) &&
      (forall d :: d in s.countries ==> r.countries[d] == s.countries[d].(count := s.countries[d].count + if d == c != 0 then 1 else 0))
  {
    hide Extended, Add;
    ExtendedHas(t.g, s.bounds, w.country, w.cell);
  }

  /** The fields after one more write. */
  lemma LoadedFieldsStep(t: Atlas, s: State, writes: seq<Write>, before: State, w: Write)
    requires OnBoard(writes, |s.owners|) && LoadedFields(t, s, writes, before)
    requires w.cell < |s.owners| && (w.country == 0 || w.country in s.countries)
    ensures LoadedFields(t, s, writes + [w], Wrote(t, before, w))
  {
    hide Boxes, Wrote;
    var more := writes + [w];
    assert more[..|writes|] == writes;
    WriteKeepsBoxes(t, before, w);
    WriteFields(t, before, w);
  }

  lemma {:induction false} WroteAllLeaves(t: Atlas, s: State, writes: seq<Write>)
    requires OnBoard(writes, |s.owners|) && AllRegistered(writes, s.countries) && Boxes(t, s)
    ensures LoadedFields(t, s, writes, WroteAll(t, s, writes))
    decreases |writes|
  {
    hide Boxes, Wrote;
    if writes != [] {
      hide LoadedFields;
      var n := |writes| - 1;
      WroteAllLeaves(t, s, writes[..n]);
      LoadedFieldsStep(t, s, writes[..n], WroteAll(t, s, writes[..n]), writes[n]);
      assert writes[..n] + [writes[n]] == writes;
    }
  }

  /** Nothing is painted on water. */
  predicate OnLand(t: Atlas, writes: seq<Write>) {
    forall k :: 0 <= k < |writes| && writes[k].cell < |t.land| && writes[k].country != 0 ==> t.land[writes[k].cell]
  }

  /** A painting that the world can take as it is. */
  predicate Clean(t: Atlas, writes: seq<Write>) {
    OnLand(t, writes) && NoOverpainting(writes)
  }

  lemma CountsAreOwned(t: Atlas, r: Roster, writes: seq<Write>, c: nat)
    requires t.Valid() && OnBoard(writes, t.g.Size()) && AllRegistered(writes, r.countries) && c in r.countries && c != 0
    requires r.countries[c].count == 0
    ensures
      var s := WroteAll(t, Opened(t, r), writes);
      s.countries.Keys == r.countries.Keys &&
      s.countries[c].count == |Owned(s.owners, c)| + Overpainted(Opened(t, r).owners, writes, c)
  {
    hide Owned;
    var o := Opened(t, r);
    OpenedBoxes(t, r);
    WroteAllLeaves(t, o, writes);
    TallyIsOwnedPlusOverpainted(o.owners, writes, c);
    NothingOwnedAtFirst(t, c);
  }

  lemma OpenedBoxes(t: Atlas, r: Roster)
    ensures Boxes(t, Opened(t, r))
  {
  }

  lemma NothingOwnedAtFirst(t: Atlas, c: nat)
    requires c != 0
    ensures |Owned(EmptyState(t).owners, c)| == 0 && Blank(EmptyState(t).owners)
  {
    assert Owned(EmptyState(t).owners, c) == {};
  }

  /** Registered countries: no land yet, and no id is 0 if none was saved as 0. */
  ghost predicate Fresh(r: Roster) {
    0 !in r.countries && forall c :: c in r.countries ==> r.countries[c].count == 0
  }

  /** Loading balances the books exactly when the painting is clean. */
  lemma LoadBalances(t: Atlas, r: Roster, writes: seq<Write>)
    requires Tiled(t) && Fresh(r) && OnBoard(writes, t.g.Size()) && AllRegistered(writes, r.countries)
    ensures Books(t, Pruned(WroteAll(t, Opened(t, r), writes))) <==> Clean(t, writes)
  {
    if Clean(t, writes) {
      CleanBalances(t, r, writes);
    } else {
      UncleanMiscounts(t, r, writes);
    }
  }

  lemma CleanBalances(t: Atlas, r: Roster, writes: seq<Write>)
    requires Tiled(t) && Fresh(r) && OnBoard(writes, t.g.Size()) && AllRegistered(writes, r.countries) && Clean(t, writes)
    ensures Inv(t, Pruned(WroteAll(t, Opened(t, r), writes)))
    ensures Pruned(WroteAll(t, Opened(t, r), writes)).cursor == 0
  {
    hide Owned, Covers, Safe, Extended;
    var o := Opened(t, r);
    var s := WroteAll(t, o, writes);
    OpenedBoxes(t, r);
    WroteAllLeaves(t, o, writes);
    NothingOwnedAtFirst(t, 1);
    forall c | c in s.countries
      ensures s.countries[c].count == |Owned(s.owners, c)|
    {
      CountsAreOwned(t, r, writes, c);
      CleanPaintingLosesNothing(o.owners, writes, c);
    }
    forall q | 0 <= q < |s.owners| && s.owners[q] != 0
      ensures t.land[q] && s.owners[q] in s.countries && s.countries[s.owners[q]].count != 0
    {
      var k := PaintedBySomeone(o.owners, writes, q);
      OwnsSome(s.owners, q);
    }
    PrunedKeepsInv(t, s);
  }

  lemma OwnsSome(owners: seq<nat>, q: nat)
    requires q < |owners|
    ensures |Owned(owners, owners[q])| > 0
  {
    assert q in Owned(owners, owners[q]);
  }

  lemma PrunedKeepsInv(t: Atlas, s: State)
    requires t.Valid() && Boxes(t, s) && 0 !in s.countries && s.cursor == 0 && s.players == map[]
    requires forall c :: c in s.countries ==> s.countries[c].count == |Owned(s.owners, c)|
    requires forall q :: 0 <= q < |s.owners| && s.owners[q] != 0 ==>
      t.land[q] && s.owners[q] in s.countries && s.countries[s.owners[q]].count != 0
    ensures Inv(t, Pruned(s))
  {
    hide Safe;
    var p := Pruned(s);
    forall c | c in p.countries
      ensures c in p.bounds && Covers(t.g, p.bounds[c], p.owners, c) && Attended(t, p, c)
    {
      var q :| q in Owned(s.owners, c);
      assert s.owners[q] == c && c in s.bounds;
      assert p.changed[0..] == p.changed;
    }
    assert forall c :: c in p.bounds ==> p.bounds[c].Within(t.g);
  }

  lemma UncleanMiscounts(t: Atlas, r: Roster, writes: seq<Write>)
    requires Tiled(t) && Fresh(r) && OnBoard(writes, t.g.Size()) && AllRegistered(writes, r.countries) && !Clean(t, writes)
    ensures !Books(t, Pruned(WroteAll(t, Opened(t, r), writes)))
  {
    hide Owned, Covers, Boxes;
    var o := Opened(t, r);
    var s := WroteAll(t, o, writes);
    OpenedBoxes(t, r);
    WroteAllLeaves(t, o, writes);
    if !NoOverpainting(writes) {
      var i, j :| 0 <= i < j < |writes| && writes[i].cell == writes[j].cell && writes[i].country != 0;
      OverpaintingIsCounted(o.owners, writes, i, j);
      CountsAreOwned(t, r, writes, writes[i].country);
      OvercountIsNoBalance(t, s, writes[i].country);
    } else {
      var k :| 0 <= k < |writes| && writes[k].country != 0 && !t.land[writes[k].cell];
      LastWriteHolds(o.owners, writes, k);
    }
  }

  lemma OvercountIsNoBalance(t: Atlas, s: State, c: nat)
    requires c in s.countries && s.countries[c].count > |Owned(s.owners, c)|
    ensures !Books(t, Pruned(s))
  {
    hide Owned, Covers;
    assert c in Pruned(s).countries;
  }

  // ----- the same condition, read off the rows -----

  predicate BlankRow(row: ChunkRow) {
    forall i :: 0 <= i < |Expand(row.bytes)| ==> Expand(row.bytes)[i] == 0
  }

  /** A chunk saved twice is blank every time but the last. */
  predicate RowsAgree(t: Atlas, rows: seq<ChunkRow>) {
    forall i, j :: 0 <= i < j < |rows| && InRange(t, rows[i]) && rows[j].index == rows[i].index ==> BlankRow(rows[i])
  }

  /** No row paints water. */
  predicate RowsOnLand(t: Atlas, rows: seq<ChunkRow>)
    requires Tiled(t)
  {
    forall i, p: nat :: 0 <= i < |rows| && InRange(t, rows[i]) && p < ChunkCells(t) && p < |Expand(rows[i].bytes)| && Expand(rows[i].bytes)[p] != 0 ==>
      0 <= CellOf(t, rows[i].index.value, p) < |t.land| && t.land[CellOf(t, rows[i].index.value, p)]
  }

  /** Position p of row i, as it stands in the painting. */
  lemma {:induction false} RowIsPainted(t: Atlas, byCode: map<nat, nat>, rows: seq<ChunkRow>, i: nat, p: nat) returns (k: nat)
    requires Tiled(t) && Painting(t, byCode, rows).Some? && i < |rows| && InRange(t, rows[i]) && p < ChunkCells(t)
    ensures p < |Expand(rows[i].bytes)| && Painting(t, byCode, rows[..i]).Some?
    ensures k == |Painting(t, byCode, rows[..i]).value| + p
    ensures
      var writes := Painting(t, byCode, rows).value;
      k < |writes| && writes[k].cell == CellOf(t, rows[i].index.value, p) &&
      writes[k].country == Painter(byCode, Expand(rows[i].bytes)[p]) &&
      (writes[k].country == 0 <==> Expand(rows[i].bytes)[p] == 0)
    decreases |rows|
  {
    hide Expand, CellOf, ChunkCount, ChunkCells;
    var n := |rows| - 1;
    CellInRange(t, rows[i].index.value, p);
    if i < n {
      k := RowIsPainted(t, byCode, rows[..n], i, p);
      assert rows[..n][..i] == rows[..i];
    } else {
      k := |Painting(t, byCode, rows[..n]).value| + p;
    }
  }

  lemma CellInRange(t: Atlas, index: nat, p: nat)
    requires Tiled(t) && index < ChunkCount(t) && p < ChunkCells(t)
    ensures 0 <= CellOf(t, index, p)
  {
    CellOfPlace(t, index, p);
  }

  /** Every write of a painting stands for one position of one row. */
  lemma {:induction false} WhichRow(t: Atlas, byCode: map<nat, nat>, rows: seq<ChunkRow>, k: nat) returns (i: nat, p: nat)
    requires Tiled(t) && Painting(t, byCode, rows).Some? && k < |Painting(t, byCode, rows).value|
    ensures i < |rows| && InRange(t, rows[i]) && p < ChunkCells(t) && p < |Expand(rows[i].bytes)|
    ensures
      var w := Painting(t, byCode, rows).value[k];
      w.cell == CellOf(t, rows[i].index.value, p) && w.country == Painter(byCode, Expand(rows[i].bytes)[p]) &&
      (w.country == 0 <==> Expand(rows[i].bytes)[p] == 0)
    ensures Painting(t, byCode, rows[..i]).Some? && k == |Painting(t, byCode, rows[..i]).value| + p
    decreases |rows|
  {
    hide Expand, CellOf, ChunkCount, ChunkCells;
    var n := |rows| - 1;
    var before := Painting(t, byCode, rows[..n]).value;
    if k < |before| {
      i, p := WhichRow(t, byCode, rows[..n], k);
      assert rows[..n][..i] == rows[..i];
    } else {
      i, p := n, k - |before|;
      CellInRange(t, rows[i].index.value, p);
    }
  }

  /** Later rows paint later. */
  lemma {:induction false} RowsInOrder(t: Atlas, byCode: map<nat, nat>, rows: seq<ChunkRow>, i: nat, j: nat)
    requires Tiled(t) && i < j <= |rows| && Painting(t, byCode, rows[..j]).Some? && InRange(t, rows[i])
    ensures Painting(t, byCode, rows[..i]).Some?
    ensures |Painting(t, byCode, rows[..i]).value| + ChunkCells(t) <= |Painting(t, byCode, rows[..j]).value|
    decreases j
  {
    hide Expand, CellOf, ChunkCount, ChunkCells;
    assert rows[..j][..j - 1] == rows[..j - 1];
    if i < j - 1 {
      RowsInOrder(t, byCode, rows, i, j - 1);
    }
  }

  /** The painting is clean exactly when repeated chunks are blank and no row paints water. */
  lemma CleanRows(t: Atlas, byCode: map<nat, nat>, rows: seq<ChunkRow>)
    requires Tiled(t) && Painting(t, byCode, rows).Some?
    ensures Clean(t, Painting(t, byCode, rows).value) <==> RowsAgree(t, rows) && RowsOnLand(t, rows)
  {
    hide Expand, CellOf, ChunkCount, ChunkCells, Painting;
    var writes := Painting(t, byCode, rows).value;
    if Clean(t, writes) {
      forall i, j | 0 <= i < j < |rows| && InRange(t, rows[i]) && rows[j].index == rows[i].index
        ensures BlankRow(rows[i])
      {
        CleanRowsAgree(t, byCode, rows, i, j);
      }
      forall i, p: nat | 0 <= i < |rows| && InRange(t, rows[i]) && p < ChunkCells(t) && p < |Expand(rows[i].bytes)| && Expand(rows[i].bytes)[p] != 0
        ensures 0 <= CellOf(t, rows[i].index.value, p) < |t.land| && t.land[CellOf(t, rows[i].index.value, p)]
      {
        var k := RowIsPainted(t, byCode, rows, i, p);
        CellOfPlace(t, rows[i].index.value, p);
      }
    }
    if RowsAgree(t, rows) && RowsOnLand(t, rows) {
      forall a, b | 0 <= a < b < |writes| && writes[a].cell == writes[b].cell
        ensures writes[a].country == 0
      {
        AgreeingRowsAreClean(t, byCode, rows, a, b);
      }
      forall k | 0 <= k < |writes| && writes[k].cell < |t.land| && writes[k].country != 0
        ensures t.land[writes[k].cell]
      {
        var i, p := WhichRow(t, byCode, rows, k);
      }
    }
  }

  lemma CleanRowsAgree(t: Atlas, byCode: map<nat, nat>, rows: seq<ChunkRow>, i: nat, j: nat)
    requires Tiled(t) && Painting(t, byCode, rows).Some? && NoOverpainting(Painting(t, byCode, rows).value)
    requires i < j < |rows| && InRange(t, rows[i]) && rows[j].index == rows[i].index
    ensures BlankRow(rows[i])
  {
    hide Expand, CellOf, ChunkCount, ChunkCells, Painting;
    var writes := Painting(t, byCode, rows).value;
    forall p | 0 <= p < |Expand(rows[i].bytes)|
      ensures Expand(rows[i].bytes)[p] == 0
    {
      ReadRowsAreFull(t, byCode, rows, i);
      var a := RowIsPainted(t, byCode, rows, i, p);
      var b := RowIsPainted(t, byCode, rows, j, p);
      RowsInOrder(t, byCode, rows, i, j);
      assert writes[a].cell == writes[b].cell;
    }
  }

  lemma {:induction false} ReadRowsAreFull(t: Atlas, byCode: map<nat, nat>, rows: seq<ChunkRow>, i: nat)
    requires Tiled(t) && Painting(t, byCode, rows).Some? && i < |rows| && InRange(t, rows[i])
    ensures Legible(t, byCode, rows[i]) && |Expand(rows[i].bytes)| == ChunkCells(t)
    decreases |rows|
  {
    hide Expand, CellOf, ChunkCount, ChunkCells;
    if i < |rows| - 1 {
      ReadRowsAreFull(t, byCode, rows[..|rows| - 1], i);
    }
  }

  lemma AgreeingRowsAreClean(t: Atlas, byCode: map<nat, nat>, rows: seq<ChunkRow>, a: nat, b: nat)
    requires Tiled(t) && Painting(t, byCode, rows).Some? && RowsAgree(t, rows)
    requires a < b < |Painting(t, byCode, rows).value|
    requires Painting(t, byCode, rows).value[a].cell == Painting(t, byCode, rows).value[b].cell
    ensures Painting(t, byCode, rows).value[a].country == 0
  {
    hide Expand, CellOf, ChunkCount, ChunkCells, Painting;
    var i, p := WhichRow(t, byCode, rows, a);
    var j, q := WhichRow(t, byCode, rows, b);
    CellOfPlace(t, rows[i].index.value, p);
    CellOfPlace(t, rows[j].index.value, q);
    if j < i {
      RowsInOrder(t, byCode, rows, j, i);
    }
    assert i != j;
  }

  // ----- what registration promises -----

  predicate NonzeroIds(saved: seq<Saved>) {
    forall k :: 0 <= k < |saved| ==> saved[k].country != 0
  }

  lemma {:induction false} RegisteredIsFresh(saved: seq<Saved>)
    requires Registered(saved).Some? && NonzeroIds(saved)
    ensures Fresh(Registered(saved).value)
    ensures forall code :: code in Registered(saved).value.byCode ==> Registered(saved).value.byCode[code] in Registered(saved).value.countries
    decreases |saved|
  {
    if saved != [] {
      RegisteredIsFresh(saved[..|saved| - 1]);
    }
  }

  lemma PaintingIsOfCountries(t: Atlas, r: Roster, rows: seq<ChunkRow>)
    requires Tiled(t) && Painting(t, r.byCode, rows).Some?
    requires forall code :: code in r.byCode ==> r.byCode[code] in r.countries
    ensures AllRegistered(Painting(t, r.byCode, rows).value, r.countries)
  {
    hide Expand, CellOf, ChunkCount, ChunkCells, Painting;
    var writes := Painting(t, r.byCode, rows).value;
    forall k | 0 <= k < |writes|
      ensures writes[k].country == 0 || writes[k].country in r.countries
    {
      var i, p := WhichRow(t, r.byCode, rows, k);
    }
  }

  /** Loading balances the books exactly when every chunk saved twice is blank all but the
      last time and no row paints water; then the world is ready for its first pass. */
  lemma LoadIsExact(t: Atlas, saved: seq<Saved>, rows: seq<ChunkRow>)
    requires Tiled(t) && NonzeroIds(saved) && Loaded(t, saved, rows).Some?
    ensures Books(t, Loaded(t, saved, rows).value) <==> RowsAgree(t, rows) && RowsOnLand(t, rows)
    ensures Books(t, Loaded(t, saved, rows).value) ==> Settled(t, Loaded(t, saved, rows).value)
  {
    hide Books, Inv, Painting, Registered, RowsAgree, RowsOnLand, Pruned;
    var r := Registered(saved).value;
    var writes := Painting(t, r.byCode, rows).value;
    RegisteredIsFresh(saved);
    PaintingIsOfCountries(t, r, rows);
    LoadBalances(t, r, writes);
    CleanRows(t, r.byCode, rows);
    if Clean(t, writes) {
      CleanBalances(t, r, writes);
      NobodyPlaysYet(t, r, writes);
    }
  }

  /** A one-cell chunk stored twice under different row ids: the cell is counted twice. */
  lemma ChunkStoredTwiceMiscounts()
    ensures
      var t := Atlas(Board(1, 1), [true], 1, 1, 1);
      var saved, rows := [Saved(1, 1, false, 0)], [ChunkRow(Some(0), [1, 1]), ChunkRow(Some(0), [1, 1])];
      Tiled(t) && NonzeroIds(saved) && Loaded(t, saved, rows).Some? && !Books(t, Loaded(t, saved, rows).value)
  {
    hide Books, Loaded, Expand, RowsOnLand;
    var t := Atlas(Board(1, 1), [true], 1, 1, 1);
    var saved, rows := [Saved(1, 1, false, 0)], [ChunkRow(Some(0), [1, 1]), ChunkRow(Some(0), [1, 1])];
    OneCellLoads(t, saved, rows);
    OneCellRow();
    assert rows[0].bytes == [1, 1] && Expand(rows[0].bytes)[0] == 1 && !BlankRow(rows[0]);
    assert rows[0].index == rows[1].index && InRange(t, rows[0]);
    LoadIsExact(t, saved, rows);
  }

  /** A row that paints water: a country owns a cell that is no land. */
  lemma PaintedWaterMiscounts()
    ensures
      var t := Atlas(Board(1, 1), [false], 1, 1, 1);
      var saved, rows := [Saved(1, 1, false, 0)], [ChunkRow(Some(0), [1, 1])];
      Tiled(t) && NonzeroIds(saved) && Loaded(t, saved, rows).Some? && !Books(t, Loaded(t, saved, rows).value)
  {
    hide Books, Loaded, Expand, RowsAgree, CellOf;
    var t := Atlas(Board(1, 1), [false], 1, 1, 1);
    var saved, rows := [Saved(1, 1, false, 0)], [ChunkRow(Some(0), [1, 1])];
    OneCellLoads(t, saved, rows);
    OneCellRow();
    CellOfPlace(t, 0, 0);
    assert InRange(t, rows[0]) && CellOf(t, rows[0].index.value, 0) == 0;
    assert !RowsOnLand(t, rows) by { hide ChunkCount, ChunkCells; }
    LoadIsExact(t, saved, rows);
  }

  lemma OneCellRow()
    ensures Expand([1, 1]) == [1] && Exact([1, 1], 1)
  {
    var bytes: seq<Byte> := [1, 1];
    assert bytes[2..] == [];
    assert Repeat(1, 1) == [1];
  }

  /** On a map of one cell, rows that paint it with the one country load. */
  lemma {:induction false} OneCellLoads(t: Atlas, saved: seq<Saved>, rows: seq<ChunkRow>)
    requires t.g == Board(1, 1) && |t.land| == 1 && t.chunkWidth == t.chunkHeight == t.columns == 1
    requires saved == [Saved(1, 1, false, 0)] && forall i :: 0 <= i < |rows| ==> rows[i] == ChunkRow(Some(0), [1, 1])
    ensures Tiled(t) && ChunkCount(t) == ChunkCells(t) == 1 && Loaded(t, saved, rows).Some?
  {
    assert saved[..0] == [];
    assert Registered([]).Some? && Registered(saved).Some? && Painter(Registered(saved).value.byCode, 1) == 1;
    OneCellPaints(t, Registered(saved).value.byCode, rows);
  }

  lemma {:induction false} OneCellPaints(t: Atlas, byCode: map<nat, nat>, rows: seq<ChunkRow>)
    requires Tiled(t) && ChunkCount(t) == ChunkCells(t) == 1 && Painter(byCode, 1) != 0
    requires forall i :: 0 <= i < |rows| ==> rows[i] == ChunkRow(Some(0), [1, 1])
    ensures Painting(t, byCode, rows).Some?
    decreases |rows|
  {
    if rows != [] {
      OneCellPaints(t, byCode, rows[..|rows| - 1]);
      OneCellRow();
    }
  }

  lemma NobodyPlaysYet(t: Atlas, r: Roster, writes: seq<Write>)
    requires OnBoard(writes, t.g.Size()) && AllRegistered(writes, r.countries)
    ensures AllOnMap(t, Pruned(WroteAll(t, Opened(t, r), writes)))
  {
    hide Boxes;
    OpenedBoxes(t, r);
    WroteAllLeaves(t, Opened(t, r), writes);
  }

  /** A world restored from such rows is sealed by its first pass, whatever they enclose. */
  lemma RestoreSeals(t: Atlas, saved: seq<Saved>, rows: seq<ChunkRow>)
    requires Tiled(t) && NonzeroIds(saved) && Loaded(t, saved, rows).Some? && RowsAgree(t, rows) && RowsOnLand(t, rows)
    ensures
      var s := Loaded(t, saved, rows).value;
      Settled(t, s) && Sealed(t, PlainPass(t, s).owners) && Books(t, PlainPass(t, s))
  {
    hide Books, Inv, PlainPass, Loaded, Safe;
    LoadIsExact(t, saved, rows);
    PassSeals(t, Loaded(t, saved, rows).value);
    LandPerCell(t, PlainPass(t, Loaded(t, saved, rows).value));
    SafeIsSealed(t, PlainPass(t, Loaded(t, saved, rows).value).owners);
  }

  lemma LandPerCell(t: Atlas, s: State)
    requires Books(t, s)
    ensures |t.land| == |s.owners|
  {
  }

  // ----- a sealed world comes back -----

  /** The wire code of a country; rows injected past registration are looked up once. */
  function CodeOf(s: State, country: nat): Code {
    var code := if country in s.ownerCodes then s.ownerCodes[country] else 0;
    if code == 0 && country != 0 && country in s.countries then s.countries[country].color else code
  }

  function CodesOf(t: Atlas, s: State, index: nat): (codes: seq<Byte>)
    requires Tiled(t) && index < ChunkCount(t) && |s.owners| == t.g.Size()
    ensures |codes| == ChunkCells(t)
  {
    hide CellOf, ChunkCount, ChunkCells;
    assert forall i :: 0 <= i < ChunkCells(t) ==> 0 <= CellOf(t, index, i) < t.g.Size() by {
      forall i | 0 <= i < ChunkCells(t)
        ensures 0 <= CellOf(t, index, i) < t.g.Size()
      {
        CellOfPlace(t, index, i);
      }
    }
    seq(ChunkCells(t), i requires 0 <= i < ChunkCells(t) => CodeOf(s, s.owners[CellOf(t, index, i)]) as Byte)
  }

  /** Live countries have palette codes, all different, and nobody's land has none. */
  predicate Colored(s: State) {
    CodeOf(s, 0) == 0 && (forall c :: c in s.countries ==> CodeOf(s, c) == s.countries[c].color != 0) &&
    forall c, d :: c in s.countries && d in s.countries && c != d ==> s.countries[c].color != s.countries[d].color
  }

  predicate SavedFrom(s: State, row: Saved) {
    row.country in s.countries &&
    var c := s.countries[row.country];
    row == Saved(row.country, c.color, c.isBot, c.lost)
  }

  /** The saved countries are those of the world, each once. */
  predicate CountriesSaved(s: State, saved: seq<Saved>) {
    (forall k :: 0 <= k < |saved| ==> SavedFrom(s, saved[k])) &&
    (forall j, k :: 0 <= j < k < |saved| ==> saved[j].country != saved[k].country) &&
    forall c :: c in s.countries ==> exists k :: 0 <= k < |saved| && saved[k].country == c
  }

  /** The stored rows are those of the world: different chunks, and none with an owned cell is missing. */
  predicate ChunksSaved(t: Atlas, s: State, rows: seq<ChunkRow>)
    requires Tiled(t) && |s.owners| == t.g.Size()
  {
    (forall k :: 0 <= k < |rows| ==> InRange(t, rows[k]) && rows[k].bytes == Encode(CodesOf(t, s, rows[k].index.value))) &&
    (forall j, k :: 0 <= j < k < |rows| ==> rows[j].index != rows[k].index) &&
    forall q :: 0 <= q < |s.owners| && s.owners[q] != 0 ==> exists k :: 0 <= k < |rows| && rows[k].index == Some(t.ChunkOf(q))
  }

  /** A registry of countries of the world, without their land. */
  ghost predicate RosterOf(s: State, r: Roster) {
    (forall c :: c in r.countries ==> c in s.countries && r.countries[c] == s.countries[c].(count := 0)) &&
    (forall c :: c in r.countries ==> c in s.countries && s.countries[c].color in r.byCode && r.byCode[s.countries[c].color] == c) &&
    (forall code :: code in r.byCode ==> r.byCode[code] in r.countries && s.countries[r.byCode[code]].color == code)
  }

  lemma RegisterKeeps(s: State, r: Roster, c: Saved)
    requires RosterOf(s, r) && SavedFrom(s, c) && Colored(s) && c.country !in r.countries
    ensures Register(r, c).Some? && RosterOf(s, Register(r, c).value)
    ensures Register(r, c).value.countries.Keys == r.countries.Keys + {c.country}
  {
    hide RosterOf, Colored, Painter, CodeOf;
    CodeIsFree(s, r, c);
    RosterGrows(s, r, c, Register(r, c).value);
  }

  lemma RosterGrows(s: State, r: Roster, c: Saved, next: Roster)
    requires RosterOf(s, r) && SavedFrom(s, c) && c.country !in r.countries && c.color !in r.byCode
    requires next.countries == r.countries[c.country := Country(c.color, 0, c.isBot, c.lost)]
    requires next.byCode == r.byCode[c.color := c.country]
    ensures RosterOf(s, next)
  {
  }

  /** No registered country has its colour. */
  lemma CodeIsFree(s: State, r: Roster, c: Saved)
    requires RosterOf(s, r) && SavedFrom(s, c) && Colored(s) && c.country !in r.countries
    ensures c.color != 0 && c.color == CodeOf(s, c.country) && Painter(r.byCode, c.color) == 0 && c.color !in r.byCode
  {
    hide CodeOf;
  }

  /** Registration of the first n saved countries. */
  lemma {:induction false} SavedCountriesRegister(s: State, saved: seq<Saved>, n: nat)
    requires n <= |saved| && CountriesSaved(s, saved) && Colored(s) && 0 !in s.countries
    ensures Registered(saved[..n]).Some? && RosterOf(s, Registered(saved[..n]).value)
    ensures forall c :: c in Registered(saved[..n]).value.countries <==> exists k :: 0 <= k < n && saved[k].country == c
  {
    hide RosterOf, Register, Colored, SavedFrom;
    if n > 0 {
      SavedCountriesRegister(s, saved, n - 1);
      assert saved[..n][..n - 1] == saved[..n - 1];
      RegisterKeeps(s, Registered(saved[..n - 1]).value, saved[n - 1]);
    } else {
      NothingRegistered(s);
    }
  }

  lemma NothingRegistered(s: State)
    ensures RosterOf(s, Registered([]).value)
  {
  }

  /** Painting what a cell holds in the end, and only that, leaves it there. */
  lemma {:induction false} PaintingTheTarget(owners: seq<nat>, writes: seq<Write>, target: seq<nat>, q: nat)
    requires OnBoard(writes, |owners|) && |owners| == |target| && q < |owners|
    requires forall k :: 0 <= k < |writes| ==> writes[k].country == target[writes[k].cell]
    requires owners[q] == target[q] || exists k :: 0 <= k < |writes| && writes[k].cell == q
    ensures Paint(owners, writes)[q] == target[q]
    decreases |writes|
  {
    if writes != [] {
      var n := |writes| - 1;
      if writes[n].cell != q {
        PaintingTheTarget(owners, writes[..n], target, q);
      }
    }
  }

  /** The stored rows of a world are all legible. */
  lemma {:induction false} StoredRowsRead(t: Atlas, s: State, byCode: map<nat, nat>, rows: seq<ChunkRow>, n: nat)
    requires Tiled(t) && |s.owners| == t.g.Size() && ChunksSaved(t, s, rows) && n <= |rows| && Colored(s)
    requires forall q :: 0 <= q < |s.owners| && s.owners[q] != 0 ==> s.owners[q] in s.countries
    requires forall c :: c in s.countries ==> s.countries[c].color in byCode && byCode[s.countries[c].color] == c != 0
    ensures Painting(t, byCode, rows[..n]).Some?
    decreases n
  {
    hide Expand, Encode, CellOf, ChunkCount, ChunkCells, Exact;
    if n > 0 {
      StoredRowsRead(t, s, byCode, rows, n - 1);
      assert rows[..n][..n - 1] == rows[..n - 1];
      StoredRowReads(t, s, byCode, rows[n - 1]);
    }
  }

  lemma StoredRowReads(t: Atlas, s: State, byCode: map<nat, nat>, row: ChunkRow)
    requires Tiled(t) && |s.owners| == t.g.Size() && Colored(s)
    requires InRange(t, row) && row.bytes == Encode(CodesOf(t, s, row.index.value))
    requires forall q :: 0 <= q < |s.owners| && s.owners[q] != 0 ==> s.owners[q] in s.countries
    requires forall c :: c in s.countries ==> s.countries[c].color in byCode && byCode[s.countries[c].color] == c != 0
    ensures Legible(t, byCode, row) && Expand(row.bytes) == CodesOf(t, s, row.index.value)
    ensures forall p: nat :: p < ChunkCells(t) ==>
      (0 <= CellOf(t, row.index.value, p) < |s.owners| && Painter(byCode, Expand(row.bytes)[p]) == s.owners[CellOf(t, row.index.value, p)])
  {
    hide Expand, Encode, CellOf, ChunkCount, ChunkCells, Exact;
    var codes := CodesOf(t, s, row.index.value);
    ExpandInvertsEncode(codes);
    forall p | 0 <= p < |codes|
      ensures 0 <= CellOf(t, row.index.value, p) < |s.owners|
      ensures Painter(byCode, codes[p]) == s.owners[CellOf(t, row.index.value, p)]
      ensures codes[p] == 0 <==> s.owners[CellOf(t, row.index.value, p)] == 0
    {
      CellOfPlace(t, row.index.value, p);
    }
  }

  /** The stored rows paint every cell with its owner. */
  lemma StoredRowsPaint(t: Atlas, s: State, byCode: map<nat, nat>, rows: seq<ChunkRow>)
    requires Tiled(t) && |s.owners| == t.g.Size() && ChunksSaved(t, s, rows) && Colored(s)
    requires forall q :: 0 <= q < |s.owners| && s.owners[q] != 0 ==> s.owners[q] in s.countries
    requires forall c :: c in s.countries ==> s.countries[c].color in byCode && byCode[s.countries[c].color] == c != 0
    ensures Painting(t, byCode, rows).Some?
    ensures Paint(EmptyState(t).owners, Painting(t, byCode, rows).value) == s.owners
  {
    hide Expand, Encode, CellOf, ChunkCount, ChunkCells, Painting, Paint, Exact, Colored;
    StoredRowsRead(t, s, byCode, rows, |rows|);
    assert rows[..|rows|] == rows;
    var writes := Painting(t, byCode, rows).value;
    forall k | 0 <= k < |writes|
      ensures writes[k].country == s.owners[writes[k].cell]
    {
      var i, p := WhichRow(t, byCode, rows, k);
      StoredRowReads(t, s, byCode, rows[i]);
    }
    forall q | 0 <= q < |s.owners|
      ensures Paint(EmptyState(t).owners, writes)[q] == s.owners[q]
    {
      if s.owners[q] != 0 {
        PlaceOfCell(t, q);
        var i :| 0 <= i < |rows| && rows[i].index == Some(t.ChunkOf(q));
        var k := RowIsPainted(t, byCode, rows, i, Offset(t, q));
        assert writes[k].cell == q;
      }
      PaintingTheTarget(EmptyState(t).owners, writes, s.owners, q);
    }
  }

  /** With no enclosed land there is nothing to take: the pass only passes. */
  lemma {:induction false} SafePassTakesNothing(t: Atlas, s: State)
    requires Inv(t, s) && forall c :: c in s.countries ==> Safe(t, s.owners, c)
    ensures PlainPass(t, s).owners == s.owners && PlainPass(t, s).countries == s.countries
    decreases TurnsLeft(s)
  {
    hide Inv, PlainStep, TurnsLeft, Safe;
    LandPerCellOfInv(t, s);
    if s.cursor < |s.changed| {
      PlainStepKeepsInv(t, s);
      SafeStepTakesNothing(t, s);
      SafePassTakesNothing(t, PlainStep(t, s));
    }
  }

  lemma LandPerCellOfInv(t: Atlas, s: State)
    requires Inv(t, s)
    ensures t.Valid() && |s.owners| == t.g.Size() && s.cursor <= |s.changed|
  {
  }

  lemma SafeStepTakesNothing(t: Atlas, s: State)
    requires t.Valid() && |s.owners| == t.g.Size() && s.cursor < |s.changed|
    requires forall c :: c in s.countries ==> Safe(t, s.owners, c)
    ensures PlainStep(t, s).owners == s.owners && PlainStep(t, s).countries == s.countries
  {
    hide Enclosed, Safe, Captured;
    var c := s.changed[s.cursor];
    if c in s.countries && c in s.queue && s.countries[c].count != 0 {
      var cells := Listing(Enclosed(t.g, s.owners, c), t.g.Size());
      EntriesAreMembers(cells, t.g.Size());
      assert WaterOnly(t, cells) by {
        SafeListsWater(t, s.owners, c);
      }
      WaterIsLeft(t, s.owners, s.queue[c := Whole], cells, c);
      NothingCaptured(t, s.(cursor := s.cursor + 1, queue := s.queue[c := Whole]), cells, c, TriggerOf(s, c));
    }
  }

  predicate WaterOnly(t: Atlas, cells: seq<nat>) {
    forall k :: 0 <= k < |cells| ==> cells[k] < |t.land| && !t.land[cells[k]]
  }

  lemma SafeListsWater(t: Atlas, owners: seq<nat>, c: nat)
    requires |t.land| == |owners| == t.g.Size() && Safe(t, owners, c)
    ensures WaterOnly(t, Listing(Enclosed(t.g, owners, c), t.g.Size()))
  {
    hide Enclosed;
    var cells := Listing(Enclosed(t.g, owners, c), t.g.Size());
    assert forall k :: 0 <= k < |cells| ==> cells[k] in cells;
  }

  lemma NothingCaptured(t: Atlas, s: State, cells: seq<nat>, country: nat, mover: Trigger)
    requires t.Valid() && |s.owners| == t.g.Size() && forall k :: 0 <= k < |cells| ==> cells[k] < |s.owners|
    requires TakeAll(t, s.owners, s.queue, cells, country).taken == 0
    ensures Captured(t, s, cells, country, mover) == s
  {
    hide TakeAll;
  }

  lemma {:induction false} WaterIsLeft(t: Atlas, owners: seq<nat>, queue: map<nat, Search>, cells: seq<nat>, c: nat)
    requires t.Valid() && |owners| == t.g.Size()
    requires WaterOnly(t, cells)
    ensures TakeAll(t, owners, queue, cells, c).taken == 0
    decreases |cells|
  {
    if cells != [] {
      WaterIsLeft(t, owners, queue, cells[..|cells| - 1], c);
    }
  }

  lemma SavedCountriesCover(s: State, saved: seq<Saved>, r: Roster)
    requires CountriesSaved(s, saved) && Colored(s) && 0 !in s.countries
    requires forall c :: c in r.countries <==> exists k :: 0 <= k < |saved| && saved[k].country == c
    requires RosterOf(s, r)
    ensures r.countries.Keys == s.countries.Keys && Fresh(r)
    ensures forall c :: c in s.countries ==> r.countries[c] == s.countries[c].(count := 0)
    ensures forall c :: c in s.countries ==> s.countries[c].color in r.byCode && r.byCode[s.countries[c].color] == c != 0
    ensures forall code :: code in r.byCode ==> r.byCode[code] in r.countries
  {
    assert forall k :: 0 <= k < |saved| ==> SavedFrom(s, saved[k]);
  }

  lemma StoredRowsAgree(t: Atlas, s: State, r: Roster, rows: seq<ChunkRow>)
    requires Tiled(t) && |s.owners| == t.g.Size() && ChunksSaved(t, s, rows) && Colored(s)
    requires forall q :: 0 <= q < |s.owners| && s.owners[q] != 0 ==> t.land[q] && s.owners[q] in s.countries
    requires forall c :: c in s.countries ==> s.countries[c].color in r.byCode && r.byCode[s.countries[c].color] == c != 0
    ensures RowsAgree(t, rows) && RowsOnLand(t, rows)
  {
    hide Expand, Encode, CellOf, ChunkCount, ChunkCells, Exact, Colored, BlankRow;
    forall i, p: nat | 0 <= i < |rows| && InRange(t, rows[i]) && p < ChunkCells(t) && p < |Expand(rows[i].bytes)| && Expand(rows[i].bytes)[p] != 0
      ensures 0 <= CellOf(t, rows[i].index.value, p) < |t.land| && t.land[CellOf(t, rows[i].index.value, p)]
    {
      StoredRowReads(t, s, r.byCode, rows[i]);
    }
  }

  lemma PrunedLeaves(w: State)
    ensures Pruned(w).owners == w.owners
    ensures Pruned(w).countries == map c | c in w.countries && w.countries[c].count != 0 :: w.countries[c]
  {
  }

  lemma LoadedIsTheWorld(t: Atlas, s: State, r: Roster, writes: seq<Write>)
    requires Tiled(t) && Books(t, s) && Fresh(r) && r.countries.Keys == s.countries.Keys
    requires forall c :: c in s.countries ==> r.countries[c] == s.countries[c].(count := 0)
    requires OnBoard(writes, t.g.Size()) && AllRegistered(writes, r.countries) && Clean(t, writes)
    requires Paint(EmptyState(t).owners, writes) == s.owners
    ensures
      var p := Pruned(WroteAll(t, Opened(t, r), writes));
      p.owners == s.owners && p.countries == map c | c in s.countries && s.countries[c].count != 0 :: s.countries[c]
  {
    hide Boxes, Paint, Owned, Covers, Pruned;
    var o := Opened(t, r);
    OpenedBoxes(t, r);
    WroteAllLeaves(t, o, writes);
    var w := WroteAll(t, o, writes);
    PrunedLeaves(w);
    NothingOwnedAtFirst(t, 1);
    forall c | c in s.countries
      ensures c in w.countries && w.countries[c] == s.countries[c]
    {
      CountsAreOwned(t, r, writes, c);
      CleanPaintingLosesNothing(o.owners, writes, c);
    }
  }

  lemma SealedIsSafe(t: Atlas, s: State, c: nat)
    requires Sealed(t, s.owners) && c != 0
    ensures Safe(t, s.owners, c)
  {
    hide Escapes;
  }

  /** The roster of a world's saved countries. */
  ghost predicate Matching(s: State, r: Roster) {
    r.countries.Keys == s.countries.Keys && Fresh(r) &&
    (forall c :: c in s.countries ==> r.countries[c] == s.countries[c].(count := 0)) &&
    (forall c :: c in s.countries ==> s.countries[c].color in r.byCode && r.byCode[s.countries[c].color] == c != 0) &&
    forall code :: code in r.byCode ==> r.byCode[code] in r.countries
  }

  lemma SavedRosterMatches(s: State, saved: seq<Saved>)
    requires CountriesSaved(s, saved) && Colored(s) && 0 !in s.countries
    ensures Registered(saved).Some? && Matching(s, Registered(saved).value)
  {
    hide Registered, Fresh;
    SavedCountriesRegister(s, saved, |saved|);
    assert saved[..|saved|] == saved;
    SavedCountriesCover(s, saved, Registered(saved).value);
  }

  /** The stored rows paint the world's owners, cleanly. */
  lemma StoredPainting(t: Atlas, s: State, r: Roster, rows: seq<ChunkRow>)
    requires Tiled(t) && Books(t, s) && Colored(s) && ChunksSaved(t, s, rows) && Matching(s, r)
    ensures Painting(t, r.byCode, rows).Some?
    ensures
      var writes := Painting(t, r.byCode, rows).value;
      AllRegistered(writes, r.countries) && Clean(t, writes) && Paint(EmptyState(t).owners, writes) == s.owners
  {
    hide Painting, Paint, Clean, Colored, ChunksSaved, RowsAgree, RowsOnLand, Owned, Covers, Fresh;
    StoredRowsPaint(t, s, r.byCode, rows);
    PaintingIsOfCountries(t, r, rows);
    StoredRowsAgree(t, s, r, rows);
    CleanRows(t, r.byCode, rows);
  }

  lemma StoredWorldLoads(t: Atlas, s: State, saved: seq<Saved>, rows: seq<ChunkRow>)
    requires Tiled(t) && Books(t, s) && Colored(s) && CountriesSaved(s, saved) && ChunksSaved(t, s, rows)
    ensures Loaded(t, saved, rows).Some? && Inv(t, Loaded(t, saved, rows).value)
    ensures
      var p := Loaded(t, saved, rows).value;
      p.owners == s.owners && p.countries == map c | c in s.countries && s.countries[c].count != 0 :: s.countries[c]
  {
    hide Inv, Registered, Painting, Paint, Clean, Colored, ChunksSaved, CountriesSaved, Owned, Covers, Fresh, Pruned;
    SavedRosterMatches(s, saved);
    var r := Registered(saved).value;
    StoredPainting(t, s, r, rows);
    var writes := Painting(t, r.byCode, rows).value;
    CleanBalances(t, r, writes);
    LoadedIsTheWorld(t, s, r, writes);
  }

  /** A sealed world with its books in order comes back from its saved rows: the same
      owners, and every country with land as it was, count and all.  The first pass finds
      nothing to take. */
  lemma RestoreReproduces(t: Atlas, s: State, saved: seq<Saved>, rows: seq<ChunkRow>)
    requires Tiled(t) && Books(t, s) && Sealed(t, s.owners) && Colored(s)
    requires CountriesSaved(s, saved) && ChunksSaved(t, s, rows)
    ensures Loaded(t, saved, rows).Some? && Inv(t, Loaded(t, saved, rows).value)
    ensures
      var back := PlainPass(t, Loaded(t, saved, rows).value);
      back.owners == s.owners && back.countries == map c | c in s.countries && s.countries[c].count != 0 :: s.countries[c]
  {
    hide Loaded, Inv, PlainPass, Owned, Covers, Safe, Sealed, Colored, ChunksSaved, CountriesSaved;
    StoredWorldLoads(t, s, saved, rows);
    var p := Loaded(t, saved, rows).value;
    forall c | c in p.countries
      ensures Safe(t, p.owners, c)
    {
      SealedIsSafe(t, s, c);
    }
    SafePassTakesNothing(t, p);
  }
}
