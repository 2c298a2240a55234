# ZyncBase and Cordon Off, verified

This project models two parts of the repository in Dafny and proves what they promise.

**The game Cordon Off.** Countries own cells of a rectangular map. Land that a country cuts off
from the map edge, under eight-connectivity, becomes that country's. The engine never floods the
whole map: a ring gate decides whether a claim can cut anything off, straight rays prove exits, a
budgeted depth-first search resolves small pockets, a scan over runs is the fallback, and one pass
per tick visits each affected country at most once. `Grid` defines plain reachability, and
everything fast is measured against it:

- `Enclosure`, `Filler` and `LocalSearch` hold the gate, the run scan and the budgeted search.
- `Territory` says what each operation of the world does; `Claims`, `Capture`, `CaptureQueues`
  and `Pass` prove that claims, bulk captures and the pass keep the invariant; `Rounds` lifts it to whole histories.
- `Moves` and `Credits` say by coordinates, owners and triggers alone what a move does and whom a capture
  pays and charges.
- `WorldObject` is the world as a class whose methods update its fields in place and leave exactly
  the specified states.
- `Chunks`, `Saves`, `Palette`, `Marks` and `Publishing` follow a world into its stored rows and
  back: run-length encoding, loading, colours over histories, dirty marks, and batches that may fail.
- `Bots` and `Planning` hold the bot planner, and `Routes` what its routes and plans achieve on the map.

**The TypeScript client SDK.** `Radix`, `DocIds` and `DocIdCodec` are the sixteen-byte document ids
and their order; `Utf8` is the string comparator; `Registry` is the ref-counted table of shared
subscriptions; `OrderedMaps` and `Views` are materialized views with batched delivery; `FieldPaths`
is the codec between nested values and sparse field arrays.

The main results are statements over every input, every run or every reachable state. Width and
height of the map, its land and its chunk grid are parameters. A country's "free" cells are those
it does not own. The map is planar for enclosure: movement wraps around the seam, enclosure does not.

Where a promise holds only under a condition, the condition is stated exactly:

- Loading saved chunk rows balances the counts if and only if a chunk stored twice is blank every
  time but the last and no row paints water (`Saves.LoadIsExact`). Row ids such as "1" and "01" name
  the same chunk, so repeated chunks are possible (`Saves.ChunkStoredTwiceMiscounts`,
  `Saves.PaintedWaterMiscounts`).
- Joined path segments split back if and only if they are clean (`FieldPaths.SplitInvertsJoinExactly`),
  and a nested value survives flattening under exactly the condition of
  `FieldPaths.FlatRoundTripExactly`.
- A reconnect keeps every subscription if and only if the remap is collision free
  (`Views.RemapKeepsAll`); a registration keeps batched delivery in step if and only if the deltas
  pending under its id would leave a fresh view empty (`Views.EventKeepsAgreementExactly`,
  `Views.ReusedIdsWouldInherit`). That is an assumption on the server, which hands out ids in
  increasing order (src/connection/state.zig:212-218).
- A bulk capture leaves the search queues of cell-by-cell claims if and only if no country is left
  without land but held, or its last cell is queued already (`CaptureQueues.QueuesAgreeExactly`).
- The comparator's shortcut over code units is sound up to the surrogates and not beyond
  (`Utf8.ShortcutStopsAtSurrogates`).

Verify the project with `dafny verify dfyconfig.toml`, with or without `--resource-limit 2000000`.

## Model

| member | source | states |
|---|---|---|
| `Enclosure.ClearRayEscapes` | examples/cordon-off/enclosure.ts:116-126 | A straight run of free cells to the rim of a box that covers the country is a way out: the cell reaches the map edge. |
| `Enclosure.StraightExitEscapes` | examples/cordon-off/enclosure.ts:80-110 | Whenever one of the eight rays is clear the cell is not enclosed, so a straight exit never hides a pocket. |
| `Enclosure.NothingOwnedEscapes` | examples/cordon-off/enclosure.ts:16-22 | A country without cells encloses nothing: every cell reaches the edge. |
| `Enclosure.StraightRay` | examples/cordon-off/enclosure.ts:116-126 | The stepping loop answers whether the ray to the bound holds no cell of the country. |
| `Enclosure.SideExit` | examples/cordon-off/enclosure.ts:93-104 | A true answer comes from one of the four clear axis rays; a false answer means all four are blocked. |
| `Enclosure.DiagonalExit` | examples/cordon-off/enclosure.ts:129-152 | The stepping loop answers whether the diagonal is clear up to the bound. |
| `Enclosure.HasStraightExit` | examples/cordon-off/enclosure.ts:80-113 | True exactly when the cell has a clear ray in one of the eight directions; then it reaches the map edge. |
| `Enclosure.RingArc` | examples/cordon-off/enclosure.ts:23-45 | Two free neighbours on the same arc of the ring are joined around the cell without crossing it. |
| `Enclosure.RingIsJoined` | examples/cordon-off/enclosure.ts:40-45 | When the open neighbours form at most one run, all of them stay joined after the claim. |
| `Enclosure.GateNamesEveryCut` | examples/cordon-off/enclosure.ts:16-78 | If a claim cuts a cell off from the edge, some neighbour named by the gate is in that cut-off component: no newly enclosed component is missed. |
| `Enclosure.SilentGateCutsNothing` | examples/cordon-off/enclosure.ts:40-48 | When the gate returns nothing, every other free cell that reached the edge before the claim still does. |
| `Enclosure.OpenRuns` | examples/cordon-off/enclosure.ts:51-57 | The bit count is the number of separate runs of open neighbours around the ring. |
| `Enclosure.MayEnclose` | examples/cordon-off/enclosure.ts:16-49 | The loops over the ring compute the gate: nothing, or every open neighbour without a straight exit. |
| `Enclosure.AtRiskNeighbours` | examples/cordon-off/enclosure.ts:59-78 | Exactly the open neighbours without a straight exit are listed, in ring order. |
| `Filler.HolesAreEnclosed` | examples/cordon-off/filler.ts:36-47 | Inside a box that covers the country, having no free path to the rim of the box is the same as having none to the edge of the map. |
| `Filler.UnreachedRunsAreHoles` | examples/cordon-off/filler.ts:138-151 | When the marked runs hold every rim run and are closed under touching, a free cell is a hole exactly when its run is unmarked. |
| `Filler.FloodFindsHoles` | examples/cordon-off/filler.ts:86-92 | A finished flood separates the holes from the rest: both directions, for every cell of the box. |
| `Filler.HoleFiller.GrowRuns` | examples/cordon-off/filler.ts:157-173 | Growing keeps the recorded runs and makes room, and marks and queue grow with them. |
| `Filler.HoleFiller.BuildRuns` | examples/cordon-off/filler.ts:50-83 | The scan lists exactly the maximal free runs of each row of the box, row by row, with the index where each row starts, and returns the number of free cells. |
| `Filler.HoleFiller.SeedEdgeRuns` | examples/cordon-off/filler.ts:94-106 | Exactly the runs on the rim of the box are marked and queued. |
| `Filler.HoleFiller.FirstReaching` | examples/cordon-off/filler.ts:124-130 | The binary search finds the first run of the row that reaches the given column. |
| `Filler.HoleFiller.MarkTouchingRuns` | examples/cordon-off/filler.ts:119-136 | Of a neighbouring row exactly the runs that meet the interval are marked, each queued once. |
| `Filler.HoleFiller.FloodRuns` | examples/cordon-off/filler.ts:86-92 | The queue flood ends with a set of runs that holds every rim run, is closed under touching, and holds nothing that is not joined to the rim; the queue never overflows. |
| `Filler.HoleFiller.CollectHoles` | examples/cordon-off/filler.ts:138-152 | The cells of the unmarked runs, strictly ascending; the buffer never overflows. |
| `Filler.HoleFiller.Fill` | examples/cordon-off/filler.ts:41-47 | Returns, strictly ascending, exactly the cells of the box that are not the country's and have no free path to its rim; if the box covers the country, exactly the cells cut off from the map edge. |
| `LocalSearch.PushOrderIsComplete` | examples/cordon-off/enclosure.ts:164-174 | Each quadrant's push order names all eight neighbours once, worst first, so the last pushed is nearest the bound. |
| `LocalSearch.ClosedIsComponent` | examples/cordon-off/enclosure.ts:297-330 | A flooded set that is closed and connected is the whole component of its start. |
| `LocalSearch.Search.NextStamp` | examples/cordon-off/enclosure.ts:247-256 | A new stamp differs from every mark left by earlier searches, also when stamps overflow and when the board size changes. |
| `LocalSearch.Search.SettleComponent` | examples/cordon-off/enclosure.ts:333-341 | An open component is marked outside and forgotten; a closed one is appended to the holes; the buffer has room. |
| `LocalSearch.Search.Expand` | examples/cordon-off/enclosure.ts:317-327 | Looking at the eight neighbours either settles the component as open, runs out of budget, or leaves every free neighbour visited. |
| `LocalSearch.Search.FloodComponent` | examples/cordon-off/enclosure.ts:297-330 | The dive decides correctly: open means the component reaches the edge, hole means it is enclosed and wholly collected; stack and buffers stay within the budget. |
| `LocalSearch.Search.ResolveStart` | examples/cordon-off/enclosure.ts:213-235 | After each start the holes are the enclosed components of the starts so far, each cell once. |
| `LocalSearch.Search.LocalEnclosures` | examples/cordon-off/enclosure.ts:199-244 | A returned array is ascending and holds exactly the enclosed components that contain a start, whatever earlier searches left in the scratch storage. |
| `Claims.QueuedAllHolds` | examples/cordon-off/world.ts:1198-1208 | Queueing neighbours never loses a start, whether or not the queue of the country collapses to a full search at the limit. |
| `Claims.ClaimantIsWatched` | examples/cordon-off/world.ts:1234-1266 | After a claim's candidates are queued, every pocket of land the claimant now encloses holds a queued start, also when the claim consumed one. |
| `Claims.LoserIsWatched` | examples/cordon-off/world.ts:1298-1309 | A country that loses a cell is still watched: the only pocket it can gain is around the lost cell, and that cell is queued or has a way out. |
| `Claims.ExtendedIsLeast` | examples/cordon-off/world.ts:1210-1224 | Every box around a country's old box and the claimed cell encloses the new box, and no other country's box is touched. |
| `Claims.BookedIsBetween` | examples/cordon-off/world.ts:1328-1345 | Half-way through a claim all books balance except the loser's count, which is off by exactly the one cell. |
| `Claims.DeletedKeepsPlace` | examples/cordon-off/world.ts:469-482 | Deleting a country in the middle of the pass keeps every other country on its side of the iteration. |
| `Claims.DeletedKeepsInv` | examples/cordon-off/world.ts:469-482 | Deleting a country that holds nothing keeps the books and the watch. |
| `Claims.LossRestoresInv` | examples/cordon-off/world.ts:1313-1325 | Settling the loss restores the whole invariant. |
| `Claims.ClaimKeepsInv` | examples/cordon-off/world.ts:1328-1346 | Every claim by a live country keeps each count equal to the cells owned, every owner live and on land, every box covering its country, and every enclosed pocket of land queued. |
| `Capture.WithoutCommutes` | examples/cordon-off/world.ts:469-482 | Deletions from the ordered set of changed countries commute. |
| `Capture.SettlementsCommute` | examples/cordon-off/world.ts:1177-1195 | Settling two losers in either order leaves the same state. |
| `Capture.InstalmentsMerge` | examples/cordon-off/world.ts:1177-1195 | Charging a loser cell by cell and charging it once with the sum leave the same state. |
| `Capture.GainBeforeLosers` | examples/cordon-off/world.ts:1156-1176 | Booking the whole gain first and settling the losers afterwards equals booking cell by cell. |
| `Capture.HaulIsTallied` | examples/cordon-off/world.ts:1121-1155 | The loop's tallies are true: cells taken, cells lost per country, losers in first-touch order. |
| `Capture.HaulGrows` | examples/cordon-off/world.ts:1121-1176 | One more taken cell changes the hoisted books exactly as one more claim does. |
| `Capture.BulkEqualsEachClaim` | examples/cordon-off/world.ts:1090-1196 | The bulk loop and one fill claim per cell, in ascending order, leave the same world but for the search queues: owners, counts, credits and losses, boxes, dirty marks, triggers and the order of changed countries. |
| `CaptureQueues.BulkQueues` | examples/cordon-off/world.ts:1128-1135 | The exact difference of the queues: the loop also queues the last cell of a country that is left without land but kept by a live holder; every other queue is that of the claims. |
| `CaptureQueues.QueuesAgreeExactly` | examples/cordon-off/world.ts:1316-1324 | A country's queue is the same either way if and only if it is not such a country or queueing its last cell would add nothing; so it is the same for every country with land. |
| `CaptureQueues.HeldLoserDiffers` | examples/cordon-off/world.ts:1316-1324 | Taking the only cell of a held country with nothing queued: the loop queues the cell, the claim does not. |
| `CaptureQueues.HeldLoserExists` | examples/cordon-off/world.ts:1128-1135 | Such a world exists: on two cells the two forms agree on everything but the queue. |
| `Pass.WallToTheWest` | examples/cordon-off/world.ts:1042-1082 | West of any enclosed region stands a cell of the enclosing country, which is land. |
| `Pass.CapturerIsSafe` | examples/cordon-off/world.ts:1042-1082 | A country that has taken all the land it enclosed encloses no foreign land. |
| `Pass.SafeStaysSafe` | examples/cordon-off/world.ts:1042-1082 | A country without enclosed land stays so when another country captures its own pockets, so it never has to be visited again. |
| `Pass.WatchedStaysWatched` | examples/cordon-off/world.ts:1121-1134 | A capture leaves every pocket of a country still to be visited queued. |
| `Pass.CaptureKeepsInv` | examples/cordon-off/world.ts:1090-1196 | A bulk capture keeps the invariant, and its country needs no further care in this pass. |
| `Pass.PlainStepKeepsInv` | examples/cordon-off/world.ts:1050-1078 | Each turn of the pass keeps the invariant and brings the pass nearer to its end, though captures can append countries. |
| `Pass.PassSeals` | examples/cordon-off/world.ts:1042-1082 | After the pass no country encloses land it does not own, although each is visited at most once and only queued countries are. |
| `Pass.HaulIgnoresWater` | examples/cordon-off/world.ts:1121-1124 | Enclosed water in a fill changes nothing. |
| `Pass.SameLandSameCapture` | examples/cordon-off/world.ts:1066-1077 | Two ascending fills with the same land capture alike, so the local search and the full scan are interchangeable. |
| `Pass.WatchedPocketsHoldTheLand` | examples/cordon-off/world.ts:1059-1069 | The components around the queued starts contain all land the country encloses. |
| `Rounds.SurroundedClaimIsAHole` | examples/cordon-off/shared.ts:272-290 | A painted cell surrounded by one enemy would be enclosed by that enemy at once, which is why the step is left unpainted. |
| `Rounds.MoveKeepsSettled` | examples/cordon-off/world.ts:1004-1040 | A move, painted or not, keeps the world's invariant; players stay on the map across the seam. |
| `Rounds.JoinKeepsSettled` | examples/cordon-off/world.ts:839-875 | A landing player keeps the invariant. |
| `Rounds.LeaveKeepsSettled` | examples/cordon-off/world.ts:916-942 | A departing player keeps the invariant, whether or not its country goes with it. |
| `Rounds.FoundKeepsSettled` | examples/cordon-off/world.ts:434-464 | A new country keeps the invariant. |
| `Moves.StepCostIs` | examples/cordon-off/world.ts:991-1002 | Own land costs 1, water and land of nobody 2, an enemy's land 4, and crossing the shore 6 more. |
| `Moves.StepCostsAscend` | examples/cordon-off/world.ts:991-1002 | Own land is the cheapest to enter, then land of nobody and water, then an enemy's, and the surcharge of the shore is the same for all. |
| `Moves.HeadingLeads` | examples/cordon-off/shared.ts:128-134 | Each heading leads to the cell beside it; columns wrap around the seam and the poles block. |
| `Moves.SurroundedIsRinged` | examples/cordon-off/shared.ts:274-290 | The eight-step test holds exactly when the cell is off the map edge and it and all cells adjacent to it are one enemy's. |
| `Moves.MoveIsMove` | examples/cordon-off/world.ts:1004-1040 | A move that is not yet paid for only gathers credit; once the fare is reached the player stands on the cell its heading leads to with no credit left, and exactly that cell becomes its country's if it is another's or nobody's land and not ringed by one enemy; nobody else moves and no other owner changes; a pole costs the credit; the roster row follows, marked, across chunks and stays within one. |
| `Moves.PlainClaimPaysNobody` | examples/cordon-off/world.ts:1328-1346 | A claim that is no fill changes no player. |
| `Moves.ArrivalStands` | examples/cordon-off/world.ts:839-875 | An arrival stands on its cell with nothing gathered or captured, and on land the cell is its country's. |
| `Moves.DepartureRemoves` | examples/cordon-off/world.ts:916-942 | A departure moves nobody else and no border, and removes its country exactly when that has no land and nobody else plays for it. |
| `Moves.ClaimRemoves` | examples/cordon-off/world.ts:469-482 | A claim removes the country whose last cell it takes if nobody plays for it, and no other. |
| `Moves.EveryHistoryShows` | examples/cordon-off/world.ts:1023-1032 | After every tick of every history each roster row shows its player in the chunk it stands in. |
| `Rounds.TickSeals` | examples/cordon-off/world.ts:944-955 | After every tick, whatever its events were, no land is enclosed by a country that does not own it, and the books balance. |
| `Rounds.EveryHistoryIsSealed` | examples/cordon-off/world.ts:944-955 | Over every history of ticks, joins, leaves and foundings: each land cell a country does not own has a free path to the map edge, and each count is the number of cells owned. |
| `Credits.LosersAreCharged` | examples/cordon-off/world.ts:1177-1195 | Settling a list of losers charges each one still there once with its own losses, removes exactly those left without a cell and a player, tells their people unless they are bots', and touches nobody else. |
| `Credits.TurnPays` | examples/cordon-off/world.ts:1050-1078 | In its turn a country wins exactly the land it encloses and nobody else takes anything; the live player named by its trigger has captured that many more cells and is on the roster and cued, and without one nobody's captured changes; with a trigger every country still there has lost as many more cells as it ceded and its people are told; whoever ceded its last cell with nobody playing for it is gone. |
| `Credits.PassPays` | examples/cordon-off/world.ts:1042-1082 | Over a pass each player's captured grows by all cells won in its name and by nothing else, and each country left has lost all cells it ceded to triggered captures and no more; whoever was paid or charged is marked and cued. |
| `Credits.NoTriggerNoPay` | examples/cordon-off/world.ts:1063-1063 | A player named by no trigger is paid nothing by the pass. |
| `Credits.TickPays` | examples/cordon-off/world.ts:944-955 | The same for every tick, which starts the next one with nothing listed, queued or credited. |
| `Credits.TickMarksRosters` | examples/cordon-off/world.ts:944-955 | Whatever roster row of a player a tick changes, adds or removes, it marks, and no earlier mark is lost. |
| `Credits.ClaimRecords` | examples/cordon-off/world.ts:1234-1266 | A claim changes at most its own country's trigger, and only to its mover. |
| `Credits.ClosingIsCredited` | examples/cordon-off/world.ts:1234-1266 | A claim that shuts in a cell that could still get out is credited to its mover, unless the country's search has overflowed into a whole-country one. |
| `Credits.ClosingMovePays` | examples/cordon-off/world.ts:1004-1082 | When one painting step is all that happens in a tick of a sealed world, its player has captured exactly as many more cells as the land that its country encloses once the step is painted. |
| `WorldObject.World.ExtendBounds` | examples/cordon-off/world.ts:1210-1224 | The method leaves the extended box, which holds the old box and the cell and is the smallest that does (Claims.ExtendedIsLeast). |
| `WorldObject.World.QueueEnclosureCandidates` | examples/cordon-off/world.ts:1234-1266 | Queues the ring or the gate's neighbours and records the trigger, as the specification of candidates says. |
| `WorldObject.World.MaybeDeleteCountry` | examples/cordon-off/world.ts:469-482 | A country goes exactly when it has no land and no live holder; everything it had is forgotten. |
| `WorldObject.World.SettleLoss` | examples/cordon-off/world.ts:1313-1325 | Count, roster credit, deletion and reclaim of the losing country, in that order. |
| `WorldObject.World.ClaimCell` | examples/cordon-off/world.ts:1328-1346 | The method leaves exactly the specified state of one claim. |
| `WorldObject.World.TakeCells` | examples/cordon-off/world.ts:1103-1155 | The loop with its running row and chunk column takes the cells, tallies the losers in first-touch order and marks exactly the chunks of the cells taken. |
| `WorldObject.World.ExtendToHull` | examples/cordon-off/world.ts:1160-1163 | Extending by four corners merges the box with the extent of the cells taken. |
| `WorldObject.World.SettleLosses` | examples/cordon-off/world.ts:1177-1195 | Every loser is charged once with all its cells and deleted when nothing is left. |
| `WorldObject.World.CaptureEnclosure` | examples/cordon-off/world.ts:1090-1196 | For a processed country exactly the state of the specified bulk capture, otherwise exactly that of one fill claim per cell. |
| `WorldObject.World.FindCaptures` | examples/cordon-off/world.ts:1066-1076 | Local search or full scan: ascending, only enclosed cells, and all the enclosed land of a watched country. |
| `WorldObject.World.RunTurn` | examples/cordon-off/world.ts:1050-1078 | One turn equals a plain flood of the whole board for that country, and pays and charges for it in the sense of Credits.TurnPays. |
| `WorldObject.World.FillEnclosures` | examples/cordon-off/world.ts:1042-1082 | The pass with gates, local searches and run scans leaves the same world as plain floods of every changed country, pays and charges for it in the sense of Credits.PassPays, then clears its queues. |
| `WorldObject.World.SurroundedByEnemy` | examples/cordon-off/shared.ts:274-290 | True exactly when the cell and all eight neighbours are on the map and belong to one other country. |
| `WorldObject.World.MovePlayer` | examples/cordon-off/world.ts:1004-1040 | The method leaves the state of the specified move, which is a move in the sense of Moves.MoveIsMove: fare, landing cell, painted cell, seam, poles and roster row, said by coordinates and owners. |
| `WorldObject.World.MakePlayer` | examples/cordon-off/world.ts:839-875 | The new player stands on the cell and its country has claimed it. |
| `WorldObject.World.Remove` | examples/cordon-off/world.ts:916-942 | The player is gone, its row is dirty, and its country is deleted if nothing holds it. |
| `WorldObject.World.RunTick` | examples/cordon-off/world.ts:944-955 | The in-place tick leaves the specified state, sealed and with balanced books. |
| `Chunks.ExpandInvertsEncode` | examples/cordon-off/shared.ts:237-252 | Every chunk of codes comes back from its run-length encoding, which is well-formed and never longer than two bytes a cell. |
| `Chunks.EncodeIsInjective` | examples/cordon-off/shared.ts:237-252 | Different chunks have different encodings. |
| `Chunks.EncodeIsShortest` | examples/cordon-off/shared.ts:237-252 | No well-formed stream for the same codes is shorter than the greedy one. |
| `Chunks.EncodeAppends` | examples/cordon-off/world.ts:1375-1405 | Greedy encoding can be done one code at a time with one pending run: the fact the fused encoder rests on. |
| `Chunks.EncodeColorIndexes` | examples/cordon-off/shared.ts:238-252 | The stand-alone loop computes the greedy encoding. |
| `Chunks.PushCode` | examples/cordon-off/world.ts:1390-1399 | One code of the fused encoder: bytes written plus pending run stay the greedy encoding of the codes so far. |
| `Chunks.ReadColorIndexes` | examples/cordon-off/shared.ts:323-342 | Accepts exactly the streams of whole pairs without empty runs that expand to a full chunk, and returns what they expand to; clamped overflow never slips through. |
| `Saves.CellOfPlace` | examples/cordon-off/world.ts:402-412 | Each position of each chunk is a cell of the map in that chunk at that position, so no two positions share a cell. |
| `Saves.PlaceOfCell` | examples/cordon-off/shared.ts:194-199 | Each cell of the map is one position of one chunk. |
| `Saves.TallyIsOwnedPlusOverpainted` | examples/cordon-off/world.ts:413-421 | Counting while loading over-counts a country by exactly the cells of it that are painted over later. |
| `Saves.OverpaintingIsCounted` | examples/cordon-off/world.ts:413-421 | Painting over a painted cell always leaves some count too high. |
| `Saves.LoadBalances` | examples/cordon-off/world.ts:351-432 | The loaded counts and owners are in order exactly when nothing painted is painted over and nothing painted is water. |
| `Saves.CleanRows` | examples/cordon-off/world.ts:392-421 | That condition read off the rows: a chunk stored twice is blank every time but the last, and no row paints water. |
| `Saves.LoadIsExact` | examples/cordon-off/world.ts:351-432 | Loading balances the books if and only if repeated chunks are blank but the last time and no row paints water; then the world is ready for its first pass. |
| `Saves.ChunkStoredTwiceMiscounts` | examples/cordon-off/world.ts:413-421 | Two rows for the same one-cell chunk load, and the count comes out one too high. |
| `Saves.PaintedWaterMiscounts` | examples/cordon-off/world.ts:402-421 | A row that paints water loads, and a country owns a cell that is no land. |
| `Saves.RestoreSeals` | examples/cordon-off/world.ts:351-432 | A world restored from such rows is sealed by its first pass, whatever the rows enclose. |
| `Saves.SavedCountriesRegister` | examples/cordon-off/world.ts:360-380 | Countries with different palette colours all register, and each code names its own country. |
| `Saves.StoredRowsPaint` | examples/cordon-off/world.ts:392-421 | The encoded chunks of a world paint every cell with its owner again. |
| `Saves.SafePassTakesNothing` | examples/cordon-off/world.ts:1042-1082 | With no enclosed land the pass changes no owner and no country. |
| `Saves.RestoreReproduces` | examples/cordon-off/world.ts:351-432 | A sealed world with distinct colours comes back from its rows: the same owners, and every country with land unchanged, count included. |
| `WorldObject.World.EncodeChunk` | examples/cordon-off/world.ts:1375-1405 | The fused palette mapping and run-length pass emits exactly the greedy encoding of the mapped owner codes; lazily cached codes change no answer. |
| `WorldObject.World.WireCode` | examples/cordon-off/world.ts:1349-1357 | The code of a country, looked up and cached at most once; no other country's code changes. |
| `WorldObject.World.Load` | examples/cordon-off/world.ts:351-430 | The loading loops fail exactly where the specification fails, and otherwise leave the loaded world with landless countries dropped. |
| `WorldObject.World.Restore` | examples/cordon-off/world.ts:351-432 | From rows that satisfy the condition of Saves.LoadIsExact the world is the loaded one after its pass, and sealed. |
| `Palette.ClaimIsFewer` | examples/cordon-off/world.ts:1328-1346 | A claim changes no country's colour and drops a wire code exactly with its country. |
| `Palette.HistoryIsPaletted` | examples/cordon-off/world.ts:434-464 | Over every history the live countries have different colours, and their wire codes are those colours. |
| `Palette.TickKeepsIds` | examples/cordon-off/world.ts:434-482 | When ids never repeat, live and removed countries stay apart and colours stay fixed. |
| `Palette.EveryHistoryRestores` | examples/cordon-off/world.ts:351-432 | After any history of ticks, restoring the saved rows gives back the same owners and the same countries with land. |
| `Marks.HaulMarksChunks` | examples/cordon-off/world.ts:1147-1154 | Every cell a bulk capture takes lies in a chunk it marks. |
| `Marks.HaulMarksNoMore` | examples/cordon-off/world.ts:1147-1154 | Every chunk a bulk capture marks holds a cell it takes. |
| `Marks.ClaimIsMarked` | examples/cordon-off/world.ts:1328-1346 | A claim marks the chunk and the country rows it changes and lists a country it removes. |
| `Marks.TickIsMarked` | examples/cordon-off/world.ts:944-955 | Whatever a tick changes is marked: chunks with changed cells, changed or new country rows, removed countries; no earlier mark is lost. |
| `Publishing.SlicesHoldAll` | examples/cordon-off/publish.ts:176-182 | Slicing loses and adds no operation, and no slice is empty or over the cap. |
| `Publishing.SlicesAreInOrder` | examples/cordon-off/publish.ts:180-182 | The slices one after another are the operations in their order, and all but the last are full. |
| `Publishing.DrainParts` | examples/cordon-off/publish.ts:27-97 | Of chunk, country, removal, player and cue marks a drain loses none and invents none: each is kept or taken; a due roster is taken whole, a held one only where there is a cue. |
| `Publishing.RequeueReturns` | examples/cordon-off/publish.ts:100-117 | Requeueing brings back every mark from before the drain, keeps those made meanwhile, and adds nothing but rows for the cues; players included. |
| `Publishing.SliceOperations` | examples/cordon-off/publish.ts:180-182 | The loop computes those slices, which in a row are the operations. |
| `Publishing.UnmarkedChunkKeepsCodes` | examples/cordon-off/world.ts:1328-1342 | A chunk that a tick does not mark has the same codes as before. |
| `Publishing.AdvanceKeeps` | examples/cordon-off/server.ts:985-997 | Ticking while a commit is in flight loses no update. |
| `Publishing.PublishKeeps` | examples/cordon-off/publish.ts:74-97 | Draining and building moves every update into the flight, also when the roster or the chunks are held back. |
| `Publishing.DeliverKeeps` | examples/cordon-off/publish.ts:176-194 | A slice that lands, fails, or fails after landing loses no update. |
| `Publishing.ConcludeKeeps` | examples/cordon-off/publish.ts:100-117 | A failed publish puts every mark back; a successful one needs none. |
| `Publishing.NoUpdateIsLost` | examples/cordon-off/publish.ts:74-117 | Over every run of ticks, drains, landed and failed slices: each chunk is dirty, in flight, or its stored row decodes to the codes of the cells as they are now. |
| `Publishing.StoreAtRestRestores` | examples/cordon-off/publish.ts:74-117 | After any run, a store with nothing dirty and nothing in flight restores the world: the same owners, and the same countries with land. |
| `WorldObject.World.Drain` | examples/cordon-off/publish.ts:27-97 | The snapshot and what stays behind, for held and due rosters and chunks. |
| `WorldObject.World.Requeue` | examples/cordon-off/publish.ts:100-117 | Every drained mark is back. |
| `WorldObject.World.BuildOperations` | examples/cordon-off/publish.ts:120-171 | Exactly one kind of operation per listed row: removes first, rows of live countries, encoded chunks; nothing for a country that has gone meanwhile. |
| `Bots.WalksCostTheirLength` | examples/cordon-off/world.ts:991-1002 | No walk is cheaper than it is long. |
| `Bots.MaterializeApproach` | examples/cordon-off/bots.ts:17-31 | The two straight legs, one axis first, cell by cell. |
| `Bots.FillPerimeter` | examples/cordon-off/bots.ts:58-73 | The four loops list the edge of the square clockwise from its top left corner, each cell once, for every side. |
| `Bots.FillSnake` | examples/cordon-off/bots.ts:334-342 | The square row by row, odd rows backwards. |
| `Bots.EntryOfSweep` | examples/cordon-off/bots.ts:268-274 | The closed formulas for the first and the last cell of a sweep are right, for loops and for snakes. |
| `Bots.FourSides` | examples/cordon-off/bots.ts:86-98 | The perimeter is all land exactly when its four straight sides are. |
| `Bots.IsAllLand` | examples/cordon-off/bots.ts:75-98 | The strided scans answer whether the whole perimeter is land. |
| `Bots.Scorer.BeginScoring` | examples/cordon-off/bots.ts:46-55 | A fresh token: nothing counts as painted, also when the tokens wrap around. |
| `Bots.Scorer.ScoreStep` | examples/cordon-off/bots.ts:131-138 | The cost of a step onto a cell as painted so far, and the paint it leaves. |
| `Bots.Scorer.ScoreCells` | examples/cordon-off/bots.ts:104-193 | The inline score is the cost of walking the materialized approach, sweep and closing or return, each land cell entered being the walker's from then on. |
| `Routes.WalkIsFares` | examples/cordon-off/bots.ts:131-138 | The cost of a walk is the sum of its fares, each at the owner the cell has by then: the walker's country where the walk has passed over land before, the map's otherwise. |
| `Routes.ApproachPaces` | examples/cordon-off/bots.ts:17-31 | An approach leads from one cell to the other, every cell beside the one before it. |
| `Routes.ApproachLegs` | examples/cordon-off/bots.ts:17-31 | An approach along the row first turns in the column of its end, and one along the column first in the row of its end. |
| `Routes.SnakeSweeps` | examples/cordon-off/bots.ts:334-342 | The snake enters every cell of the square once, and no other. |
| `Routes.PerimeterSweeps` | examples/cordon-off/bots.ts:58-73 | The perimeter enters every cell of the rim of the square once, and no other. |
| `Routes.LoopsOnLand` | examples/cordon-off/bots.ts:86-98 | A square is circled exactly when its whole rim is land. |
| `Routes.PlanPaces` | examples/cordon-off/bots.ts:371-384 | A plan over squares of more than one cell is walked a pace at a time from where the bot stands, in either direction, there, through and back. |
| `Routes.PlanEntersSweep` | examples/cordon-off/bots.ts:371-384 | A plan enters every cell of its sweep, also the one the bot starts on: the rim of a square that can be circled on land, the whole square otherwise. |
| `Routes.PlanLength` | examples/cordon-off/bots.ts:371-384 | A plan is no longer than it has to be: the way there, each further cell of the sweep once, and one cell to close a loop or the way back to a start not entered yet. |
| `Routes.RimEncloses` | examples/cordon-off/bots.ts:267-268 | A country that owns the rim of a square encloses every cell inside that it does not own. |
| `Routes.PlanGainsSquare` | examples/cordon-off/bots.ts:257-284 | Once a plan is painted, every land cell of its square is the country's or enclosed by it, so the whole square is rightly counted as gain. |
| `Planning.FindRival` | examples/cordon-off/bots.ts:202-209 | The first of the largest other countries. |
| `Planning.CountGain` | examples/cordon-off/bots.ts:257-266 | The gain of a square is the number of its land cells that are not the bot's country's plus the number of those that are the rival's, as cardinalities of sets of cells. |
| `Planning.PatchIsEligible` | examples/cordon-off/bots.ts:239-266 | A place of the 9x9 scan yields only a square of the grid within four squares of the bot's, on the map, not reserved, with something to gain. |
| `Planning.EligibleIsPatch` | examples/cordon-off/bots.ts:239-266 | Every such square is found, at its own place of the scan. |
| `Planning.CostIsBounded` | examples/cordon-off/bots.ts:275-287 | No candidate costs less than its distance plus its length. |
| `Planning.CandidatesCost` | examples/cordon-off/bots.ts:267-268 | Every candidate costs something and gains something, so comparing by products is sound. |
| `Planning.BeatsIsTransitive` | examples/cordon-off/bots.ts:354-357 | Comparison by cross-multiplication with ties by order is transitive. |
| `Planning.PruneIsSafe` | examples/cordon-off/bots.ts:320-330 | A pruned candidate is strictly worse than the best so far: neither a winner nor a tie is discarded. |
| `Planning.LeaderIsBest` | examples/cordon-off/bots.ts:302-369 | With all listed patches evaluated, the leader beats every candidate of the exhaustive search. |
| `Planning.AllVisited` | examples/cordon-off/bots.ts:303-306 | Whatever the seed, the evaluation order visits every patch. |
| `Planning.BestIsUnique` | examples/cordon-off/bots.ts:354-357 | There is only one best candidate. |
| `Planning.BestIsUnbeaten` | examples/cordon-off/bots.ts:302-369 | What the search over the listed candidates chooses is unbeaten, gain for cost, by any such square of the map, entered from either end and approached along either axis; ties go to the smaller place. |
| `Planning.ListPatches` | examples/cordon-off/bots.ts:239-301 | Exactly the patches on the map that are not reserved and worth something are listed, with their gain, loop flag and reverse entry. |
| `Planning.PlanBot` | examples/cordon-off/bots.ts:197-384 | There is no plan exactly when no square of the map is eligible; otherwise the plan is for an unbeaten one, whose gain counts its foreign land once and the rival's twice straight from the map, and is the one exhaustive choice. |
| `Radix.DigitsOfValue` | sdk/typescript/src/doc_id.ts:44-52 | Digits taken from the end give back the digit string, with nothing left. |
| `Radix.FitsIffNothingLeft` | sdk/typescript/src/doc_id.ts:105-117 | A value fits its digits exactly when nothing is left over, and then the digits stand for it. |
| `Radix.OrderIsValue` | sdk/typescript/src/doc_id.ts:278-283 | Digit strings of the same shape are ordered like their values. |
| `DocIds.DigitsNumberTheAlphabet` | sdk/typescript/src/doc_id.ts:5-26 | Each character's digit is its place in the alphabet, counted from one. |
| `DocIds.ShortStaysBelowTheTag` | sdk/typescript/src/doc_id.ts:7-9 | 39^24 is less than 2^127, so a short value never touches the tag bit. |
| `DocIds.FirstByteTells` | sdk/typescript/src/doc_id.ts:246-248 | The top bit of the first byte tells on which side of the tag a value is. |
| `DocIds.ShortRoundTrip` | sdk/typescript/src/doc_id.ts:96-135 | Every short id packs below the tag and unpacks to itself. |
| `DocIds.ShortUnpackIsExact` | sdk/typescript/src/doc_id.ts:105-135 | Every accepted short value is the packing of a valid short id: no overflow, no empty id, no digit after the end. |
| `DocIds.SqueezedIsPacked` | sdk/typescript/src/doc_id.ts:137-152 | The number with its tag, and the byte-by-byte form two bits to the right, are the same sixteen bytes. |
| `DocIds.SpreadInvertsSqueezed` | sdk/typescript/src/doc_id.ts:183-201 | The decoder's shifts and masks undo the packing, and the reserved bits are zero. |
| `DocIds.UuidRoundTrip` | sdk/typescript/src/doc_id.ts:137-207 | Every canonical UUIDv7 packs above the tag and unpacks to itself, version and variant included. |
| `DocIds.UuidUnpackIsExact` | sdk/typescript/src/doc_id.ts:165-203 | Every accepted tagged value is the packing of a canonical UUIDv7. |
| `DocIds.PackRoundTrip` | sdk/typescript/src/doc_id.ts:222-271 | Exactly the valid ids pack, and each comes back. |
| `DocIds.UnpackRoundTrip` | sdk/typescript/src/doc_id.ts:238-271 | Every accepted sixteen bytes pack back into themselves. |
| `DocIds.OrderIsPackedOrder` | sdk/typescript/src/doc_id.ts:278-283 | The order of two valid ids as strings is the byte order of their packed forms, within and across the two families. |
| `DocIds.SortedIsTotalOrder` | sdk/typescript/src/doc_id.ts:273-283 | The comparison is a strict total order on all strings, valid ids or not. |
| `DocIdCodec.TakeDigits` | sdk/typescript/src/doc_id.ts:105-111 | The division loop yields the digits from the end and what is left. |
| `DocIdCodec.PackDocId` | sdk/typescript/src/doc_id.ts:222-236 | The loops over digits and bytes compute the packed value. |
| `DocIdCodec.DecodeShort` | sdk/typescript/src/doc_id.ts:105-135 | The decoding loop refuses exactly the non-canonical values. |
| `DocIdCodec.Codec.DecodeUuid` | sdk/typescript/src/doc_id.ts:165-208 | Through the two-way cache the answer is the true one. |
| `DocIdCodec.Codec.UnpackDocId` | sdk/typescript/src/doc_id.ts:238-271 | For every history of calls the cached answer is the answer. |
| `DocIdCodec.Codec.SortFamily` | sdk/typescript/src/doc_id.ts:285-296 | The remembered family is the family, and the memory stays within its limit. |
| `DocIdCodec.Codec.CompareDocIds` | sdk/typescript/src/doc_id.ts:278-296 | The sign is the string order, and for valid ids the order of the packed bytes. |
| `Utf8.ByteOrderIsScalarOrder` | sdk/typescript/src/store.ts:944-950 | Comparing UTF-8 bytes is comparing scalar values, and equal bytes mean equal scalars. |
| `Utf8.ScalarsAreSpelled` | sdk/typescript/src/store.ts:944-950 | The scalar values of a string are those whose UTF-16 units are the string with every lone surrogate replaced by U+FFFD: each pair is its own scalar. |
| `Utf8.EncodedIffSpelled` | sdk/typescript/src/store.ts:944-950 | A scalar value is encoded by the one shortest byte sequence whose payload bits spell it, and by no other (section 3 of RFC 3629). |
| `Utf8.ShortcutIsSound` | sdk/typescript/src/store.ts:937-942 | Comparing code units agrees with comparing bytes below the surrogates, so the stricter limit 0x800 is safe. |
| `Utf8.ShortcutStopsAtSurrogates` | sdk/typescript/src/store.ts:952-957 | Beyond the surrogates the shortcut would be wrong: two strings that the orders rank differently. |
| `Utf8.CompareUtf8` | sdk/typescript/src/store.ts:936-958 | With or without the shortcut the sign is the order of the UTF-8 bytes, lone surrogates counting as U+FFFD. |
| `Registry.AtMostOne` | sdk/typescript/src/store.ts:288-561 | A key holds at most one server subscription, accepted or in flight in the current generation. |
| `Registry.NobodyIsStranded` | sdk/typescript/src/store.ts:406-440 | Ready and with no switch pending, every live key holds a subscription, has one requested, or has its loop woken to request one. |
| `Registry.OnlyUnusedAreGivenUp` | sdk/typescript/src/store.ts:533-561 | Within a generation a subscription is freed only as the grace teardown of a key without consumers. |
| `Registry.EventKeeps` | sdk/typescript/src/store.ts:288-561 | Every registration, release, acknowledgement, refusal, timer, resumed loop, drop, replay and switch, rolled back or committed, keeps the registry sound. |
| `Registry.ReleaseTakesOne` | sdk/typescript/src/store.ts:533-549 | A release removes the first occurrence of the consumer and no more, keeps the order of the rest, arms the timer exactly for the last one out of an established key, and changes no other registration. |
| `Registry.RegisterAddsOne` | sdk/typescript/src/store.ts:288-388 | A registration appends its consumer at the key's registration, new if the key was not in the table, and changes nobody else's consumers. |
| `Registry.ConsumersAreListed` | sdk/typescript/src/store.ts:288-561 | Over every run the listed consumers of a registration are exactly those who registered there minus those who left, as multisets. |
| `Registry.OnlyRefusalDropsUsed` | sdk/typescript/src/store.ts:425-440 | A key that has consumers leaves the table only when the server refuses it in the current generation with the session ready and no switch pending. |
| `Registry.RequestsWait` | sdk/typescript/src/store.ts:406-425 | A request goes out only in a ready session with no switch pending, for a key that is not closed, in the current generation. |
| `Registry.AdoptedIffWanted` | sdk/typescript/src/store.ts:443-477 | An acknowledgement is adopted exactly when it is current and the key is live with consumers; otherwise its subscription is not left open, and a wanted key tries on. |
| `Registry.RetriedIffMoot` | sdk/typescript/src/store.ts:425-440 | A refused key is tried again exactly when it is wanted and a drop or a pending switch may have caused the refusal; otherwise it is gone. |
| `Registry.EveryRunShares` | sdk/typescript/src/store.ts:288-640 | Over every interleaving from a fresh store, across drops, replays and switches: at most one subscription per key, generations only ascend, and within a generation none is given up while anyone who registered for its key has not left. |
| `Registry.ReplayRestores` | sdk/typescript/src/client.ts:304-328 | After a replay every key that was established holds exactly its new subscription, with its consumers. |
| `Registry.GenerationsAscend` | sdk/typescript/src/store.ts:619-640 | Exactly a drop and a committed switch start a new generation. |
| `Registry.StoreRegistry.Attach` | sdk/typescript/src/store.ts:288-388 | A registration shares the key, cancels a pending teardown, appends its consumer there and nowhere else, and requests a subscription only if none is held or requested. |
| `Registry.StoreRegistry.Acknowledge` | sdk/typescript/src/store.ts:443-494 | An acknowledgement is adopted, retried when stale, or freed again when everyone has left. |
| `Registry.StoreRegistry.Reject` | sdk/typescript/src/store.ts:425-440 | A refusal is retried when it can outlive a switch; otherwise the key is dropped. |
| `Registry.StoreRegistry.Release` | sdk/typescript/src/store.ts:533-549 | One occurrence of the consumer leaves and no more: the multiset of consumers is less by one, the rest keep their order, no other registration changes; the last one of an established key arms the timer. |
| `Registry.StoreRegistry.Teardown` | sdk/typescript/src/store.ts:551-561 | The key is dropped and its subscription freed. |
| `Registry.StoreRegistry.WakeReady` | sdk/typescript/src/store.ts:670-680 | Exactly the parked loops are woken; each looks again later, in a step of its own. |
| `Registry.StoreRegistry.Resume` | sdk/typescript/src/store.ts:406-413 | A woken loop parks again, or requests in the current generation. |
| `Registry.StoreRegistry.MarkSessionReady` | sdk/typescript/src/store.ts:605-617 | Established keys answer to their replayed ids, the session is ready, and parked loops are woken. |
| `Registry.StoreRegistry.MarkNotReady` | sdk/typescript/src/store.ts:619-623 | The generation ends: nothing is open and answers still out are stale. |
| `Registry.StoreRegistry.CommitNamespaceSwitch` | sdk/typescript/src/store.ts:636-640 | One switch fewer is pending and the generation ends. |
| `Views.NoChange` | sdk/typescript/src/subscriptions.ts:373-388 | Ops that report no change leave the records as they were, so no callback is missed. |
| `Views.OpsOutcome` | sdk/typescript/src/subscriptions.ts:373-388 | Under each key of a view stands what the last op on it set, nothing if that was a removal, and what stood there before if no op names it; keys stay distinct, and records no op removes keep their place. |
| `Views.ChangesIff` | sdk/typescript/src/subscriptions.ts:373-388 | Ops report a change exactly when one of them sets something or names a record of the view. |
| `Views.FlushedIsFlushed` | sdk/typescript/src/subscriptions.ts:133-181 | After a flush each key of a view holds what the last pending op of its own subscription on it left; the subscription is called once, with the view it now has, exactly when a pending op of its own sets something or names a record, and is left alone otherwise. |
| `Views.EventKeepsAgreement` | sdk/typescript/src/subscriptions.ts:102-181 | With its pending deltas applied, every view is what delivery one at a time would have made it. |
| `Views.EventKeepsAgreementExactly` | sdk/typescript/src/subscriptions.ts:102-181 | Only a registration can break the agreement, and it keeps it if and only if the deltas pending under its id would leave a fresh view empty. |
| `Views.RunsAgree` | sdk/typescript/src/subscriptions.ts:102-181 | The same over every run of registrations, removals, deltas and flushes. |
| `Views.FlushCatchesUp` | sdk/typescript/src/subscriptions.ts:133-158 | After a flush every view holds exactly the records that one-at-a-time delivery leaves. |
| `Views.HandedTheirViews` | sdk/typescript/src/subscriptions.ts:160-181 | In every run each subscription has been handed the view it has, or has an empty view and no call. |
| `Views.ReusedIdsWouldInherit` | sdk/typescript/src/subscriptions.ts:55-64 | Why an id must not come back while its deltas are pending: the new view would receive them. |
| `Views.RemapKeepsAll` | sdk/typescript/src/subscriptions.ts:220-236 | A reconnect keeps every subscription if and only if no two end up under the same id. |
| `Views.ReconnectReplaces` | sdk/typescript/src/subscriptions.ts:216-256 | After a collision-free reconnect and the next flush each view holds its fresh snapshot followed by the deltas queued while the connection was down, and nothing older. |
| `Views.SnapshotIsSorted` | sdk/typescript/src/subscriptions.ts:393-397 | A snapshot holds every record once, in the comparator's order whenever that is consistent. |
| `Views.SnapshotIsStable` | sdk/typescript/src/subscriptions.ts:393-397 | Records that the comparator does not tell apart keep the view's order. |
| `Views.SubscriptionTracker.ApplyOpsToView` | sdk/typescript/src/subscriptions.ts:373-388 | The loop leaves under each key what the last op on it left, or what was there, with keys distinct and places kept, and reports a change exactly for a set or an op that names a record of the view. |
| `Views.SubscriptionTracker.GroupBySub` | sdk/typescript/src/subscriptions.ts:142-150 | Each subscription's group is its pending deltas in arrival order. |
| `Views.SubscriptionTracker.FlushPending` | sdk/typescript/src/subscriptions.ts:133-181 | Every view is flushed in the sense of Views.FlushedIsFlushed, straight from the pending deltas of all subscriptions, and pending is empty. |
| `Views.SubscriptionTracker.Reconnect` | sdk/typescript/src/subscriptions.ts:216-256 | Remap, clear, take the snapshots, drain the queue, in that order. |
| `FieldPaths.JoinInvertsSplit` | sdk/typescript/src/path.ts:12-21 | Joining what was split gives back the key. |
| `FieldPaths.SplitInvertsJoinExactly` | sdk/typescript/src/path.ts:12-21 | Splitting what was joined gives back the segments if and only if none holds the delimiter and none but the last ends in an underscore. |
| `FieldPaths.FlatteningLists` | sdk/typescript/src/path.ts:54-77 | Flattening lists the leaves under their joined paths, in order. |
| `FieldPaths.PlantingRebuilds` | sdk/typescript/src/path.ts:95-120 | Setting the leaves along their paths rebuilds the value, fields in order. |
| `FieldPaths.FlatRoundTrip` | sdk/typescript/src/path.ts:54-93 | A nested value with tidy keys and no empty object comes back from its flat form. |
| `FieldPaths.FlatRoundTripExactly` | sdk/typescript/src/path.ts:54-93 | It comes back if and only if no nested object is empty, no key holds the delimiter, no object's key ends in an underscore, and no object stands under the empty key at the top. |
| `FieldPaths.EncodeFields` | sdk/typescript/src/schema_dictionary.ts:748-766 | The loop yields index and value of every flat field, and fails exactly on an unknown one. |
| `FieldPaths.DecodeFields` | sdk/typescript/src/schema_dictionary.ts:768-791 | The loop rebuilds the nested value, and fails exactly on odd lengths and unknown indexes. |
| `FieldPaths.DecodeInvertsEncode` | sdk/typescript/src/schema_dictionary.ts:748-791 | Decoding an encoded flat form is rebuilding it, also when the dictionary repeats a name. |
| `FieldPaths.SparseRoundTrip` | sdk/typescript/src/schema_dictionary.ts:561-644 | A nested value comes back from its sparse array for any dictionary that covers its flat keys. |

## Left out

- Spawn search, anchors, waves, bot steering, roaming and jitter, name normalisation and player slots of the world: a spawn is any cell where a live country's player lands, and a tick is any sequence of moves, landings, departures and foundings.
- User chunks, coordinate packing, grace tombstones and removed player rows: they take no part in territory or its publication.
- Integer widths of typed arrays: owners, country ids and run indexes are unbounded here; the source keeps ids below 65536 and throws beyond. Stamps and scoring tokens do wrap as in the source.
- `Filler.HoleFiller`: the three parallel run arrays are one array of records, grown together.
- `LocalSearch.Search`: the runtime's numeric sort is represented by an insertion sort with the same contract.
- `Views.SnapshotIsSorted`: the runtime's stable sort is represented by a stable insertion sort; comparators of sort fields with mixed value types are not consistent, and no order is claimed for them.
- `Territory.State`: the insertion-ordered sets and maps of dirty rows are plain sets, since nothing depends on their order; the set of changed countries keeps its order and its iterator position.
- `WorldObject.World.Restore`: covers the saves that `Saves.LoadIsExact` singles out; loading is specified for every save (`WorldObject.World.Load`), but the first pass over a world with miscounted countries is not, because what the pass keeps is stated with exact counts.
- Country names, the allocator mark and player rows of a save.
- `Publishing.NoUpdateIsLost`: player rows and user chunks of a publish are left out of the store; each slice lands as a whole or not at all; which ticks publish chunks and rosters is left open, so the result holds for every schedule.
- Clocks, the network, sockets, timers and promises are steps of a run: a tick, an acknowledgement, a refusal, a timer, a slice that lands or not.
- `Registry.EveryRunShares`: a replay is one step that answers every established subscription, so a grace timer, a registration or a drop in the middle of a replay is not covered; client shutdown, which discards queued registrations, and pagination are not part of this model.
- `Views.FlushCatchesUp`: collection views only; the projections of document and field listens, with their suppression of equal values, are not modelled.
- `FieldPaths.FlatRoundTrip`: objects are values with ordered fields, not mutable records, so aliasing is not captured; arrays, bytes and null are leaves; integer-like keys are not reordered.
- `DocIdCodec.Codec.SortFamily`: the map and its insertion order are two fields.
- `Bots.Scorer`: the scratch route arrays are allocated per use; the owners of the map are an array the scorer only reads.
- `Routes.PlanGainsSquare`: the route is painted as the planner costs it; enemies that move meanwhile, and single cells a move leaves unpainted because one enemy rings them, are not part of the statement.
- `Credits.ClosingMovePays`: for a tick of one painting step; ticks of many events are covered turn by turn (`Credits.PassPays`), since later captures of the same pass can change what is enclosed.
- Country rows in flight: the model does not ask that a stored chunk never names a country whose removal has landed first.
- Schema synchronisation, token and presence messages, the server in Zig and the C++ bridge are not part of this model.
