/** The territory half of the world: who owns what, and what each claim books.

    The functions here say what one operation of the world does to its state; the
    class `World` carries the same operations out in place. */
module Territory {
  import opened Basics
  import opened Grid
  import opened Enclosure

  /** What never changes: the board, its land, and the grid of chunks laid over it. */
  datatype Atlas = Atlas(g: Board, land: seq<bool>, chunkWidth: Positive, chunkHeight: Positive, columns: Positive) {
    predicate Valid() {
      |land| == g.Size() && g.width == columns * chunkWidth
    }

    /** countryChunkIndex at the cell's coordinates. */
    function ChunkOf(cell: nat): int {
      At(columns, Col(g.width, cell) / chunkWidth, Row(g.width, cell) / chunkHeight)
    }
  }

  const MAX_COUNTRIES: nat := 64

  /** A palette code: 0 is no colour, the others name one of the country colours. */
  type Code = n: nat | n <= MAX_COUNTRIES

  datatype Country = Country(color: Code, count: int, isBot: bool, lost: nat)

  datatype Player = Player(country: nat, isBot: bool, x: nat, y: nat, lastX: nat, lastY: nat, credit: nat, captured: nat)

  /** The candidates queued for one country: a set of starts in insertion order, or the whole country. */
  datatype Search = Whole | From(starts: seq<nat>)

  /** Who triggered a change; an absent or empty id credits nobody. */
  type Trigger = Option<string>

  predicate Named(mover: Trigger) {
    mover.Some? && mover.value != ""
  }

  datatype State = State(
    owners: seq<nat>,
    countries: map<nat, Country>,
    players: map<string, Player>,
    bounds: map<nat, Bounds>,
    changed: seq<nat>,
    cursor: nat,
    queue: map<nat, Search>,
    triggers: map<nat, string>,
    dirtyChunks: set<int>,
    dirtyCountries: set<nat>,
    removedCountries: set<nat>,
    dirtyPlayers: set<string>,
    cueCountries: set<nat>,
    cuePlayers: set<string>,
    ownerCodes: map<nat, Code>)

  // ----- insertion-ordered sets -----

  function Add<T(==)>(s: seq<T>, x: T): seq<T> {
    if x in s then s else s + [x]
  }

  /** Deletion from an insertion-ordered set. */
  function Without(s: seq<nat>, x: nat): seq<nat> {
    if s == [] then [] else (if s[0] == x then [] else [s[0]]) + Without(s[1..], x)
  }

  // ----- bounds and queues -----

  function Extended(g: Board, bounds: map<nat, Bounds>, country: nat, cell: nat): map<nat, Bounds> {
    var x, y := Col(g.width, cell), Row(g.width, cell);
    if country !in bounds then bounds[country := Bounds(x, x, y, y)]
    else bounds[country := Stretch(bounds[country], x, y)]
  }

  function Min(a: nat, b: nat): nat {
    if a < b then a else b
  }

  function Max(a: nat, b: nat): nat {
    if a < b then b else a
  }

  function Stretch(box: Bounds, x: nat, y: nat): Bounds {
    Bounds(Min(box.left, x), Max(box.right, x), Min(box.top, y), Max(box.bottom, y))
  }

  function Queued(queue: map<nat, Search>, country: nat, cell: nat): map<nat, Search> {
    var search := if country in queue then queue[country] else From([]);
    match search
    case Whole => queue
    case From(starts) =>
      queue[country := if |starts| == LOCAL_SEARCH_BUDGET then Whole else From(Add(starts, cell))]
  }

  function QueuedAll(queue: map<nat, Search>, country: nat, cells: seq<nat>): map<nat, Search>
    decreases |cells|
  {
    if cells == [] then queue else QueuedAll(Queued(queue, country, cells[0]), country, cells[1..])
  }

  /** The in-board neighbours of a cell among the first n ring positions of `order`. */
  function RingCells(g: Board, cell: nat, order: seq<nat>): seq<nat>
    requires forall k :: 0 <= k < |order| ==> order[k] < 8
  {
    if order == [] then []
    else (if HasNeighbour(g, cell, order[0]) then [Neighbour(g, cell, order[0])] else []) + RingCells(g, cell, order[1..])
  }

  /** The order in which the eight neighbours are spelled out: row by row. */
  const ROW_ORDER: seq<nat> := [0, 1, 2, 7, 3, 6, 5, 4]

  ghost function Candidates(t: Atlas, s: State, cell: nat, country: nat, mover: Trigger): State
    requires |s.owners| == t.g.Size() && cell < |s.owners|
  {
    if country in s.queue && s.queue[country].Whole? then s
    else if (country in s.queue && cell in s.queue[country].starts) || country !in s.bounds then
      s.(triggers := Credited(s.triggers, country, mover),
         queue := QueuedAll(s.queue, country, RingCells(t.g, cell, ROW_ORDER)))
    else
      var risky := Gate(t.g, s.owners, country, cell, s.bounds[country]);
      if risky.None? then s
      else s.(triggers := Credited(s.triggers, country, mover), queue := QueuedAll(s.queue, country, risky.value))
  }

  function Credited(triggers: map<nat, string>, country: nat, mover: Trigger): map<nat, string> {
    if Named(mover) then triggers[country := mover.value] else triggers
  }

  // ----- the books of one claim -----

  function Counted(countries: map<nat, Country>, country: nat, n: nat): map<nat, Country> {
    if country !in countries then countries
    else countries[country := countries[country].(count := countries[country].count + n)]
  }

  /** Only a live capturer of a live country is credited, and only for fills. */
  predicate Pays(s: State, country: nat, fromFill: bool, mover: Trigger) {
    country in s.countries && fromFill && Named(mover) && mover.value in s.players
  }

  /** Count n cells for the claimant and, on a fill, credit the mover who closed it. */
  function Gain(s: State, country: nat, n: nat, fromFill: bool, mover: Trigger): State {
    var pays := Pays(s, country, fromFill, mover);
    s.(countries := Counted(s.countries, country, n),
       players := if pays then s.players[mover.value := s.players[mover.value].(captured := s.players[mover.value].captured + n)] else s.players,
       dirtyPlayers := if pays then s.dirtyPlayers + {mover.value} else s.dirtyPlayers,
       cuePlayers := if pays && !s.players[mover.value].isBot then s.cuePlayers + {mover.value} else s.cuePlayers)
  }

  function Debited(countries: map<nat, Country>, owner: nat, n: nat, booked: bool): map<nat, Country> {
    if owner !in countries then countries
    else countries[owner := countries[owner].(count := countries[owner].count - n,
                                              lost := countries[owner].lost + if booked then n else 0)]
  }

  /** Book n lost cells against the country that held them. */
  function Charge(s: State, owner: nat, n: nat, fromFill: bool, mover: Trigger): State {
    var booked := fromFill && mover.Some?;
    s.(countries := Debited(s.countries, owner, n, booked),
       cueCountries := if booked && owner in s.countries && !s.countries[owner].isBot then s.cueCountries + {owner} else s.cueCountries)
  }

  function Noted(s: State, owner: nat): State {
    s.(dirtyCountries := s.dirtyCountries + {owner}, changed := Add(s.changed, owner))
  }

  predicate Held(s: State, country: nat) {
    exists id :: id in s.players && s.players[id].country == country
  }

  /** A country with no land and no live holder is gone. */
  predicate Gone(s: State, country: nat) {
    country in s.countries && s.countries[country].count == 0 && !Held(s, country)
  }

  function Forgotten(s: State, country: nat): State {
    s.(countries := s.countries - {country},
       bounds := s.bounds - {country},
       queue := s.queue - {country},
       ownerCodes := s.ownerCodes - {country},
       changed := Without(s.changed, country),
       cursor := if s.cursor <= |s.changed| then |Without(s.changed[..s.cursor], country)| else s.cursor,
       dirtyCountries := s.dirtyCountries - {country},
       removedCountries := s.removedCountries + {country})
  }

  function Deleted(s: State, country: nat): State {
    if Gone(s, country) then Forgotten(s, country) else s
  }

  ghost function Reclaim(t: Atlas, s: State, owner: nat, cell: nat, fromFill: bool): State
    requires |s.owners| == t.g.Size() && cell < |s.owners|
  {
    if owner in s.queue && s.queue[owner].Whole? then s
    else if fromFill || owner !in s.bounds || !StraightExit(t.g, s.owners, owner, cell, s.bounds[owner]) then
      s.(queue := Queued(s.queue, owner, cell))
    else s
  }

  ghost function Loss(t: Atlas, s: State, owner: nat, cell: nat, fromFill: bool, mover: Trigger): State
    requires |s.owners| == t.g.Size() && cell < |s.owners|
  {
    var charged := Charge(s, owner, 1, fromFill, mover);
    var kept := Deleted(Noted(charged, owner), owner);
    if owner in charged.countries && charged.countries[owner].count != 0 then Reclaim(t, kept, owner, cell, fromFill) else kept
  }

  /** Hand one cell to a country, then settle both sides of the trade. */
  ghost function Claim(t: Atlas, s: State, cell: nat, country: nat, fromFill: bool, mover: Trigger): State
    requires t.Valid() && |s.owners| == t.g.Size() && cell < |s.owners|
  {
    var owner := s.owners[cell];
    if !t.land[cell] || owner == country then s
    else
      var moved := s.(owners := s.owners[cell := country],
                      bounds := Extended(t.g, s.bounds, country, cell),
                      changed := Add(s.changed, country));
      var searched := Candidates(t, moved, cell, country, mover);
      var booked := Gain(searched.(dirtyChunks := searched.dirtyChunks + {t.ChunkOf(cell)},
                                   dirtyCountries := searched.dirtyCountries + {country}), country, 1, fromFill, mover);
      if owner != 0 then Loss(t, booked, owner, cell, fromFill, mover) else booked
  }
}
