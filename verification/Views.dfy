/** Materialized views of subscriptions, and their batched delivery.

    Deltas are buffered and applied once per tick; deltas that arrive while the
    connection is down wait in a queue.  Batched delivery refines delivery one at a
    time: with the pending deltas applied, every view is what it would have been. */
module Views {
  import opened Basics
  import opened OrderedMaps

  datatype Op<V> = SetRecord(id: Text, value: V) | RemoveRecord(id: Text)

  datatype Delta<V> = Delta(subId: nat, ops: seq<Op<V>>)

  type Records<V> = seq<(Text, V)>

  /** A subscription: its records, the snapshot last delivered, and how often it was called. */
  datatype Sub<V> = Sub(records: Records<V>, delivered: Option<Records<V>>, calls: nat)

  // ----- one delta -----

  function ApplyOp<V>(records: Records<V>, op: Op<V>): Records<V> {
    match op
    case SetRecord(id, value) => Put(records, id, value)
    case RemoveRecord(id) => Drop(records, id)
  }

  function ApplyOps<V>(records: Records<V>, ops: seq<Op<V>>): Records<V>
    decreases |ops|
  {
    if ops == [] then records else ApplyOps(ApplyOp(records, ops[0]), ops[1..])
  }

  /** Setting always counts as a change, removing only what is there. */
  function Changes<V>(records: Records<V>, ops: seq<Op<V>>): bool
    decreases |ops|
  {
    ops != [] && (ops[0].SetRecord? || Find(records, ops[0].id).Some? || Changes(ApplyOp(records, ops[0]), ops[1..]))
  }

  lemma {:induction false} DropAbsent<V>(records: Records<V>, id: Text)
    requires Find(records, id).None?
    ensures Drop(records, id) == records
  {
    if records != [] {
      DropAbsent(records[1..], id);
    }
  }

  /** Ops that report no change leave the records as they were. */
  lemma {:induction false} NoChange<V>(records: Records<V>, ops: seq<Op<V>>)
    requires !Changes(records, ops)
    ensures ApplyOps(records, ops) == records
    decreases |ops|
  {
    if ops != [] {
      DropAbsent(records, ops[0].id);
      NoChange(records, ops[1..]);
    }
  }

  // ----- what the ops of a delta leave -----

  /** The last op that names the key. */
  predicate LastOn<V>(ops: seq<Op<V>>, k: Text, i: nat) {
    i < |ops| && ops[i].id == k && forall j :: i < j < |ops| ==> ops[j].id != k
  }

  predicate Names<V>(ops: seq<Op<V>>, k: Text) {
    exists i :: 0 <= i < |ops| && ops[i].id == k
  }

  predicate Removes<V>(ops: seq<Op<V>>, k: Text) {
    exists i :: 0 <= i < |ops| && ops[i].RemoveRecord? && ops[i].id == k
  }

  /** What an op leaves under its key. */
  function Left<V>(op: Op<V>): Option<V> {
    if op.SetRecord? then Some(op.value) else None
  }

  /** Under each key stands what the last op on it left, or what stood there before. */
  ghost predicate Ends<V>(before: Option<V>, ops: seq<Op<V>>, k: Text, now: Option<V>) {
    (!Names(ops, k) ==> now == before) && forall i: nat :: LastOn(ops, k, i) ==> now == Left(ops[i])
  }

  lemma {:induction false} OpsEnd<V>(records: Records<V>, ops: seq<Op<V>>, k: Text)
    requires DistinctKeys(records)
    ensures DistinctKeys(ApplyOps(records, ops)) && Ends(Find(records, k), ops, k, Find(ApplyOps(records, ops), k))
    decreases |ops|
  {
    if ops != [] {
      var next := ApplyOp(records, ops[0]);
      match ops[0] {
        case SetRecord(id, value) =>
          PutStaysDistinct(records, id, value);
          PutFinds(records, id, value, k);
        case RemoveRecord(id) =>
          DropStaysDistinct(records, id);
          DropFinds(records, id, k);
      }
      OpsEnd(next, ops[1..], k);
      EndsFirst(Find(records, k), Find(next, k), ops, k, Find(ApplyOps(records, ops), k));
    }
  }

  lemma EndsFirst<V>(before: Option<V>, next: Option<V>, ops: seq<Op<V>>, k: Text, now: Option<V>)
    requires ops != [] && next == (if ops[0].id == k then Left(ops[0]) else before) && Ends(next, ops[1..], k, now)
    ensures Ends(before, ops, k, now)
  {
    var rest := ops[1..];
    assert forall j :: 0 <= j < |rest| ==> rest[j] == ops[j + 1];
    if Names(rest, k) {
      var j :| 0 <= j < |rest| && rest[j].id == k;
      assert ops[j + 1].id == k;
    }
    forall i: nat | LastOn(ops, k, i)
      ensures now == Left(ops[i])
    {
      if i > 0 {
        assert LastOn(rest, k, i - 1);
      } else {
        assert forall j :: 0 <= j < |rest| ==> rest[j].id != k;
      }
    }
  }

  // ----- where the records stand -----

  function KeysOf<V>(records: Records<V>): (r: seq<Text>)
    ensures |r| == |records|
  {
    seq(|records|, i requires 0 <= i < |records| => records[i].0)
  }

  /** The keys that no op removes, in their order. */
  ghost function Spared<V>(keys: seq<Text>, ops: seq<Op<V>>): seq<Text> {
    if keys == [] then [] else (if Removes(ops, keys[0]) then [] else [keys[0]]) + Spared(keys[1..], ops)
  }

  /** A key set again keeps its place: the records no op removes still lead, in their order. */
  lemma {:induction false} SparedLead<V>(records: Records<V>, ops: seq<Op<V>>)
    requires DistinctKeys(records)
    ensures Spared(KeysOf(records), ops) <= KeysOf(ApplyOps(records, ops))
    decreases |ops|
  {
    if ops == [] {
      AllSpared<V>(KeysOf(records));
    } else {
      var next := ApplyOp(records, ops[0]);
      SparedFirst(records, ops);
      match ops[0] {
        case SetRecord(id, value) => PutStaysDistinct(records, id, value);
        case RemoveRecord(id) => DropStaysDistinct(records, id);
      }
      SparedLead(next, ops[1..]);
    }
  }

  lemma {:induction false} AllSpared<V>(keys: seq<Text>)
    ensures Spared<V>(keys, []) == keys
  {
    if keys != [] {
      AllSpared<V>(keys[1..]);
    }
  }

  lemma RemovesRest<V>(ops: seq<Op<V>>, k: Text)
    requires ops != []
    ensures Removes(ops, k) <==> (ops[0].RemoveRecord? && ops[0].id == k) || Removes(ops[1..], k)
  {
    var rest := ops[1..];
    if Removes(rest, k) {
      var j :| 0 <= j < |rest| && rest[j].RemoveRecord? && rest[j].id == k;
      assert ops[j + 1] == rest[j];
    }
    if Removes(ops, k) {
      var j :| 0 <= j < |ops| && ops[j].RemoveRecord? && ops[j].id == k;
      assert j > 0 ==> ops[j] == rest[j - 1];
    }
  }

  lemma SparedFirst<V>(records: Records<V>, ops: seq<Op<V>>)
    requires DistinctKeys(records) && ops != []
    ensures Spared(KeysOf(records), ops) <= Spared(KeysOf(ApplyOp(records, ops[0])), ops[1..])
  {
    match ops[0] {
      case SetRecord(id, value) =>
        PutKeys(records, id, value);
        var more := Put(records, id, value);
        assert KeysOf(more)[..|records|] == KeysOf(records);
        assert KeysOf(more) == KeysOf(records) + KeysOf(more)[|records|..];
        SparedAppends(KeysOf(records), KeysOf(more)[|records|..], ops[1..]);
        SameSpared(KeysOf(records), ops);
      case RemoveRecord(id) =>
        DroppedSpared(records, ops);
    }
  }

  lemma {:induction false} SparedAppends<V>(a: seq<Text>, b: seq<Text>, ops: seq<Op<V>>)
    ensures Spared(a + b, ops) == Spared(a, ops) + Spared(b, ops)
  {
    if a == [] {
      assert a + b == b;
    } else {
      assert (a + b)[1..] == a[1..] + b;
      SparedAppends(a[1..], b, ops);
    }
  }

  lemma {:induction false} SameSpared<V>(keys: seq<Text>, ops: seq<Op<V>>)
    requires ops != [] && (ops[0].RemoveRecord? ==> ops[0].id !in keys)
    ensures Spared(keys, ops) == Spared(keys, ops[1..])
  {
    if keys != [] {
      RemovesRest(ops, keys[0]);
      SameSpared(keys[1..], ops);
    }
  }

  lemma {:induction false} DroppedSpared<V>(records: Records<V>, ops: seq<Op<V>>)
    requires DistinctKeys(records) && ops != [] && ops[0].RemoveRecord?
    ensures Spared(KeysOf(records), ops) == Spared(KeysOf(Drop(records, ops[0].id)), ops[1..])
  {
    if records != [] {
      var rest, k := records[1..], records[0].0;
      assert KeysOf(records)[1..] == KeysOf(rest);
      RemovesRest(ops, k);
      if k == ops[0].id {
        assert forall i :: 0 <= i < |rest| ==> rest[i] == records[i + 1];
        SameSpared(KeysOf(rest), ops);
      } else {
        DroppedSpared(rest, ops);
        assert KeysOf([records[0]] + Drop(rest, ops[0].id)) == [k] + KeysOf(Drop(rest, ops[0].id));
      }
    }
  }

  /** What applying a delta makes of a view, key by key, and in which order. */
  ghost predicate Outcome<V>(records: Records<V>, ops: seq<Op<V>>, after: Records<V>) {
    DistinctKeys(after) && (forall k: Text :: Ends(Find(records, k), ops, k, Find(after, k))) &&
    Spared(KeysOf(records), ops) <= KeysOf(after)
  }

  lemma OpsOutcome<V>(records: Records<V>, ops: seq<Op<V>>)
    requires DistinctKeys(records)
    ensures Outcome(records, ops, ApplyOps(records, ops))
  {
    hide ApplyOps, Ends, Spared;
    forall k: Text
      ensures DistinctKeys(ApplyOps(records, ops)) && Ends(Find(records, k), ops, k, Find(ApplyOps(records, ops), k))
    {
      OpsEnd(records, ops, k);
    }
    SparedLead(records, ops);
    OpsEnd(records, ops, []);
  }

  /** The op sets a record, or names one that was there. */
  predicate Bites<V>(records: Records<V>, op: Op<V>) {
    op.SetRecord? || Find(records, op.id).Some?
  }

  /** A delta counts as a change exactly when one of its ops sets something or names a
      record of the view. */
  lemma {:induction false} ChangesIff<V>(records: Records<V>, ops: seq<Op<V>>)
    ensures Changes(records, ops) <==> exists i :: 0 <= i < |ops| && Bites(records, ops[i])
    decreases |ops|
  {
    if ops != [] && !Bites(records, ops[0]) {
      var rest := ops[1..];
      DropAbsent(records, ops[0].id);
      ChangesIff(records, rest);
      assert forall j :: 0 <= j < |rest| ==> rest[j] == ops[j + 1];
      if i :| 0 <= i < |ops| && Bites(records, ops[i]) {
        assert Bites(records, rest[i - 1]);
      }
    }
  }

  // ----- many deltas -----

  /** The deltas of one subscription, in arrival order. */
  function For<V>(deltas: seq<Delta<V>>, subId: nat): seq<Delta<V>>
    decreases |deltas|
  {
    if deltas == [] then []
    else
      var n := |deltas| - 1;
      For(deltas[..n], subId) + if deltas[n].subId == subId then [deltas[n]] else []
  }

  function ApplyAll<V>(records: Records<V>, deltas: seq<Delta<V>>): Records<V>
    decreases |deltas|
  {
    if deltas == [] then records
    else
      var n := |deltas| - 1;
      ApplyOps(ApplyAll(records, deltas[..n]), deltas[n].ops)
  }

  lemma {:induction false} ForSplits<V>(a: seq<Delta<V>>, b: seq<Delta<V>>, subId: nat)
    ensures For(a + b, subId) == For(a, subId) + For(b, subId)
    decreases |b|
  {
    if b == [] {
      assert a + b == a;
    } else {
      var n := |b| - 1;
      assert (a + b)[..|a| + n] == a + b[..n];
      ForSplits(a, b[..n], subId);
    }
  }

  lemma {:induction false} ApplyAllSplits<V>(records: Records<V>, a: seq<Delta<V>>, b: seq<Delta<V>>)
    ensures ApplyAll(records, a + b) == ApplyAll(ApplyAll(records, a), b)
    decreases |b|
  {
    if b == [] {
      assert a + b == a;
    } else {
      var n := |b| - 1;
      assert (a + b)[..|a| + n] == a + b[..n];
      ApplyAllSplits(records, a, b[..n]);
    }
  }

  // ----- the tracker -----

  datatype Tracker<V> = Tracker(subs: seq<(nat, Sub<V>)>, pending: seq<Delta<V>>, queue: seq<Delta<V>>, connected: bool)

  /** A subscription after its share of a flush: called once, and only if something changed. */
  function Flushed1<V>(sub: Sub<V>, deltas: seq<Delta<V>>): Sub<V> {
    var after := ApplyAll(sub.records, deltas);
    if AnyChange(sub.records, deltas) then Sub(after, Some(after), sub.calls + 1) else sub.(records := after)
  }

  function AnyChange<V>(records: Records<V>, deltas: seq<Delta<V>>): bool
    decreases |deltas|
  {
    deltas != [] && (AnyChange(records, deltas[..|deltas| - 1]) || Changes(ApplyAll(records, deltas[..|deltas| - 1]), deltas[|deltas| - 1].ops))
  }

  function FlushedSubs<V>(subs: seq<(nat, Sub<V>)>, pending: seq<Delta<V>>): (r: seq<(nat, Sub<V>)>)
    ensures |r| == |subs|
  {
    seq(|subs|, i requires 0 <= i < |subs| => (subs[i].0, Flushed1(subs[i].1, For(pending, subs[i].0))))
  }

  function Registered<V>(t: Tracker<V>, subId: nat): Tracker<V> {
    t.(subs := Put(t.subs, subId, Sub([], None, 0)))
  }

  function Unregistered<V>(t: Tracker<V>, subId: nat): Tracker<V> {
    t.(subs := Drop(t.subs, subId))
  }

  function Dispatched<V>(t: Tracker<V>, delta: Delta<V>): Tracker<V> {
    if !t.connected then t.(queue := t.queue + [delta])
    else if Find(t.subs, delta.subId).Some? then t.(pending := t.pending + [delta])
    else t
  }

  function DispatchedAll<V>(t: Tracker<V>, deltas: seq<Delta<V>>): Tracker<V>
    decreases |deltas|
  {
    if deltas == [] then t
    else
      var n := |deltas| - 1;
      Dispatched(DispatchedAll(t, deltas[..n]), deltas[n])
  }

  function Flushed<V>(t: Tracker<V>): Tracker<V> {
    t.(subs := FlushedSubs(t.subs, t.pending), pending := [])
  }

  function NewId(oldToNew: map<nat, nat>, id: nat): nat {
    if id in oldToNew then oldToNew[id] else id
  }

  /** The subscriptions under their new ids, views cleared; a later one takes a taken id. */
  function Remapped<V>(subs: seq<(nat, Sub<V>)>, oldToNew: map<nat, nat>): seq<(nat, Sub<V>)>
    decreases |subs|
  {
    if subs == [] then []
    else
      var n := |subs| - 1;
      Put(Remapped(subs[..n], oldToNew), NewId(oldToNew, subs[n].0), subs[n].1.(records := []))
  }

  /** Back online: remap, clear, take the fresh snapshots, then what was queued. */
  function Reconnected<V>(t: Tracker<V>, oldToNew: map<nat, nat>, snapshots: seq<Delta<V>>): Tracker<V> {
    DispatchedAll(Tracker(Remapped(t.subs, oldToNew), [], [], true), snapshots + t.queue)
  }

  // ----- one at a time, the reference -----

  /** Deliver a delta at once. */
  function Direct<V>(subs: seq<(nat, Records<V>)>, delta: Delta<V>): seq<(nat, Records<V>)> {
    match Find(subs, delta.subId)
    case None => subs
    case Some(records) => Put(subs, delta.subId, ApplyOps(records, delta.ops))
  }

  datatype Event<V> =
    | Register(subId: nat)
    | Unregister(subId: nat)
    | Dispatch(delta: Delta<V>)
    | Flush

  /** Deltas still pending under a new id would leave a fresh view empty; the server hands
      out ids in increasing order, so it has sent none under a new one. */
  ghost predicate Possible<V>(t: Tracker<V>, e: Event<V>) {
    e.Register? ==> ApplyAll([], For(t.pending, e.subId)) == []
  }

  function Batched<V>(t: Tracker<V>, e: Event<V>): Tracker<V> {
    match e
    case Register(subId) => Registered(t, subId)
    case Unregister(subId) => Unregistered(t, subId)
    case Dispatch(delta) => Dispatched(t, delta)
    case Flush => Flushed(t)
  }

  function OneByOne<V>(subs: seq<(nat, Records<V>)>, e: Event<V>): seq<(nat, Records<V>)> {
    match e
    case Register(subId) => Put(subs, subId, [])
    case Unregister(subId) => Drop(subs, subId)
    case Dispatch(delta) => Direct(subs, delta)
    case Flush => subs
  }

  /** Every view, with its pending deltas applied, is the reference view. */
  ghost predicate Agrees<V>(t: Tracker<V>, direct: seq<(nat, Records<V>)>) {
    DistinctKeys(t.subs) && DistinctKeys(direct) &&
    forall id: nat :: ViewAgrees(t, direct, id)
  }

  ghost predicate ViewAgrees<V>(t: Tracker<V>, direct: seq<(nat, Records<V>)>, id: nat) {
    match Find(t.subs, id)
    case None => Find(direct, id).None?
    case Some(sub) => Find(direct, id) == Some(ApplyAll(sub.records, For(t.pending, id)))
  }

  lemma FlushedFinds<V>(subs: seq<(nat, Sub<V>)>, pending: seq<Delta<V>>, id: nat)
    ensures Find(FlushedSubs(subs, pending), id) ==
      match Find(subs, id) case None => None case Some(sub) => Some(Flushed1(sub, For(pending, id)))
  {
    FlushedFindsAt(subs, pending, id, 0);
  }

  lemma {:induction false} FlushedFindsAt<V>(subs: seq<(nat, Sub<V>)>, pending: seq<Delta<V>>, id: nat, i: nat)
    requires i <= |subs|
    ensures Find(FlushedSubs(subs, pending)[i..], id) ==
      match Find(subs[i..], id) case None => None case Some(sub) => Some(Flushed1(sub, For(pending, id)))
    decreases |subs| - i
  {
    hide For, Flushed1;
    if i < |subs| {
      FlushedFindsAt(subs, pending, id, i + 1);
      assert subs[i..][1..] == subs[i + 1..];
      assert FlushedSubs(subs, pending)[i..][1..] == FlushedSubs(subs, pending)[i + 1..];
    }
  }

  /** Every event keeps the agreement: batching refines delivery one at a time. */
  lemma EventKeepsAgreement<V>(t: Tracker<V>, direct: seq<(nat, Records<V>)>, e: Event<V>)
    requires Agrees(t, direct) && t.connected && Possible(t, e)
    ensures Agrees(Batched(t, e), OneByOne(direct, e)) && Batched(t, e).connected
  {
    hide For, ApplyAll, Flushed1;
    var u, d := Batched(t, e), OneByOne(direct, e);
    EventKeepsDistinct(t, direct, e);
    forall id: nat
      ensures ViewAgrees(u, d, id)
    {
      assert ViewAgrees(t, direct, id);
      EventKeepsView(t, direct, e, id);
    }
  }

  /** Registering is the one event that can break the agreement, and Possible says exactly when. */
  lemma EventKeepsAgreementExactly<V>(t: Tracker<V>, direct: seq<(nat, Records<V>)>, e: Event<V>)
    requires Agrees(t, direct) && t.connected
    ensures Agrees(Batched(t, e), OneByOne(direct, e)) <==> Possible(t, e)
  {
    hide For, ApplyAll, Flushed1;
    if Possible(t, e) {
      EventKeepsAgreement(t, direct, e);
    } else {
      PutFinds(t.subs, e.subId, Sub([], None, 0), e.subId);
      PutFinds(direct, e.subId, [], e.subId);
      assert !ViewAgrees(Batched(t, e), OneByOne(direct, e), e.subId);
    }
  }

  /** An id under which nothing is pending can be registered. */
  lemma FreshIdIsPossible<V>(t: Tracker<V>, id: nat)
    requires For(t.pending, id) == []
    ensures Possible(t, Register(id))
  {
  }

  lemma EventKeepsDistinct<V>(t: Tracker<V>, direct: seq<(nat, Records<V>)>, e: Event<V>)
    requires DistinctKeys(t.subs) && DistinctKeys(direct)
    ensures DistinctKeys(Batched(t, e).subs) && DistinctKeys(OneByOne(direct, e))
  {
    hide For, ApplyAll, Flushed1;
    match e
    case Register(subId) =>
      PutStaysDistinct(t.subs, subId, Sub([], None, 0));
      PutStaysDistinct(direct, subId, []);
    case Unregister(subId) =>
      DropStaysDistinct(t.subs, subId);
      DropStaysDistinct(direct, subId);
    case Dispatch(delta) =>
      if Find(direct, delta.subId).Some? {
        PutStaysDistinct(direct, delta.subId, ApplyOps(Find(direct, delta.subId).value, delta.ops));
      }
    case Flush =>
  }

  lemma EventKeepsView<V>(t: Tracker<V>, direct: seq<(nat, Records<V>)>, e: Event<V>, id: nat)
    requires DistinctKeys(t.subs) && DistinctKeys(direct) && t.connected && Possible(t, e) && ViewAgrees(t, direct, id)
    requires e.Dispatch? ==> ViewAgrees(t, direct, e.delta.subId)
    ensures ViewAgrees(Batched(t, e), OneByOne(direct, e), id)
  {
    hide Flushed1, ApplyOps;
    match e
    case Register(subId) =>
      PutFinds(t.subs, subId, Sub([], None, 0), id);
      PutFinds(direct, subId, [], id);
    case Unregister(subId) =>
      DropFinds(t.subs, subId, id);
      DropFinds(direct, subId, id);
    case Dispatch(delta) =>
      DispatchKeepsView(t, direct, delta, id);
    case Flush =>
      FlushedFinds(t.subs, t.pending, id);
      FlushKeepsView(t, id);
  }

  lemma DispatchKeepsView<V>(t: Tracker<V>, direct: seq<(nat, Records<V>)>, delta: Delta<V>, id: nat)
    requires t.connected && ViewAgrees(t, direct, id) && ViewAgrees(t, direct, delta.subId)
    ensures ViewAgrees(Dispatched(t, delta), Direct(direct, delta), id)
  {
    hide ApplyOps;
    var more := t.pending + [delta];
    assert more[..|t.pending|] == t.pending;
    if Find(direct, delta.subId).Some? {
      PutFinds(direct, delta.subId, ApplyOps(Find(direct, delta.subId).value, delta.ops), id);
      var before := For(t.pending, id);
      var mine := before + [delta];
      assert mine[..|before|] == before;
      assert For(more, id) == if delta.subId == id then mine else before;
    }
  }

  lemma FlushKeepsView<V>(t: Tracker<V>, id: nat)
    ensures For(Flushed(t).pending, id) == []
    ensures Find(t.subs, id).Some? ==> Flushed1(Find(t.subs, id).value, For(t.pending, id)).records == ApplyAll(Find(t.subs, id).value.records, For(t.pending, id))
  {
  }

  // ----- what a flush leaves -----

  /** The last word on a record: op i of delta j, and no later op for the subscription
      names the key. */
  predicate LastHit<V>(deltas: seq<Delta<V>>, subId: nat, k: Text, j: nat, i: nat) {
    j < |deltas| && deltas[j].subId == subId && LastOn(deltas[j].ops, k, i) &&
    forall m :: j < m < |deltas| && deltas[m].subId == subId ==> !Names(deltas[m].ops, k)
  }

  predicate Hits<V>(deltas: seq<Delta<V>>, subId: nat, k: Text) {
    exists j :: 0 <= j < |deltas| && deltas[j].subId == subId && Names(deltas[j].ops, k)
  }

  /** Under each key of a flushed view stands what the last pending op on it left. */
  ghost predicate Settles<V>(before: Option<V>, deltas: seq<Delta<V>>, subId: nat, k: Text, now: Option<V>) {
    (!Hits(deltas, subId, k) ==> now == before) &&
    forall j: nat, i: nat :: LastHit(deltas, subId, k, j, i) ==> now == Left(deltas[j].ops[i])
  }

  lemma {:induction false} PendingSettles<V>(records: Records<V>, deltas: seq<Delta<V>>, subId: nat, k: Text)
    requires DistinctKeys(records)
    ensures
      var after := ApplyAll(records, For(deltas, subId));
      DistinctKeys(after) && Settles(Find(records, k), deltas, subId, k, Find(after, k))
    decreases |deltas|
  {
    hide ApplyOps, Ends, DistinctKeys, Hits, LastHit, Find, Names;
    if deltas == [] {
      NothingHits(records, subId, k);
    } else {
      var n := |deltas| - 1;
      var mine, last := For(deltas[..n], subId), deltas[n];
      PendingSettles(records, deltas[..n], subId, k);
      var before := ApplyAll(records, mine);
      if last.subId == subId {
        OpsEnd(before, last.ops, k);
        assert (mine + [last])[..|mine|] == mine;
        assert ApplyAll(records, mine + [last]) == ApplyOps(before, last.ops);
        SettlesNext(Find(records, k), Find(before, k), deltas, subId, k, Find(ApplyOps(before, last.ops), k));
      } else {
        assert mine + [] == mine;
        SettlesSkip(Find(records, k), deltas, subId, k, Find(before, k));
      }
    }
  }

  lemma NothingHits<V>(records: Records<V>, subId: nat, k: Text)
    ensures ApplyAll(records, For<V>([], subId)) == records
    ensures Settles(Find(records, k), [], subId, k, Find(records, k))
  {
  }

  lemma SettlesSkip<V>(before: Option<V>, deltas: seq<Delta<V>>, subId: nat, k: Text, now: Option<V>)
    requires deltas != [] && deltas[|deltas| - 1].subId != subId && Settles(before, deltas[..|deltas| - 1], subId, k, now)
    ensures Settles(before, deltas, subId, k, now)
  {
    hide Names;
    var init := deltas[..|deltas| - 1];
    if j :| 0 <= j < |init| && init[j].subId == subId && Names(init[j].ops, k) {
      assert deltas[j].subId == subId && Names(deltas[j].ops, k);
    }
    forall j: nat, i: nat | LastHit(deltas, subId, k, j, i)
      ensures now == Left(deltas[j].ops[i])
    {
      assert LastHit(init, subId, k, j, i);
    }
  }

  lemma NamedHasLast<V>(ops: seq<Op<V>>, k: Text) returns (i: nat)
    requires Names(ops, k)
    ensures LastOn(ops, k, i)
  {
    var m :| 0 <= m < |ops| && ops[m].id == k;
    i := m;
    var j := m + 1;
    while j < |ops|
      invariant m <= i < j <= |ops| && ops[i].id == k && forall q :: i < q < j ==> ops[q].id != k
    {
      if ops[j].id == k {
        i := j;
      }
      j := j + 1;
    }
  }

  /** The last delta of the subscription names the key, or leaves it to those before. */
  lemma SettlesNext<V>(before: Option<V>, mid: Option<V>, deltas: seq<Delta<V>>, subId: nat, k: Text, now: Option<V>)
    requires deltas != [] && deltas[|deltas| - 1].subId == subId && Settles(before, deltas[..|deltas| - 1], subId, k, mid)
    requires Ends(mid, deltas[|deltas| - 1].ops, k, now)
    ensures Settles(before, deltas, subId, k, now)
  {
    if Names(deltas[|deltas| - 1].ops, k) {
      NamedSettles(before, mid, deltas, subId, k, now);
    } else {
      UnnamedSettles(before, deltas, subId, k, now);
    }
  }

  lemma NamedSettles<V>(before: Option<V>, mid: Option<V>, deltas: seq<Delta<V>>, subId: nat, k: Text, now: Option<V>)
    requires deltas != [] && deltas[|deltas| - 1].subId == subId && Names(deltas[|deltas| - 1].ops, k)
    requires Ends(mid, deltas[|deltas| - 1].ops, k, now)
    ensures Settles(before, deltas, subId, k, now)
  {
    hide Names;
    assert Hits(deltas, subId, k);
    forall j: nat, i: nat | LastHit(deltas, subId, k, j, i)
      ensures now == Left(deltas[j].ops[i])
    {
      assert j == |deltas| - 1;
    }
  }

  lemma UnnamedSettles<V>(before: Option<V>, deltas: seq<Delta<V>>, subId: nat, k: Text, now: Option<V>)
    requires deltas != [] && !Names(deltas[|deltas| - 1].ops, k) && Settles(before, deltas[..|deltas| - 1], subId, k, now)
    ensures Settles(before, deltas, subId, k, now)
  {
    hide Names;
    var init := deltas[..|deltas| - 1];
    if j :| 0 <= j < |init| && init[j].subId == subId && Names(init[j].ops, k) {
      assert deltas[j].subId == subId && Names(deltas[j].ops, k);
    }
    forall j: nat, i: nat | LastHit(deltas, subId, k, j, i)
      ensures now == Left(deltas[j].ops[i])
    {
      LastIsNamed(deltas[j].ops, k, i);
      assert LastHit(init, subId, k, j, i);
    }
  }

  lemma LastIsNamed<V>(ops: seq<Op<V>>, k: Text, i: nat)
    requires LastOn(ops, k, i)
    ensures Names(ops, k)
  {
  }

  /** The pending delta bites on the view of its subscription. */
  predicate BitesAt<V>(records: Records<V>, deltas: seq<Delta<V>>, subId: nat, j: nat) {
    j < |deltas| && deltas[j].subId == subId && exists i :: 0 <= i < |deltas[j].ops| && Bites(records, deltas[j].ops[i])
  }

  lemma {:induction false} AnyChangeKeeps<V>(records: Records<V>, deltas: seq<Delta<V>>)
    requires !AnyChange(records, deltas)
    ensures ApplyAll(records, deltas) == records
    decreases |deltas|
  {
    if deltas != [] {
      AnyChangeKeeps(records, deltas[..|deltas| - 1]);
      NoChange(records, deltas[|deltas| - 1].ops);
    }
  }

  /** A flush calls a subscription exactly when some pending op of its own sets a record or
      names one of its view. */
  lemma {:induction false} CalledIff<V>(records: Records<V>, deltas: seq<Delta<V>>, subId: nat)
    ensures AnyChange(records, For(deltas, subId)) <==> exists j: nat :: BitesAt(records, deltas, subId, j)
    decreases |deltas|
  {
    hide Bites, Changes;
    if deltas == [] {
      assert forall j: nat :: !BitesAt(records, deltas, subId, j);
    } else {
      var n := |deltas| - 1;
      var init, last, mine := deltas[..n], deltas[n], For(deltas[..n], subId);
      CalledIff(records, init, subId);
      ChangesIff(records, last.ops);
      assert forall j: nat :: j < n ==> (BitesAt(records, deltas, subId, j) <==> BitesAt(records, init, subId, j));
      assert (exists j: nat :: BitesAt(records, deltas, subId, j)) <==>
        (exists j: nat :: BitesAt(records, init, subId, j)) || BitesAt(records, deltas, subId, n);
      if last.subId == subId {
        assert (mine + [last])[..|mine|] == mine;
        if !AnyChange(records, mine) {
          AnyChangeKeeps(records, mine);
        }
      } else {
        assert mine + [] == mine;
      }
    }
  }

  /** One subscription after a flush: its view is settled; it is called once with the view it
      now has if any pending op of its own bites, and is left alone otherwise. */
  ghost predicate ViewFlushed<V>(subId: nat, before: Sub<V>, pending: seq<Delta<V>>, after: Sub<V>) {
    (DistinctKeys(before.records) ==>
      DistinctKeys(after.records) &&
      forall k: Text :: Settles(Find(before.records, k), pending, subId, k, Find(after.records, k))) &&
    if exists j: nat :: BitesAt(before.records, pending, subId, j)
    then after.delivered == Some(after.records) && after.calls == before.calls + 1
    else after == before
  }

  lemma FlushedIsFlushed<V>(subId: nat, before: Sub<V>, pending: seq<Delta<V>>)
    ensures ViewFlushed(subId, before, pending, Flushed1(before, For(pending, subId)))
  {
    hide For, Settles, BitesAt, DistinctKeys;
    CalledIff(before.records, pending, subId);
    if !AnyChange(before.records, For(pending, subId)) {
      AnyChangeKeeps(before.records, For(pending, subId));
    }
    if DistinctKeys(before.records) {
      forall k: Text
        ensures Settles(Find(before.records, k), pending, subId, k, Find(ApplyAll(before.records, For(pending, subId)), k))
      {
        PendingSettles(before.records, pending, subId, k);
      }
      PendingSettles(before.records, pending, subId, []);
    }
  }

  // ----- whole runs -----

  function Start<V>(): Tracker<V> {
    Tracker([], [], [], true)
  }

  ghost function BatchedRun<V>(events: seq<Event<V>>): Option<Tracker<V>>
    decreases |events|
  {
    if events == [] then Some(Start())
    else
      match BatchedRun(events[..|events| - 1])
      case None => None
      case Some(t) => if Possible(t, events[|events| - 1]) then Some(Batched(t, events[|events| - 1])) else None
  }

  function DirectRun<V>(events: seq<Event<V>>): seq<(nat, Records<V>)>
    decreases |events|
  {
    if events == [] then [] else OneByOne(DirectRun(events[..|events| - 1]), events[|events| - 1])
  }

  lemma {:induction false} RunsAgree<V>(events: seq<Event<V>>)
    requires BatchedRun(events).Some?
    ensures Agrees(BatchedRun(events).value, DirectRun(events)) && BatchedRun(events).value.connected
    decreases |events|
  {
    hide Agrees, Batched, OneByOne, Possible;
    if events == [] {
      StartsAgree<V>();
    } else {
      var n := |events| - 1;
      RunsAgree(events[..n]);
      EventKeepsAgreement(BatchedRun(events[..n]).value, DirectRun(events[..n]), events[n]);
    }
  }

  lemma StartsAgree<V>()
    ensures Agrees(Start<V>(), [])
  {
  }

  /** After any run that ends in a flush, every view holds exactly the records that
      delivery one at a time would have left. */
  lemma FlushCatchesUp<V>(events: seq<Event<V>>, id: nat)
    requires BatchedRun(events + [Flush]).Some?
    ensures
      var t := BatchedRun(events + [Flush]).value;
      Find(DirectRun(events + [Flush]), id) == match Find(t.subs, id) case None => None case Some(sub) => Some(sub.records)
  {
    hide For, ApplyAll;
    var all := events + [Flush];
    assert all[..|events|] == events;
    RunsAgree(all);
    var t := BatchedRun(all).value;
    assert t == Flushed(BatchedRun(events).value) && t.pending == [];
    assert ViewAgrees(t, DirectRun(all), id);
    if Find(t.subs, id).Some? {
      NothingPending(Find(t.subs, id).value.records, id);
    }
  }

  lemma NothingPending<V>(records: Records<V>, id: nat)
    ensures ApplyAll(records, For<V>([], id)) == records
  {
  }

  /** A subscription has been handed the view it has, or has an empty view and no call yet. */
  ghost predicate UpToDate<V>(sub: Sub<V>) {
    if sub.delivered.Some? then sub.delivered.value == sub.records && sub.calls > 0 else sub.records == [] && sub.calls == 0
  }

  ghost predicate AllUpToDate<V>(subs: seq<(nat, Sub<V>)>) {
    forall i :: 0 <= i < |subs| ==> UpToDate(subs[i].1)
  }

  lemma {:induction false} PutUpToDate<V>(subs: seq<(nat, Sub<V>)>, id: nat, sub: Sub<V>)
    requires AllUpToDate(subs) && UpToDate(sub)
    ensures AllUpToDate(Put(subs, id, sub))
  {
    if subs != [] && subs[0].0 != id {
      PutUpToDate(subs[1..], id, sub);
    }
  }

  lemma {:induction false} DropUpToDate<V>(subs: seq<(nat, Sub<V>)>, id: nat)
    requires AllUpToDate(subs)
    ensures AllUpToDate(Drop(subs, id))
  {
    if subs != [] && subs[0].0 != id {
      DropUpToDate(subs[1..], id);
    }
  }

  lemma FlushUpToDate<V>(subs: seq<(nat, Sub<V>)>, pending: seq<Delta<V>>)
    requires AllUpToDate(subs)
    ensures AllUpToDate(FlushedSubs(subs, pending))
  {
    hide For;
    forall i | 0 <= i < |subs|
      ensures UpToDate(FlushedSubs(subs, pending)[i].1)
    {
      var mine := For(pending, subs[i].0);
      if !AnyChange(subs[i].1.records, mine) {
        AnyChangeKeeps(subs[i].1.records, mine);
      }
    }
  }

  /** In every run each subscription has been handed the view it has. */
  lemma {:induction false} HandedTheirViews<V>(events: seq<Event<V>>)
    requires BatchedRun(events).Some?
    ensures AllUpToDate(BatchedRun(events).value.subs)
    decreases |events|
  {
    hide AllUpToDate, Possible, FlushedSubs;
    if events == [] {
      assert AllUpToDate<V>([]) by { NobodyBehind<V>(); }
    } else {
      var n := |events| - 1;
      HandedTheirViews(events[..n]);
      var t := BatchedRun(events[..n]).value;
      match events[n]
      case Register(id) =>
        PutUpToDate(t.subs, id, Sub([], None, 0));
      case Unregister(id) => DropUpToDate(t.subs, id);
      case Dispatch(_) =>
      case Flush => FlushUpToDate(t.subs, t.pending);
    }
  }

  lemma NobodyBehind<V>()
    ensures AllUpToDate<V>([])
  {
  }

  /** If an id could come back with deltas still pending, its new view would get them. */
  lemma ReusedIdsWouldInherit(value: nat)
    ensures
      var stale := Delta(7, [SetRecord([], value)]);
      var t := Batched(Batched(Batched(Start<nat>(), Register(7)), Dispatch(stale)), Unregister(7));
      !Possible(t, Register(7)) && Find(Batched(Batched(t, Register(7)), Flush).subs, 7).Some? &&
      Find(Batched(Batched(t, Register(7)), Flush).subs, 7).value.records == [([], value)]
  {
    var stale := Delta(7, [SetRecord([], value)]);
    var t := Batched(Batched(Batched(Start<nat>(), Register(7)), Dispatch(stale)), Unregister(7));
    assert t.pending == [stale] && t.pending[..0] == [] && For(t.pending, 7) == [stale];
    var again := Batched(t, Register(7));
    assert again.subs == [(7, Sub([], None, 0))];
    FlushedFinds(again.subs, again.pending, 7);
    assert [stale][..0] == [];
    assert stale.ops[1..] == [];
    var empty: Records<nat> := [];
    assert ApplyOps(empty, stale.ops) == ApplyOps(ApplyOp(empty, stale.ops[0]), []);
    assert ApplyAll(empty, [stale]) == ApplyOps(ApplyAll(empty, []), stale.ops);
  }

  // ----- reconnecting -----

  /** No two subscriptions end up under the same id. */
  predicate CollisionFree<V>(subs: seq<(nat, Sub<V>)>, oldToNew: map<nat, nat>) {
    forall i, j :: 0 <= i < j < |subs| ==> NewId(oldToNew, subs[i].0) != NewId(oldToNew, subs[j].0)
  }

  /** Every key of the remapped table is some subscription's new id. */
  lemma {:induction false} RemappedKeys<V>(subs: seq<(nat, Sub<V>)>, oldToNew: map<nat, nat>, id: nat)
    ensures Find(Remapped(subs, oldToNew), id).Some? <==> exists i :: 0 <= i < |subs| && NewId(oldToNew, subs[i].0) == id
    decreases |subs|
  {
    if subs != [] {
      var n := |subs| - 1;
      RemappedKeys(subs[..n], oldToNew, id);
      PutFinds(Remapped(subs[..n], oldToNew), NewId(oldToNew, subs[n].0), subs[n].1.(records := []), id);
      assert forall i :: 0 <= i < n ==> subs[..n][i] == subs[i];
      if Find(Remapped(subs, oldToNew), id).Some? && NewId(oldToNew, subs[n].0) != id {
        var i :| 0 <= i < n && NewId(oldToNew, subs[..n][i].0) == id;
        assert NewId(oldToNew, subs[i].0) == id;
      }
    }
  }

  /** No subscription is lost exactly when the remap is collision free. */
  lemma {:induction false} RemapKeepsAll<V>(subs: seq<(nat, Sub<V>)>, oldToNew: map<nat, nat>)
    ensures |Remapped(subs, oldToNew)| <= |subs|
    ensures |Remapped(subs, oldToNew)| == |subs| <==> CollisionFree(subs, oldToNew)
    decreases |subs|
  {
    if subs != [] {
      var n := |subs| - 1;
      var id := NewId(oldToNew, subs[n].0);
      RemapKeepsAll(subs[..n], oldToNew);
      RemappedKeys(subs[..n], oldToNew, id);
      PutKeys(Remapped(subs[..n], oldToNew), id, subs[n].1.(records := []));
      if CollisionFree(subs[..n], oldToNew) && Find(Remapped(subs[..n], oldToNew), id).Some? {
        var i :| 0 <= i < n && NewId(oldToNew, subs[..n][i].0) == id;
        assert NewId(oldToNew, subs[i].0) == NewId(oldToNew, subs[n].0);
      }
    }
  }

  lemma {:induction false} RemapFinds<V>(subs: seq<(nat, Sub<V>)>, oldToNew: map<nat, nat>, i: nat)
    requires CollisionFree(subs, oldToNew) && i < |subs|
    ensures Find(Remapped(subs, oldToNew), NewId(oldToNew, subs[i].0)) == Some(subs[i].1.(records := []))
    decreases |subs|
  {
    var n := |subs| - 1;
    PutFinds(Remapped(subs[..n], oldToNew), NewId(oldToNew, subs[n].0), subs[n].1.(records := []), NewId(oldToNew, subs[i].0));
    if i < n {
      RemapFinds(subs[..n], oldToNew, i);
    }
  }

  /** Dispatching online buffers the deltas of known subscriptions, in order. */
  lemma {:induction false} OnlineDispatch<V>(t: Tracker<V>, deltas: seq<Delta<V>>, id: nat)
    requires t.connected && Find(t.subs, id).Some?
    ensures
      var u := DispatchedAll(t, deltas);
      u.subs == t.subs && u.connected && u.queue == t.queue && For(u.pending, id) == For(t.pending, id) + For(deltas, id)
    decreases |deltas|
  {
    if deltas == [] {
      assert For(t.pending, id) + [] == For(t.pending, id);
    } else {
      var n := |deltas| - 1;
      OnlineDispatch(t, deltas[..n], id);
      var before := DispatchedAll(t, deltas[..n]);
      ForSplits(before.pending, [deltas[n]], id);
      ForSplits(deltas[..n], [deltas[n]], id);
      NotMine(deltas[n], id);
      hide For;
      assert deltas == deltas[..n] + [deltas[n]];
      Reassociate(For(t.pending, id), For(deltas[..n], id), For([deltas[n]], id));
    }
  }

  lemma NotMine<V>(delta: Delta<V>, id: nat)
    ensures delta.subId != id ==> For([delta], id) == []
  {
    assert [delta][..0] == [];
  }

  lemma Reassociate<V>(a: seq<V>, b: seq<V>, c: seq<V>)
    ensures a + b + c == a + (b + c)
    ensures c == [] ==> a + b + c == a + b
  {
  }

  /** Dispatching offline queues everything, in order. */
  lemma {:induction false} OfflineDispatch<V>(t: Tracker<V>, deltas: seq<Delta<V>>)
    requires !t.connected
    ensures DispatchedAll(t, deltas) == t.(queue := t.queue + deltas)
    decreases |deltas|
  {
    if deltas == [] {
      assert t.queue + [] == t.queue;
    } else {
      var n := |deltas| - 1;
      OfflineDispatch(t, deltas[..n]);
      assert t.queue + deltas[..n] + [deltas[n]] == t.queue + deltas;
    }
  }

  /** After a collision-free reconnect and the next flush, each view holds its fresh snapshot
      followed by what was queued while the connection was down; nothing from before. */
  lemma ReconnectReplaces<V>(t: Tracker<V>, oldToNew: map<nat, nat>, missed: seq<Delta<V>>, snapshots: seq<Delta<V>>, i: nat)
    requires !t.connected && CollisionFree(t.subs, oldToNew) && i < |t.subs|
    ensures
      var back := Flushed(Reconnected(DispatchedAll(t, missed), oldToNew, snapshots));
      var id := NewId(oldToNew, t.subs[i].0);
      Find(back.subs, id).Some? && back.pending == [] && back.connected &&
      Find(back.subs, id).value.records == ApplyAll([], For(snapshots, id) + (For(t.queue, id) + For(missed, id)))
  {
    hide For, ApplyAll, CollisionFree;
    var id := NewId(oldToNew, t.subs[i].0);
    OfflineDispatch(t, missed);
    RemapFinds(t.subs, oldToNew, i);
    var cleared := Tracker(Remapped(t.subs, oldToNew), [], [], true);
    var all := snapshots + (t.queue + missed);
    OnlineDispatch(cleared, all, id);
    var u := DispatchedAll(cleared, all);
    FlushedFinds(u.subs, u.pending, id);
    ForSplits(snapshots, t.queue + missed, id);
    ForSplits(t.queue, missed, id);
    NothingFor<V>(id);
    assert For<V>([], id) + For(all, id) == For(all, id);
  }

  lemma NothingFor<V>(id: nat)
    ensures For<V>([], id) == []
  {
  }

  // ----- the tracker in place -----

  class SubscriptionTracker<V> {
    var subs: seq<(nat, Sub<V>)>
    var pendingDeltas: seq<Delta<V>>
    var deltaQueue: seq<Delta<V>>
    var connected: bool

    ghost function View(): Tracker<V>
      reads this
    {
      Tracker(subs, pendingDeltas, deltaQueue, connected)
    }

    constructor ()
      ensures View() == Start<V>()
    {
      subs, pendingDeltas, deltaQueue, connected := [], [], [], true;
    }

    method Register(subId: nat)
      modifies this`subs
      ensures View() == Registered(old(View()), subId)
    {
      subs := Put(subs, subId, Sub([], None, 0));
    }

    method Unregister(subId: nat)
      modifies this`subs
      ensures View() == Unregistered(old(View()), subId)
    {
      subs := Drop(subs, subId);
    }

    method SetDisconnected()
      modifies this`connected
      ensures View() == old(View()).(connected := false)
    {
      connected := false;
    }

    method Dispatch(delta: Delta<V>)
      modifies this`pendingDeltas, this`deltaQueue
      ensures View() == Dispatched(old(View()), delta)
    {
      if !connected {
        deltaQueue := deltaQueue + [delta];
        return;
      }
      if Find(subs, delta.subId).Some? {
        pendingDeltas := pendingDeltas + [delta];
      }
    }

    /** Apply ops to a view in place; report whether anything changed. */
    static method ApplyOpsToView(records: Records<V>, ops: seq<Op<V>>) returns (after: Records<V>, changed: bool)
      ensures after == ApplyOps(records, ops) && changed == Changes(records, ops)
      ensures DistinctKeys(records) ==> Outcome(records, ops, after)
      ensures changed <==> exists i :: 0 <= i < |ops| && Bites(records, ops[i])
    {
      ChangesIff(records, ops);
      if DistinctKeys(records) {
        OpsOutcome(records, ops);
      }
      hide Outcome, Bites, DistinctKeys;
      after, changed := records, false;
      var i := 0;
      assert ops[0..] == ops;
      while i < |ops|
        invariant 0 <= i <= |ops| && ApplyOps(after, ops[i..]) == ApplyOps(records, ops)
        invariant changed || Changes(after, ops[i..]) <==> Changes(records, ops)
      {
        assert ops[i..][0] == ops[i] && ops[i..][1..] == ops[i + 1..];
        match ops[i] {
          case SetRecord(id, value) =>
            after := Put(after, id, value);
            changed := true;
          case RemoveRecord(id) =>
            changed := changed || Find(after, id).Some?;
            after := Drop(after, id);
        }
        i := i + 1;
      }
    }

    /** Apply a subscription's deltas, then call it once if anything changed. */
    static method ApplyToSubscription(sub: Sub<V>, deltas: seq<Delta<V>>) returns (after: Sub<V>)
      ensures after == Flushed1(sub, deltas)
    {
      hide ApplyOps, Changes;
      var records, changed := sub.records, false;
      for i := 0 to |deltas|
        invariant records == ApplyAll(sub.records, deltas[..i]) && changed == AnyChange(sub.records, deltas[..i])
      {
        assert deltas[..i + 1][..i] == deltas[..i];
        var one;
        records, one := ApplyOpsToView(records, deltas[i].ops);
        changed := one || changed;
      }
      assert deltas[..|deltas|] == deltas;
      if !changed {
        return sub.(records := records);
      }
      return Sub(records, Some(records), sub.calls + 1);
    }

    /** Pending deltas by subscription, in order of first arrival. */
    static method GroupBySub(pending: seq<Delta<V>>) returns (bySub: seq<(nat, seq<Delta<V>>)>)
      ensures DistinctKeys(bySub)
      ensures GroupedAll(bySub, pending)
    {
      hide For, GroupedAll;
      bySub := [];
      NothingGrouped(pending);
      for i := 0 to |pending|
        invariant DistinctKeys(bySub) && GroupedAll(bySub, pending[..i])
      {
        var delta := pending[i];
        var list := Find(bySub, delta.subId);
        var more := if list.Some? then list.value + [delta] else [delta];
        PutStaysDistinct(bySub, delta.subId, more);
        AllGroupedNext(bySub, pending, i);
        bySub := Put(bySub, delta.subId, more);
      }
      assert pending[..|pending|] == pending;
    }

    /** Apply all pending deltas, and call each subscription at most once. */
    method FlushPending()
      requires DistinctKeys(subs)
      modifies this`subs, this`pendingDeltas
      ensures View() == Flushed(old(View()))
      ensures ViewsFlushed(old(subs), old(pendingDeltas), subs)
    {
      EveryViewFlushed(subs, pendingDeltas);
      hide ViewsFlushed, For, Flushed1, GroupedAll, FlushedSoFar;
      ghost var s := subs;
      var pending := pendingDeltas;
      pendingDeltas := [];
      var bySub := GroupBySub(pending);
      NobodyFlushed(s, pending);
      assert bySub[..0] == [];
      for i := 0 to |bySub|
        invariant DistinctKeys(subs) && SameKeys(subs, s) && View() == Tracker(subs, [], old(deltaQueue), old(connected))
        invariant forall k :: 0 <= k < |s| ==> subs[k].1 == FlushedSoFar(s[k], bySub[..i], pending)
      {
        var sub := Find(subs, bySub[i].0);
        GroupIsFor(bySub, pending, i);
        if sub.Some? {
          var after := ApplyToSubscription(sub.value, bySub[i].1);
          FlushesOne(s, subs, bySub, pending, i, after);
          PutStaysDistinct(subs, bySub[i].0, after);
          subs := Put(subs, bySub[i].0, after);
        } else {
          FlushesNobody(s, subs, bySub, pending, i);
        }
      }
      assert bySub[..|bySub|] == bySub;
      AllFlushed(s, subs, bySub, pending);
    }

    /** Remap, clear, take the fresh snapshots, then drain the queue. */
    method Reconnect(oldToNew: map<nat, nat>, snapshots: seq<Delta<V>>)
      modifies this
      ensures View() == Reconnected(old(View()), oldToNew, snapshots)
    {
      hide Dispatched;
      var remapped: seq<(nat, Sub<V>)> := [];
      for i := 0 to |subs|
        invariant remapped == Remapped(subs[..i], oldToNew) && View() == old(View())
      {
        assert subs[..i + 1][..i] == subs[..i];
        remapped := Put(remapped, NewId(oldToNew, subs[i].0), subs[i].1.(records := []));
      }
      assert subs[..|subs|] == subs;
      var queued := deltaQueue;
      subs, pendingDeltas, deltaQueue, connected := remapped, [], [], true;
      ghost var t := View();
      var all := snapshots + queued;
      for i := 0 to |all|
        invariant View() == DispatchedAll(t, all[..i])
      {
        assert all[..i + 1][..i] == all[..i];
        Dispatch(all[i]);
      }
      assert all[..|all|] == all;
    }
  }

  ghost predicate Grouped<V>(bySub: seq<(nat, seq<Delta<V>>)>, pending: seq<Delta<V>>, id: nat) {
    match Find(bySub, id)
    case None => For(pending, id) == []
    case Some(list) => For(pending, id) == list
  }

  ghost predicate GroupedAll<V>(bySub: seq<(nat, seq<Delta<V>>)>, pending: seq<Delta<V>>) {
    forall id: nat :: Grouped(bySub, pending, id)
  }

  lemma NothingGrouped<V>(pending: seq<Delta<V>>)
    ensures GroupedAll([], pending[..0])
  {
  }

  lemma AllGroupedNext<V>(bySub: seq<(nat, seq<Delta<V>>)>, pending: seq<Delta<V>>, i: nat)
    requires i < |pending| && GroupedAll(bySub, pending[..i])
    ensures
      var list := Find(bySub, pending[i].subId);
      var next := Put(bySub, pending[i].subId, if list.Some? then list.value + [pending[i]] else [pending[i]]);
      GroupedAll(next, pending[..i + 1])
  {
    var list := Find(bySub, pending[i].subId);
    var more := if list.Some? then list.value + [pending[i]] else [pending[i]];
    var next, longer := Put(bySub, pending[i].subId, more), pending[..i + 1];
    assert longer[..i] == pending[..i];
    forall id: nat
      ensures Grouped(next, longer, id)
    {
      PutFinds(bySub, pending[i].subId, more, id);
      assert Grouped(bySub, pending[..i], id);
      assert For(pending[..i], id) + [] == For(pending[..i], id);
      assert [] + [pending[i]] == [pending[i]];
    }
  }

  ghost predicate SameKeys<V>(a: seq<(nat, Sub<V>)>, b: seq<(nat, Sub<V>)>) {
    |a| == |b| && forall k :: 0 <= k < |a| ==> a[k].0 == b[k].0
  }

  /** A subscription once the given groups are applied. */
  ghost function FlushedSoFar<V>(entry: (nat, Sub<V>), groups: seq<(nat, seq<Delta<V>>)>, pending: seq<Delta<V>>): Sub<V> {
    if Find(groups, entry.0).Some? then Flushed1(entry.1, For(pending, entry.0)) else entry.1
  }

  /** The same subscriptions, each flushed. */
  ghost predicate ViewsFlushed<V>(s: seq<(nat, Sub<V>)>, pending: seq<Delta<V>>, after: seq<(nat, Sub<V>)>) {
    SameKeys(after, s) && forall k :: 0 <= k < |s| ==> ViewFlushed(s[k].0, s[k].1, pending, after[k].1)
  }

  lemma EveryViewFlushed<V>(s: seq<(nat, Sub<V>)>, pending: seq<Delta<V>>)
    ensures ViewsFlushed(s, pending, FlushedSubs(s, pending))
  {
    hide ViewFlushed, Flushed1, For;
    forall k | 0 <= k < |s|
      ensures FlushedSubs(s, pending)[k].0 == s[k].0 && ViewFlushed(s[k].0, s[k].1, pending, FlushedSubs(s, pending)[k].1)
    {
      FlushedIsFlushed(s[k].0, s[k].1, pending);
    }
  }

  lemma NobodyFlushed<V>(s: seq<(nat, Sub<V>)>, pending: seq<Delta<V>>)
    ensures forall k :: 0 <= k < |s| ==> s[k].1 == FlushedSoFar(s[k], [], pending)
  {
  }

  lemma GroupIsFor<V>(bySub: seq<(nat, seq<Delta<V>>)>, pending: seq<Delta<V>>, i: nat)
    requires DistinctKeys(bySub) && i < |bySub| && GroupedAll(bySub, pending)
    ensures For(pending, bySub[i].0) == bySub[i].1
    ensures Find(bySub[..i], bySub[i].0).None?
    ensures forall k :: Find(bySub[..i + 1], k).Some? <==> Find(bySub[..i], k).Some? || k == bySub[i].0
  {
    hide For;
    FindAt(bySub, i);
    assert Grouped(bySub, pending, bySub[i].0);
    FindIs(bySub[..i], bySub[i].0);
    assert bySub[..i + 1] == bySub[..i] + [bySub[i]];
    forall k
      ensures Find(bySub[..i + 1], k).Some? <==> Find(bySub[..i], k).Some? || k == bySub[i].0
    {
      FindAppended(bySub[..i], bySub[i], k);
    }
  }

  lemma FlushesOne<V>(s: seq<(nat, Sub<V>)>, subs: seq<(nat, Sub<V>)>, bySub: seq<(nat, seq<Delta<V>>)>, pending: seq<Delta<V>>, i: nat, after: Sub<V>)
    requires DistinctKeys(bySub) && DistinctKeys(subs) && SameKeys(subs, s) && i < |bySub| && GroupedAll(bySub, pending)
    requires forall k :: 0 <= k < |s| ==> subs[k].1 == FlushedSoFar(s[k], bySub[..i], pending)
    requires Find(subs, bySub[i].0).Some? && after == Flushed1(Find(subs, bySub[i].0).value, bySub[i].1)
    ensures
      var more := Put(subs, bySub[i].0, after);
      SameKeys(more, s) && forall k :: 0 <= k < |s| ==> more[k].1 == FlushedSoFar(s[k], bySub[..i + 1], pending)
  {
    hide For, Flushed1, Grouped;
    GroupIsFor(bySub, pending, i);
    FindIs(subs, bySub[i].0);
    var j :| 0 <= j < |subs| && subs[j].0 == bySub[i].0;
    FindAt(subs, j);
    PutAt(subs, j, after);
  }

  lemma FlushesNobody<V>(s: seq<(nat, Sub<V>)>, subs: seq<(nat, Sub<V>)>, bySub: seq<(nat, seq<Delta<V>>)>, pending: seq<Delta<V>>, i: nat)
    requires DistinctKeys(bySub) && SameKeys(subs, s) && i < |bySub| && GroupedAll(bySub, pending)
    requires forall k :: 0 <= k < |s| ==> subs[k].1 == FlushedSoFar(s[k], bySub[..i], pending)
    requires Find(subs, bySub[i].0).None?
    ensures forall k :: 0 <= k < |s| ==> subs[k].1 == FlushedSoFar(s[k], bySub[..i + 1], pending)
  {
    hide For, Flushed1, Grouped;
    GroupIsFor(bySub, pending, i);
    FindIs(subs, bySub[i].0);
  }

  lemma AllFlushed<V>(s: seq<(nat, Sub<V>)>, subs: seq<(nat, Sub<V>)>, bySub: seq<(nat, seq<Delta<V>>)>, pending: seq<Delta<V>>)
    requires SameKeys(subs, s) && GroupedAll(bySub, pending)
    requires forall k :: 0 <= k < |s| ==> subs[k].1 == FlushedSoFar(s[k], bySub, pending)
    ensures subs == FlushedSubs(s, pending)
  {
    hide For;
    forall k | 0 <= k < |s|
      ensures subs[k] == FlushedSubs(s, pending)[k]
    {
      assert Grouped(bySub, pending, s[k].0);
    }
  }

  // ----- snapshots -----

  /** A comparator that orders any three values consistently. */
  ghost predicate Consistent<V(!new)>(cmp: (V, V) -> int) {
    (forall a, b :: (cmp(a, b) <= 0 || cmp(b, a) <= 0) && (cmp(a, b) < 0 ==> cmp(b, a) > 0) && (cmp(a, b) > 0 ==> cmp(b, a) < 0)) &&
    forall a, b, c :: cmp(a, b) <= 0 && cmp(b, c) <= 0 ==> cmp(a, c) <= 0
  }

  predicate InOrder<V>(values: seq<V>, cmp: (V, V) -> int) {
    forall i, j :: 0 <= i < j < |values| ==> cmp(values[i], values[j]) <= 0
  }

  function ValuesOf<V>(records: Records<V>): (r: seq<V>)
    ensures |r| == |records| && forall i :: 0 <= i < |r| ==> r[i] == records[i].1
  {
    seq(|records|, i requires 0 <= i < |records| => records[i].1)
  }

  /** Behind everything it does not precede, so equals keep their order. */
  function Insert<V>(values: seq<V>, x: V, cmp: (V, V) -> int): seq<V> {
    if values == [] then [x]
    else if cmp(values[|values| - 1], x) <= 0 then values + [x]
    else Insert(values[..|values| - 1], x, cmp) + [values[|values| - 1]]
  }

  /** A stable sort, standing in for the runtime's. */
  function SortBy<V>(values: seq<V>, cmp: (V, V) -> int): seq<V> {
    if values == [] then [] else Insert(SortBy(values[..|values| - 1], cmp), values[|values| - 1], cmp)
  }

  /** What a view's callbacks and handles are given. */
  function Snapshot<V>(records: Records<V>, cmp: (V, V) -> int): seq<V> {
    SortBy(ValuesOf(records), cmp)
  }

  lemma {:induction false} InsertHolds<V>(values: seq<V>, x: V, cmp: (V, V) -> int)
    ensures multiset(Insert(values, x, cmp)) == multiset(values) + multiset{x}
  {
    if values != [] {
      var n := |values| - 1;
      assert values == values[..n] + [values[n]];
      if cmp(values[n], x) > 0 {
        InsertHolds(values[..n], x, cmp);
      }
    }
  }

  lemma Through<V(!new)>(cmp: (V, V) -> int, a: V, b: V, c: V)
    requires Consistent(cmp)
    ensures cmp(a, b) <= 0 && cmp(b, c) <= 0 ==> cmp(a, c) <= 0
    ensures cmp(a, b) > 0 ==> cmp(b, a) < 0
  {
  }

  lemma InOrderAppends<V>(values: seq<V>, x: V, cmp: (V, V) -> int)
    requires InOrder(values, cmp) && forall i :: 0 <= i < |values| ==> cmp(values[i], x) <= 0
    ensures InOrder(values + [x], cmp)
  {
  }

  lemma {:induction false} InsertKeepsOrder<V(!new)>(values: seq<V>, x: V, cmp: (V, V) -> int)
    requires Consistent(cmp) && InOrder(values, cmp)
    ensures InOrder(Insert(values, x, cmp), cmp)
    ensures forall i :: 0 <= i < |Insert(values, x, cmp)| ==>
      (Insert(values, x, cmp)[i] == x || exists k :: 0 <= k < |values| && values[k] == Insert(values, x, cmp)[i])
  {
    hide Consistent;
    if values != [] {
      var n := |values| - 1;
      var last := values[n];
      Through(cmp, last, x, x);
      if cmp(last, x) <= 0 {
        forall i | 0 <= i < |values|
          ensures cmp(values[i], x) <= 0
        {
          Through(cmp, values[i], last, x);
        }
        InOrderAppends(values, x, cmp);
      } else {
        InsertKeepsOrder(values[..n], x, cmp);
        var more := Insert(values[..n], x, cmp);
        forall i | 0 <= i < |more|
          ensures cmp(more[i], last) <= 0 && (more[i] == x || exists k :: 0 <= k < |values| && values[k] == more[i])
        {
          if more[i] != x {
            var k :| 0 <= k < n && values[..n][k] == more[i];
            assert values[k] == more[i];
          }
        }
        InOrderAppends(more, last, cmp);
      }
    }
  }

  lemma LastOfAll<V>(values: seq<V>)
    requires values != []
    ensures multiset(values) == multiset(values[..|values| - 1]) + multiset{values[|values| - 1]}
  {
    assert values == values[..|values| - 1] + [values[|values| - 1]];
  }

  lemma {:induction false} SortHolds<V>(values: seq<V>, cmp: (V, V) -> int)
    ensures multiset(SortBy(values, cmp)) == multiset(values)
  {
    if values != [] {
      hide Insert;
      var n := |values| - 1;
      SortHolds(values[..n], cmp);
      InsertHolds(SortBy(values[..n], cmp), values[n], cmp);
      LastOfAll(values);
    }
  }

  /** The values the comparator does not tell from x, in their order. */
  function Alike<V>(values: seq<V>, x: V, cmp: (V, V) -> int): seq<V>
    decreases |values|
  {
    if values == [] then []
    else Alike(values[..|values| - 1], x, cmp) + if cmp(values[|values| - 1], x) == 0 then [values[|values| - 1]] else []
  }

  lemma Unlike<V(!new)>(cmp: (V, V) -> int, last: V, y: V, x: V)
    requires Consistent(cmp) && cmp(last, y) > 0 && cmp(y, x) == 0
    ensures cmp(last, x) != 0
  {
    assert cmp(x, y) <= 0;
  }

  lemma {:induction false} InsertIsStable<V(!new)>(values: seq<V>, y: V, x: V, cmp: (V, V) -> int)
    requires Consistent(cmp)
    ensures Alike(Insert(values, y, cmp), x, cmp) == Alike(values, x, cmp) + if cmp(y, x) == 0 then [y] else []
    decreases |values|
  {
    hide Consistent;
    if values == [] {
      assert [y][..0] == [];
    } else {
      var n := |values| - 1;
      var last := values[n];
      if cmp(last, y) <= 0 {
        assert (values + [y])[..|values|] == values;
      } else {
        InsertIsStable(values[..n], y, x, cmp);
        var more := Insert(values[..n], y, cmp);
        assert (more + [last])[..|more|] == more;
        if cmp(y, x) == 0 {
          Unlike(cmp, last, y, x);
        }
      }
    }
  }

  /** Records that the comparator does not tell apart keep the view's order. */
  lemma {:induction false} SnapshotIsStable<V(!new)>(values: seq<V>, x: V, cmp: (V, V) -> int)
    requires Consistent(cmp)
    ensures Alike(SortBy(values, cmp), x, cmp) == Alike(values, x, cmp)
    decreases |values|
  {
    if values != [] {
      hide Consistent, Insert;
      var n := |values| - 1;
      SnapshotIsStable(values[..n], x, cmp);
      InsertIsStable(SortBy(values[..n], cmp), values[n], x, cmp);
    }
  }

  /** A snapshot holds every record of the view once, in the comparator's order whenever
      the comparator is consistent. */
  lemma {:induction false} SnapshotIsSorted<V(!new)>(values: seq<V>, cmp: (V, V) -> int)
    requires Consistent(cmp)
    ensures InOrder(SortBy(values, cmp), cmp) && multiset(SortBy(values, cmp)) == multiset(values)
  {
    SortHolds(values, cmp);
    if values != [] {
      hide Consistent, InOrder, Insert;
      var n := |values| - 1;
      SnapshotIsSorted(values[..n], cmp);
      InsertKeepsOrder(SortBy(values[..n], cmp), values[n], cmp);
    }
  }
}
