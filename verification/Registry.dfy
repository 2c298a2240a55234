/** The shared-subscription registry of the client store.

    Every consumer of the same canonical message shares one server subscription.  The
    registry is driven by registrations, releases, acknowledgements, grace timers, dropped
    connections, restored ones, and namespace switches that are begun, rolled back or
    committed, in any order.  Each drop and each committed switch starts a new scope
    generation, in which the server holds nothing open until the subscriptions are
    replayed.  A key never holds two server subscriptions, and within a generation none is
    given up while the key has consumers. */
module Registry {
  import opened Basics

  /** Where a key's establishment loop stands: not running, waiting for readiness, woken but
      not yet resumed, or waiting for an answer to what it sent in a generation. */
  datatype Phase = Idle | Parked | Waking | InFlight(gen: nat)

  /** One keyed subscription; `callbacks` are its consumers, possibly the same one twice. */
  datatype Registration = Registration(key: nat, callbacks: seq<nat>, subId: Option<nat>, phase: Phase, timer: bool, closed: bool)

  /** The registry, and which subscriptions the server holds open in this scope. */
  datatype Desk = Desk(regs: seq<Registration>, keys: map<nat, nat>, ready: bool, gen: nat, switching: nat, open: map<nat, nat>)

  // ----- the operations -----

  function With(d: Desk, r: nat, reg: Registration): Desk
    requires r < |d.regs|
  {
    d.(regs := d.regs[r := reg])
  }

  /** The key is gone: closed, out of the table unless another took its place, timer cancelled. */
  function Dropped(d: Desk, r: nat): Desk
    requires r < |d.regs|
  {
    var reg := d.regs[r];
    With(d, r, reg.(closed := true, timer := false)).(
      keys := if reg.key in d.keys && d.keys[reg.key] == r then d.keys - {reg.key} else d.keys)
  }

  /** What the establishment loop does next: end, wait for readiness, or send. */
  function Looped(d: Desk, r: nat): Desk
    requires r < |d.regs|
  {
    var reg := d.regs[r];
    With(d, r, reg.(phase := if reg.closed then Idle else if !d.ready || d.switching > 0 then Parked else InFlight(d.gen)))
  }

  function Ended(d: Desk, r: nat): Desk
    requires r < |d.regs|
  {
    With(d, r, d.regs[r].(phase := Idle))
  }

  /** Find or create the key; a re-attach cancels a pending teardown. */
  function Acquired(d: Desk, key: nat): Desk
    requires key in d.keys ==> d.keys[key] < |d.regs|
  {
    if key in d.keys then With(d, d.keys[key], d.regs[d.keys[key]].(timer := false))
    else d.(regs := d.regs + [Registration(key, [], None, Idle, false, false)], keys := d.keys[key := |d.regs|])
  }

  /** A new consumer: establish the key unless it is established or on its way. */
  function Attached(d: Desk, key: nat, callback: nat): Desk
    requires key in d.keys ==> d.keys[key] < |d.regs|
  {
    var a := Acquired(d, key);
    var r := a.keys[key];
    var b := With(a, r, a.regs[r].(callbacks := a.regs[r].callbacks + [callback]));
    if b.regs[r].subId.Some? || !b.regs[r].phase.Idle? then b else Looped(b, r)
  }

  /** An acknowledgement.  A stale one is for a scope the server has dropped. */
  function Acked(d: Desk, r: nat, subId: nat): Desk
    requires r < |d.regs| && d.regs[r].phase.InFlight?
  {
    var reg := d.regs[r];
    var current := reg.phase.gen == d.gen;
    if reg.closed || reg.key !in d.keys || d.keys[reg.key] != r then
      // Everyone left: free the subscription when the socket is live.
      Ended(if current && !d.ready then d.(open := d.open[subId := reg.key]) else d, r)
    else if !current then Looped(d, r)
    else if reg.callbacks == [] then
      Ended(Dropped(if d.ready then d else d.(open := d.open[subId := reg.key]), r), r)
    else With(d, r, reg.(subId := Some(subId), phase := Idle)).(open := d.open[subId := reg.key])
  }

  /** A refusal: retry if it can outlive a switch, otherwise the key fails for good. */
  function Refused(d: Desk, r: nat): Desk
    requires r < |d.regs| && d.regs[r].phase.InFlight?
  {
    var reg := d.regs[r];
    if reg.closed then Ended(d, r)
    else if reg.callbacks == [] then Ended(Dropped(d, r), r)
    else if reg.phase.gen != d.gen || !d.ready || d.switching > 0 then Looped(d, r)
    else Ended(Dropped(d, r), r)
  }

  /** The first occurrence of a consumer leaves. */
  function Without(callbacks: seq<nat>, callback: nat): seq<nat> {
    if callbacks == [] then []
    else if callbacks[0] == callback then callbacks[1..]
    else [callbacks[0]] + Without(callbacks[1..], callback)
  }

  /** One occurrence of the consumer is gone, the first, and the others keep their order. */
  ghost predicate FirstLeaves(before: seq<nat>, callback: nat, after: seq<nat>) {
    exists i: nat :: FirstAt(before, callback, i) && after == before[..i] + before[i + 1..]
  }

  predicate FirstAt(callbacks: seq<nat>, callback: nat, i: nat) {
    i < |callbacks| && callbacks[i] == callback && callback !in callbacks[..i]
  }

  lemma {:induction false} WithoutSkips(front: seq<nat>, back: seq<nat>, callback: nat)
    requires callback !in front
    ensures Without(front + back, callback) == front + Without(back, callback)
  {
    if front == [] {
      assert front + back == back;
    } else {
      assert (front + back)[1..] == front[1..] + back;
      WithoutSkips(front[1..], back, callback);
    }
  }

  lemma {:induction false} FirstPlace(callbacks: seq<nat>, callback: nat) returns (i: nat)
    requires callback in callbacks
    ensures FirstAt(callbacks, callback, i)
  {
    if callbacks[0] == callback {
      i := 0;
    } else {
      i := FirstPlace(callbacks[1..], callback);
      i := i + 1;
      assert callbacks[..i] == [callbacks[0]] + callbacks[1..][..i - 1];
    }
  }

  lemma WithoutTakesFirst(callbacks: seq<nat>, callback: nat)
    requires callback in callbacks
    ensures FirstLeaves(callbacks, callback, Without(callbacks, callback))
  {
    var i := FirstPlace(callbacks, callback);
    assert callbacks == callbacks[..i] + callbacks[i..];
    WithoutSkips(callbacks[..i], callbacks[i..], callback);
    assert Without(callbacks[i..], callback) == callbacks[i + 1..];
  }

  lemma FirstLeavesOnce(before: seq<nat>, callback: nat, after: seq<nat>)
    requires FirstLeaves(before, callback, after)
    ensures multiset(after) == multiset(before) - multiset{callback}
  {
    var i: nat :| FirstAt(before, callback, i) && after == before[..i] + before[i + 1..];
    assert before == before[..i] + [callback] + before[i + 1..];
  }

  /** A consumer leaves; the last one starts the grace timer of an established key. */
  function Released(d: Desk, r: nat, callback: nat): Desk
    requires r < |d.regs|
  {
    var reg := d.regs[r].(callbacks := Without(d.regs[r].callbacks, callback));
    With(d, r, if reg.closed || reg.callbacks != [] || reg.subId.None? then reg else reg.(timer := true))
  }

  /** The grace window is over: drop the key and free its subscription. */
  function Fired(d: Desk, r: nat): Desk
    requires r < |d.regs|
  {
    var subId := d.regs[r].subId;
    var c := Dropped(d, r);
    With(c, r, c.regs[r].(subId := None)).(open := if subId.Some? && d.ready then d.open - {subId.value} else d.open)
  }

  /** Every parked loop is told to look again; each does so later, in its own step. */
  function Woken(d: Desk): Desk {
    d.(regs := seq(|d.regs|, r requires 0 <= r < |d.regs| =>
      if d.regs[r].phase.Parked? then d.regs[r].(phase := Waking) else d.regs[r]))
  }

  function RolledBack(d: Desk): Desk {
    Woken(d.(switching := if d.switching > 0 then d.switching - 1 else 0))
  }

  /** The scope is gone: answers still out are stale, and the server has closed everything. */
  function NotReady(d: Desk): Desk {
    d.(ready := false, gen := d.gen + 1, open := map[])
  }

  function Committed(d: Desk): Desk {
    NotReady(d.(switching := if d.switching > 0 then d.switching - 1 else 0))
  }

  predicate Clash(regs: seq<Registration>, p: nat, q: nat)
    requires p < |regs| && q < |regs|
  {
    p != q && regs[p].subId.Some? && regs[p].subId == regs[q].subId
  }

  /** Established keys keep their subscription ids apart. */
  ghost predicate IdsApart(regs: seq<Registration>) {
    forall p: nat, q: nat :: p < |regs| && q < |regs| ==> !Clash(regs, p, q)
  }

  /** Registration r is replayed as subscription s. */
  predicate Opens(d: Desk, ids: map<nat, nat>, open: map<nat, nat>, r: nat, s: nat)
    requires r < |d.regs|
  {
    d.regs[r].subId.Some? && d.regs[r].subId.value in ids && ids[d.regs[r].subId.value] == s && s in open && open[s] == d.regs[r].key
  }

  /** The server has answered every replayed subscription with an id of its own, and holds
      these open and no others. */
  ghost predicate Replayed(d: Desk, ids: map<nat, nat>, open: map<nat, nat>) {
    (forall r: nat :: r < |d.regs| && d.regs[r].subId.Some? ==>
      d.regs[r].subId.value in ids && Opens(d, ids, open, r, ids[d.regs[r].subId.value])) &&
    (forall s :: s in open ==> exists r: nat :: r < |d.regs| && Opens(d, ids, open, r, s)) &&
    forall a, b :: a in ids && b in ids && ids[a] == ids[b] ==> a == b
  }

  function Remapped(reg: Registration, ids: map<nat, nat>): Registration {
    if reg.subId.Some? && reg.subId.value in ids then reg.(subId := Some(ids[reg.subId.value])) else reg
  }

  /** The replay is over: established keys carry their new ids, and the session is ready. */
  function Restored(d: Desk, ids: map<nat, nat>, open: map<nat, nat>): Desk {
    Woken(d.(regs := seq(|d.regs|, r requires 0 <= r < |d.regs| => Remapped(d.regs[r], ids)), ready := true, open := open))
  }

  // ----- events -----

  datatype Event =
    | Register(key: nat, callback: nat)
    | Leave(r: nat, callback: nat)
    | Accept(r: nat, subId: nat)
    | Refuse(r: nat)
    | Grace(r: nat)
    | Resume(r: nat)
    | BeginSwitch
    | RollbackSwitch
    | CommitSwitch
    | Disconnect
    | Restore(ids: map<nat, nat>, open: map<nat, nat>)

  /** What can happen: handles of present consumers, answers to what was sent, armed timers,
      woken loops, and a replay once the scope is gone.  The server does not hand out an id
      it still holds open. */
  ghost predicate Possible(d: Desk, e: Event) {
    match e
    case Register(_, _) => true
    case Leave(r, callback) => r < |d.regs| && callback in d.regs[r].callbacks
    case Accept(r, subId) => r < |d.regs| && d.regs[r].phase.InFlight? && subId !in d.open
    case Refuse(r) => r < |d.regs| && d.regs[r].phase.InFlight?
    case Grace(r) => r < |d.regs| && d.regs[r].timer
    case Resume(r) => r < |d.regs| && d.regs[r].phase.Waking?
    case BeginSwitch => true
    case RollbackSwitch => d.switching > 0
    case CommitSwitch => d.switching > 0
    case Disconnect => true
    case Restore(ids, open) => !d.ready && Replayed(d, ids, open)
  }

  function Happened(d: Desk, e: Event): Desk
    requires Kept(d) && Possible(d, e)
  {
    match e
    case Register(key, callback) => Attached(d, key, callback)
    case Leave(r, callback) => Released(d, r, callback)
    case Accept(r, subId) => Acked(d, r, subId)
    case Refuse(r) => Refused(d, r)
    case Grace(r) => Fired(d, r)
    case Resume(r) => Looped(d, r)
    case BeginSwitch => d.(switching := d.switching + 1)
    case RollbackSwitch => RolledBack(d)
    case CommitSwitch => Committed(d)
    case Disconnect => NotReady(d)
    case Restore(ids, open) => Restored(d, ids, open)
  }

  // ----- what a generation keeps -----

  /** One registration within the desk. */
  predicate Sound(d: Desk, r: nat)
    requires r < |d.regs|
  {
    var reg := d.regs[r];
    (!reg.closed <==> reg.key in d.keys && d.keys[reg.key] == r) &&
    (reg.phase.InFlight? ==> reg.phase.gen <= d.gen) && (reg.phase == InFlight(d.gen) ==> d.ready) &&
    (reg.closed ==> reg.subId.None? && !reg.timer && !reg.phase.Parked? && !reg.phase.Waking? && reg.phase != InFlight(d.gen)) &&
    (reg.subId.Some? ==> reg.phase.Idle? && (d.ready ==> reg.subId.value in d.open && d.open[reg.subId.value] == reg.key)) &&
    (reg.timer ==> reg.callbacks == [] && reg.subId.Some?) &&
    (reg.phase.Parked? ==> !d.ready || d.switching > 0) &&
    (!reg.closed ==> reg.subId.Some? || !reg.phase.Idle?) &&
    (!reg.closed && reg.subId.Some? && reg.callbacks == [] ==> reg.timer)
  }

  /** Every open subscription is its key's. */
  predicate OpenIsOwned(d: Desk, s: nat)
    requires s in d.open
  {
    d.ready && d.open[s] in d.keys && d.keys[d.open[s]] < |d.regs| && d.regs[d.keys[d.open[s]]].subId == Some(s)
  }

  ghost predicate Kept(d: Desk) {
    (forall k :: k in d.keys ==> d.keys[k] < |d.regs| && d.regs[d.keys[k]].key == k) &&
    (forall r :: 0 <= r < |d.regs| ==> Sound(d, r)) &&
    (forall s :: s in d.open ==> OpenIsOwned(d, s)) && IdsApart(d.regs)
  }

  /** Every event keeps every registration sound. */
  lemma EventKeeps(d: Desk, e: Event)
    requires Kept(d) && Possible(d, e)
    ensures Kept(Happened(d, e))
  {
    match e
    case Register(key, callback) => RegisterKeeps(d, key, callback);
    case Leave(r, callback) => LeaveKeeps(d, r, callback);
    case Accept(r, subId) => AcceptKeeps(d, r, subId);
    case Refuse(r) => RefuseKeeps(d, r);
    case Grace(r) => GraceKeeps(d, r);
    case Resume(r) => ResumeKeeps(d, r);
    case BeginSwitch => SwitchKeeps(d, d.switching + 1);
    case RollbackSwitch => WakeKeeps(d, d.(switching := d.switching - 1));
    case CommitSwitch => NotReadyKeeps(d, d.(switching := d.switching - 1));
    case Disconnect => NotReadyKeeps(d, d);
    case Restore(ids, open) => RestoreKeeps(d, ids, open);
  }

  /** Ids that stay or go stay apart. */
  lemma IdsStay(a: seq<Registration>, b: seq<Registration>)
    requires IdsApart(a) && |a| <= |b|
    requires forall q :: 0 <= q < |b| ==> b[q].subId.None? || (q < |a| && b[q].subId == a[q].subId)
    ensures IdsApart(b)
  {
    forall p: nat, q: nat | p < |b| && q < |b|
      ensures !Clash(b, p, q)
    {
      assert p < |a| && q < |a| ==> !Clash(a, p, q);
    }
  }

  lemma RegisterKeeps(d: Desk, key: nat, callback: nat)
    requires Kept(d)
    ensures Kept(Attached(d, key, callback))
  {
    if key in d.keys {
      JoinKeeps(d, key, callback);
    } else {
      FoundKeeps(d, key, callback);
    }
  }

  /** A further consumer of a key that is established or on its way. */
  lemma JoinKeeps(d: Desk, key: nat, callback: nat)
    requires Kept(d) && key in d.keys
    ensures Kept(Attached(d, key, callback))
  {
    hide IdsApart;
    var e, r := Attached(d, key, callback), d.keys[key];
    assert Sound(d, r);
    assert e == d.(regs := d.regs[r := d.regs[r].(timer := false, callbacks := d.regs[r].callbacks + [callback])]);
    forall q | 0 <= q < |e.regs|
      ensures Sound(e, q)
    {
      assert Sound(d, q);
    }
    IdsStay(d.regs, Attached(d, key, callback).regs);
  }

  /** The first consumer of a new key. */
  lemma FoundKeeps(d: Desk, key: nat, callback: nat)
    requires Kept(d) && key !in d.keys
    ensures Kept(Attached(d, key, callback))
  {
    hide IdsApart;
    var e, n := Attached(d, key, callback), |d.regs|;
    var phase := if !d.ready || d.switching > 0 then Parked else InFlight(d.gen);
    var none: seq<nat> := [];
    assert none + [callback] == [callback];
    assert e.regs == d.regs + [Registration(key, [callback], None, phase, false, false)] && e.keys == d.keys[key := n];
    forall q | 0 <= q < |e.regs|
      ensures Sound(e, q)
    {
      if q < n {
        assert Sound(d, q);
      }
    }
    IdsStay(d.regs, Attached(d, key, callback).regs);
  }

  lemma LeaveKeeps(d: Desk, r: nat, callback: nat)
    requires Kept(d) && Possible(d, Leave(r, callback))
    ensures Kept(Released(d, r, callback))
  {
    hide IdsApart;
    var e := Released(d, r, callback);
    forall q | 0 <= q < |e.regs|
      ensures Sound(e, q)
    {
      assert Sound(d, q);
    }
    IdsStay(d.regs, Released(d, r, callback).regs);
  }

  /** A key without a subscription is dropped. */
  lemma DropKeeps(d: Desk, r: nat)
    requires Kept(d) && r < |d.regs| && d.regs[r].subId.None?
    ensures Kept(Ended(Dropped(d, r), r))
  {
    hide IdsApart;
    var e := Ended(Dropped(d, r), r);
    assert Sound(d, r);
    forall q | 0 <= q < |e.regs|
      ensures Sound(e, q)
    {
      assert Sound(d, q);
    }
    IdsStay(d.regs, Ended(Dropped(d, r), r).regs);
  }

  /** The loop of an unanswered key goes round again. */
  lemma LoopKeeps(d: Desk, r: nat)
    requires Kept(d) && r < |d.regs| && d.regs[r].subId.None?
    ensures Kept(Looped(d, r))
  {
    hide IdsApart;
    assert Sound(d, r);
    var e := Looped(d, r);
    assert e.keys == d.keys && e.open == d.open && |e.regs| == |d.regs|;
    forall q | 0 <= q < |d.regs|
      ensures Sound(e, q)
    {
      assert Sound(d, q);
    }
    IdsStay(d.regs, Looped(d, r).regs);
  }

  /** A woken loop belongs to a key without a subscription. */
  lemma ResumeKeeps(d: Desk, r: nat)
    requires Kept(d) && Possible(d, Resume(r))
    ensures Kept(Looped(d, r))
  {
    assert Sound(d, r);
    LoopKeeps(d, r);
  }

  lemma EndKeeps(d: Desk, r: nat)
    requires Kept(d) && r < |d.regs| && d.regs[r].closed
    ensures Kept(Ended(d, r))
  {
    hide IdsApart;
    assert Sound(d, r);
    forall q | 0 <= q < |d.regs|
      ensures Sound(Ended(d, r), q)
    {
      assert Sound(d, q);
    }
    IdsStay(d.regs, Ended(d, r).regs);
  }

  lemma AdoptKeeps(d: Desk, r: nat, subId: nat)
    requires Kept(d) && r < |d.regs| && d.regs[r].phase == InFlight(d.gen) && subId !in d.open && d.regs[r].callbacks != []
    ensures Kept(With(d, r, d.regs[r].(subId := Some(subId), phase := Idle)).(open := d.open[subId := d.regs[r].key]))
  {
    var e := With(d, r, d.regs[r].(subId := Some(subId), phase := Idle)).(open := d.open[subId := d.regs[r].key]);
    assert Sound(d, r);
    forall q | 0 <= q < |e.regs|
      ensures Sound(e, q)
    {
      assert Sound(d, q);
    }
    forall p: nat, q: nat | p < |e.regs| && q < |e.regs|
      ensures !Clash(e.regs, p, q)
    {
      assert Sound(d, p) && Sound(d, q) && !Clash(d.regs, p, q);
    }
  }

  lemma AcceptKeeps(d: Desk, r: nat, subId: nat)
    requires Kept(d) && Possible(d, Accept(r, subId))
    ensures Kept(Acked(d, r, subId))
  {
    assert Sound(d, r);
    hide Kept, Looped, Ended, Dropped;
    LoopKeeps(d, r);
    DropKeeps(d, r);
    if d.regs[r].closed {
      EndKeeps(d, r);
    }
    if !d.regs[r].closed && d.regs[r].phase.gen == d.gen && d.regs[r].callbacks != [] {
      AdoptKeeps(d, r, subId);
    }
  }

  lemma RefuseKeeps(d: Desk, r: nat)
    requires Kept(d) && Possible(d, Refuse(r))
    ensures Kept(Refused(d, r))
  {
    assert Sound(d, r);
    hide Kept, Looped, Ended, Dropped;
    LoopKeeps(d, r);
    DropKeeps(d, r);
    if d.regs[r].closed {
      EndKeeps(d, r);
    }
  }

  lemma FiredShape(d: Desk, r: nat)
    requires Kept(d) && Possible(d, Grace(r))
    ensures
      var reg := d.regs[r];
      reg.callbacks == [] && reg.subId.Some? && reg.phase.Idle? && reg.key in d.keys && d.keys[reg.key] == r &&
      Fired(d, r) == d.(regs := d.regs[r := reg.(closed := true, timer := false, subId := None)], keys := d.keys - {reg.key},
                        open := if d.ready then d.open - {reg.subId.value} else d.open)
  {
    hide IdsApart;
    assert Sound(d, r);
  }

  lemma GraceKeeps(d: Desk, r: nat)
    requires Kept(d) && Possible(d, Grace(r))
    ensures Kept(Fired(d, r))
  {
    FiredShape(d, r);
    hide IdsApart, Fired;
    var e := Fired(d, r);
    assert Sound(d, r);
    forall q | 0 <= q < |e.regs|
      ensures Sound(e, q)
    {
      assert Sound(d, q);
    }
    IdsStay(d.regs, e.regs);
  }

  lemma SwitchKeeps(d: Desk, switching: nat)
    requires Kept(d) && switching > 0
    ensures Kept(d.(switching := switching))
  {
    hide IdsApart;
    forall q | 0 <= q < |d.regs|
      ensures Sound(d.(switching := switching), q)
    {
      assert Sound(d, q);
    }
    IdsStay(d.regs, d.(switching := switching).regs);
  }

  lemma WakeKeeps(d: Desk, w: Desk)
    requires Kept(d) && w == d.(switching := w.switching)
    ensures Kept(Woken(w))
  {
    var e := Woken(w);
    forall q | 0 <= q < |e.regs|
      ensures Sound(e, q)
    {
      assert Sound(d, q);
    }
    IdsStay(d.regs, e.regs);
  }

  /** A new generation begins with nothing open and every outstanding answer stale. */
  lemma NotReadyKeeps(d: Desk, w: Desk)
    requires Kept(d) && w == d.(switching := w.switching)
    ensures Kept(NotReady(w))
  {
    var e := NotReady(w);
    forall q | 0 <= q < |e.regs|
      ensures Sound(e, q)
    {
      assert Sound(d, q);
    }
    IdsStay(d.regs, e.regs);
  }

  /** After the replay every established key holds its own new subscription. */
  lemma RestoreKeeps(d: Desk, ids: map<nat, nat>, open: map<nat, nat>)
    requires Kept(d) && Possible(d, Restore(ids, open))
    ensures Kept(Restored(d, ids, open))
  {
    hide IdsApart;
    var e := Restored(d, ids, open);
    forall q | 0 <= q < |e.regs|
      ensures Sound(e, q)
    {
      assert Sound(d, q);
      assert d.regs[q].subId.Some? ==> Opens(d, ids, open, q, ids[d.regs[q].subId.value]);
    }
    RemappedApart(d, ids, open);
    forall s | s in e.open
      ensures OpenIsOwned(e, s)
    {
      var r: nat :| r < |d.regs| && Opens(d, ids, open, r, s);
      assert Sound(d, r);
    }
  }

  lemma RemappedApart(d: Desk, ids: map<nat, nat>, open: map<nat, nat>)
    requires Replayed(d, ids, open) && IdsApart(d.regs)
    ensures IdsApart(Restored(d, ids, open).regs)
  {
    var regs := Restored(d, ids, open).regs;
    forall p: nat, q: nat | p < |regs| && q < |regs|
      ensures !Clash(regs, p, q)
    {
      assert !Clash(d.regs, p, q);
      assert d.regs[p].subId.Some? ==> Opens(d, ids, open, p, ids[d.regs[p].subId.value]);
      assert d.regs[q].subId.Some? ==> Opens(d, ids, open, q, ids[d.regs[q].subId.value]);
    }
  }

  function Opened(): Desk {
    Desk([], map[], false, 0, 0, map[])
  }

  /** A run of events from a fresh store; None when one of them cannot happen. */
  ghost function Run(events: seq<Event>): (d: Option<Desk>)
    ensures d.Some? ==> Kept(d.value)
    decreases |events|
  {
    if events == [] then Some(Opened())
    else
      var n := |events| - 1;
      match Run(events[..n])
      case None => None
      case Some(d) =>
        if !Possible(d, events[n]) then None
        else
          EventKeeps(d, events[n]);
          Some(Happened(d, events[n]))
  }

  // ----- the two guarantees -----

  /** The server subscriptions a key holds or has asked for in this scope. */
  ghost function Holding(d: Desk, key: nat): (set<nat>, set<nat>) {
    (set s | s in d.open && d.open[s] == key,
     set r: nat | r < |d.regs| && d.regs[r].key == key && d.regs[r].phase == InFlight(d.gen))
  }

  /** At most one per key: accepted, or in flight. */
  lemma AtMostOne(d: Desk, key: nat)
    requires Kept(d)
    ensures |Holding(d, key).0| + |Holding(d, key).1| <= 1
  {
    var (held, asked) := Holding(d, key);
    forall r | r in asked
      ensures key in d.keys && r == d.keys[key] && d.regs[r].subId.None?
    {
      assert Sound(d, r);
    }
    if key in d.keys {
      var r := d.keys[key];
      assert asked <= {r};
      var subId := d.regs[r].subId;
      if subId.Some? {
        assert Sound(d, r);
        assert held <= {subId.value} && asked == {};
        OfOne(held, subId.value);
      } else {
        assert held == {};
        OfOne(asked, r);
      }
    } else {
      assert held == {} && asked == {};
    }
  }

  lemma OfOne(s: set<nat>, x: nat)
    requires s <= {x}
    ensures |s| <= 1
  {
    assert s == {} || s == {x};
  }

  /** And with no switch pending, every key's subscription is held, asked for, or about to
      be asked for by a loop that is woken or whose answer is still out. */
  lemma NobodyIsStranded(d: Desk, key: nat)
    requires Kept(d) && d.ready && d.switching == 0 && key in d.keys
    ensures
      var reg := d.regs[d.keys[key]];
      (reg.subId.Some? && reg.subId.value in Holding(d, key).0) || reg.phase.InFlight? || reg.phase.Waking?
  {
    assert Sound(d, d.keys[key]);
  }

  /** Within a generation no event gives up a subscription whose key has consumers. */
  lemma OnlyUnusedAreGivenUp(d: Desk, e: Event, s: nat)
    requires Kept(d) && Possible(d, e) && s in d.open && s !in Happened(d, e).open
    requires Happened(d, e).gen == d.gen
    ensures d.open[s] in d.keys && d.keys[d.open[s]] < |d.regs| && d.regs[d.keys[d.open[s]]].callbacks == []
    ensures e == Grace(d.keys[d.open[s]])
  {
    assert OpenIsOwned(d, s);
    if e.Grace? {
      assert Sound(d, e.r);
    }
  }

  /** A key established before the scope was lost is established again by the replay,
      with the consumers it has by then. */
  lemma ReplayRestores(d: Desk, ids: map<nat, nat>, open: map<nat, nat>, key: nat)
    requires Kept(d) && Possible(d, Restore(ids, open)) && key in d.keys && d.regs[d.keys[key]].subId.Some?
    ensures
      var e, before := Restored(d, ids, open), d.regs[d.keys[key]];
      e.regs[d.keys[key]] == before.(subId := Some(ids[before.subId.value])) && Holding(e, key).0 == {ids[before.subId.value]}
  {
    var e, r := Restored(d, ids, open), d.keys[key];
    RestoreKeeps(d, ids, open);
    assert Sound(d, r) && Sound(e, r) && Opens(d, ids, open, r, ids[d.regs[r].subId.value]);
    forall s | s in e.open && e.open[s] == key
      ensures s == ids[d.regs[r].subId.value]
    {
      assert OpenIsOwned(e, s);
    }
  }

  /** Over every interleaving, across drops and switches: at most one subscription per key,
      and within a generation none given up while anyone who registered for it has not left. */
  lemma EveryRunShares(events: seq<Event>, key: nat)
    requires events != [] && Run(events).Some?
    ensures
      var before, after, e := Run(events[..|events| - 1]).value, Run(events).value, events[|events| - 1];
      |Holding(after, key).0| + |Holding(after, key).1| <= 1 && before.gen <= after.gen &&
      forall s :: s in before.open && s !in after.open && before.gen == after.gen ==>
        Unused(before, s) && Consumers(events[..|events| - 1], before.keys[before.open[s]]) == multiset{}
  {
    hide Happened, Possible, Kept, Holding, Consumers;
    var before, after, e := Run(events[..|events| - 1]).value, Run(events).value, events[|events| - 1];
    AtMostOne(after, key);
    GenerationsAscend(before, e);
    forall s | s in before.open && s !in after.open && before.gen == after.gen
      ensures Unused(before, s) && Consumers(events[..|events| - 1], before.keys[before.open[s]]) == multiset{}
    {
      OnlyUnusedAreGivenUp(before, e, s);
      ConsumersAreListed(events[..|events| - 1], before.keys[before.open[s]]);
    }
  }

  lemma GenerationsAscend(d: Desk, e: Event)
    requires Kept(d) && Possible(d, e)
    ensures Happened(d, e).gen == d.gen + if e.CommitSwitch? || e.Disconnect? then 1 else 0
  {
  }

  /** The subscription's key has no consumers. */
  predicate Unused(d: Desk, s: nat)
    requires s in d.open
  {
    d.open[s] in d.keys && d.keys[d.open[s]] < |d.regs| && d.regs[d.keys[d.open[s]]].callbacks == []
  }

  // ----- who the consumers are -----

  /** Registration r has lost one consumer, and nothing else of the desk has changed but
      that the last one out of an established key arms its timer. */
  ghost predicate LeftBy(d: Desk, r: nat, callback: nat, e: Desk)
    requires r < |d.regs|
  {
    e == d.(regs := e.regs) && |e.regs| == |d.regs| && (forall q :: 0 <= q < |d.regs| && q != r ==> e.regs[q] == d.regs[q]) &&
    var was, now := d.regs[r], e.regs[r];
    now == was.(callbacks := now.callbacks, timer := now.timer) && FirstLeaves(was.callbacks, callback, now.callbacks) &&
    (now.timer <==> was.timer || (now.callbacks == [] && was.subId.Some? && !was.closed))
  }

  lemma ReleaseTakesOne(d: Desk, r: nat, callback: nat)
    requires r < |d.regs| && callback in d.regs[r].callbacks
    ensures LeftBy(d, r, callback, Released(d, r, callback))
  {
    hide Without, FirstLeaves;
    WithoutTakesFirst(d.regs[r].callbacks, callback);
  }

  /** The consumer stands last at the key's registration, which is new if the key was not
      in the table, and nobody else's consumers change. */
  ghost predicate JoinedBy(d: Desk, key: nat, callback: nat, e: Desk) {
    key in e.keys && e.keys[key] < |e.regs| &&
    e.keys == d.keys[key := e.keys[key]] &&
    (key in d.keys ==> e.keys[key] == d.keys[key]) && (key !in d.keys ==> e.keys[key] == |d.regs|) &&
    |e.regs| == (if key in d.keys then |d.regs| else |d.regs| + 1) &&
    (forall q :: 0 <= q < |d.regs| && q != e.keys[key] ==> e.regs[q] == d.regs[q]) &&
    e.regs[e.keys[key]].key == key && !e.regs[e.keys[key]].timer &&
    e.regs[e.keys[key]].callbacks == (if key in d.keys && d.keys[key] < |d.regs| then d.regs[d.keys[key]].callbacks else []) + [callback]
  }

  lemma RegisterAddsOne(d: Desk, key: nat, callback: nat)
    requires Kept(d)
    ensures JoinedBy(d, key, callback, Attached(d, key, callback))
  {
  }

  /** Every registration keeps its consumers. */
  predicate SameConsumers(d: Desk, e: Desk) {
    |e.regs| == |d.regs| && forall r :: 0 <= r < |d.regs| ==> e.regs[r].callbacks == d.regs[r].callbacks
  }

  /** No other event touches the consumers. */
  lemma OthersKeepConsumers(d: Desk, e: Event)
    requires Kept(d) && Possible(d, e) && !e.Register? && !e.Leave?
    ensures SameConsumers(d, Happened(d, e))
  {
    hide Kept, Replayed;
    match e
    case Accept(r, subId) => AnswersKeepConsumers(d, r, subId);
    case Refuse(r) => AnswersKeepConsumers(d, r, 0);
    case _ =>
  }

  lemma AnswersKeepConsumers(d: Desk, r: nat, subId: nat)
    requires r < |d.regs| && d.regs[r].phase.InFlight?
    ensures SameConsumers(d, Acked(d, r, subId)) && SameConsumers(d, Refused(d, r))
  {
  }

  /** Those registered under registration r in a run, minus those that left. */
  ghost function Consumers(events: seq<Event>, r: nat): multiset<nat>
    requires Run(events).Some?
    decreases |events|
  {
    if events == [] then multiset{}
    else
      var n := |events| - 1;
      var before, after := Consumers(events[..n], r), Run(events).value;
      match events[n]
      case Register(key, callback) =>
        if key in after.keys && after.keys[key] == r then before + multiset{callback} else before
      case Leave(q, callback) => if q == r then before - multiset{callback} else before
      case _ => before
  }

  /** Over every run the listed consumers of a registration are exactly those who
      registered there and have not left. */
  lemma {:induction false} ConsumersAreListed(events: seq<Event>, r: nat)
    requires Run(events).Some?
    ensures
      var d := Run(events).value;
      Consumers(events, r) == if r < |d.regs| then multiset(d.regs[r].callbacks) else multiset{}
    decreases |events|
  {
    if events != [] {
      var n := |events| - 1;
      ConsumersAreListed(events[..n], r);
      OneEventCounts(Run(events[..n]).value, events[n], Run(events).value, r, Consumers(events[..n], r));
    }
  }

  lemma OneEventCounts(d: Desk, e: Event, after: Desk, r: nat, before: multiset<nat>)
    requires Kept(d) && Possible(d, e) && after == Happened(d, e)
    requires before == if r < |d.regs| then multiset(d.regs[r].callbacks) else multiset{}
    ensures
      var now := if r < |after.regs| then multiset(after.regs[r].callbacks) else multiset{};
      match e
      case Register(key, callback) => now == if key in after.keys && after.keys[key] == r then before + multiset{callback} else before
      case Leave(q, callback) => now == if q == r then before - multiset{callback} else before
      case _ => now == before
  {
    hide Attached, Released, FirstLeaves;
    match e
    case Register(key, callback) => RegisterAddsOne(d, key, callback);
    case Leave(q, callback) =>
      ReleaseTakesOne(d, q, callback);
      FirstLeavesOnce(d.regs[q].callbacks, callback, after.regs[q].callbacks);
    case _ => OthersKeepConsumers(d, e);
  }

  /** A key that has consumers leaves the table only when the server refuses it in the
      current generation, with the session ready and no switch pending. */
  lemma OnlyRefusalDropsUsed(d: Desk, e: Event, key: nat)
    requires Kept(d) && Possible(d, e) && key in d.keys
    requires key !in Happened(d, e).keys || Happened(d, e).keys[key] != d.keys[key]
    ensures
      var reg := d.regs[d.keys[key]];
      reg.callbacks == [] || (e == Refuse(d.keys[key]) && reg.phase == InFlight(d.gen) && d.ready && d.switching == 0)
  {
    assert Sound(d, d.keys[key]);
    if e.Grace? {
      assert Sound(d, e.r);
    }
  }

  // ----- what requests and answers lead to -----

  /** A request goes out only in a ready session with no switch pending, for a live key, and
      it belongs to the current generation. */
  lemma RequestsWait(d: Desk, e: Event, r: nat)
    requires Kept(d) && Possible(d, e) && r < |Happened(d, e).regs| && Happened(d, e).regs[r].phase.InFlight?
    requires r < |d.regs| ==> d.regs[r].phase != Happened(d, e).regs[r].phase
    ensures
      var reg := Happened(d, e).regs[r];
      d.ready && d.switching == 0 && reg.phase.gen == d.gen && !reg.closed
  {
    KeysInRange(d);
    hide Kept, Replayed, Without, Acked, Refused, Attached, Looped, Woken, Restored, RolledBack;
    match e
    case Register(key, callback) => RegisterWaits(d, key, callback, r);
    case Accept(q, subId) => AcceptWaits(d, q, subId, r);
    case Refuse(q) => RefuseWaits(d, q, r);
    case Resume(q) => LoopWaits(d, q, r);
    case RollbackSwitch => WakingSendsNothing(d, map[], map[]);
    case Restore(ids, open) => WakingSendsNothing(d, ids, open);
    case _ =>
  }

  /** Registration r has just sent a request, as it may. */
  predicate SentNow(d: Desk, a: Desk, r: nat)
    requires r < |a.regs|
  {
    a.regs[r].phase.InFlight? && (r < |d.regs| ==> d.regs[r].phase != a.regs[r].phase) ==>
      d.ready && d.switching == 0 && a.regs[r].phase.gen == d.gen && !a.regs[r].closed
  }

  lemma RegisterWaits(d: Desk, key: nat, callback: nat, r: nat)
    requires (key in d.keys ==> d.keys[key] < |d.regs|) && r < |Attached(d, key, callback).regs|
    ensures SentNow(d, Attached(d, key, callback), r)
  {
  }

  lemma LoopWaits(d: Desk, q: nat, r: nat)
    requires q < |d.regs| && r < |d.regs|
    ensures SentNow(d, Looped(d, q), r) && SentNow(d, Ended(d, q), r) && SentNow(d, Dropped(d, q), r)
  {
  }

  lemma WakingSendsNothing(d: Desk, ids: map<nat, nat>, open: map<nat, nat>)
    ensures |RolledBack(d).regs| == |d.regs| == |Restored(d, ids, open).regs|
    ensures forall r: nat :: r < |d.regs| ==> SentNow(d, RolledBack(d), r) && SentNow(d, Restored(d, ids, open), r)
  {
  }

  lemma AcceptWaits(d: Desk, q: nat, subId: nat, r: nat)
    requires q < |d.regs| && d.regs[q].phase.InFlight? && r < |d.regs|
    ensures |Acked(d, q, subId).regs| == |d.regs| && SentNow(d, Acked(d, q, subId), r)
  {
    LoopWaits(d, q, r);
    hide Looped;
    if r == q {
      assert SentNow(d, Acked(d, q, subId), r);
    }
  }

  lemma RefuseWaits(d: Desk, q: nat, r: nat)
    requires q < |d.regs| && d.regs[q].phase.InFlight? && r < |d.regs|
    ensures |Refused(d, q).regs| == |d.regs| && SentNow(d, Refused(d, q), r)
  {
    LoopWaits(d, q, r);
  }

  /** The key is in the table, registered as r. */
  predicate Live(d: Desk, r: nat)
    requires r < |d.regs|
  {
    d.regs[r].key in d.keys && d.keys[d.regs[r].key] == r
  }

  /** An acknowledgement is adopted exactly when it is current and somebody still wants it;
      otherwise its subscription is not left open, and a key that is still wanted tries on. */
  lemma AdoptedIffWanted(d: Desk, r: nat, subId: nat)
    requires Kept(d) && Possible(d, Accept(r, subId))
    ensures
      var a, wanted := Acked(d, r, subId), Live(d, r) && d.regs[r].callbacks != [];
      |a.regs| == |d.regs| &&
      (subId in a.open <==> wanted && d.regs[r].phase.gen == d.gen) &&
      (a.regs[r].subId == Some(subId) <==> wanted && d.regs[r].phase.gen == d.gen) &&
      (wanted ==> Live(a, r)) && (wanted && d.regs[r].phase.gen != d.gen ==> !a.regs[r].phase.Idle?)
  {
    assert Sound(d, r);
  }

  /** A refusal fails a key for good unless somebody wants it and a drop or a switch may
      have caused the refusal; then it tries on. */
  lemma RetriedIffMoot(d: Desk, r: nat)
    requires Kept(d) && Possible(d, Refuse(r))
    ensures
      var a, wanted := Refused(d, r), Live(d, r) && d.regs[r].callbacks != [];
      var moot := d.regs[r].phase.gen != d.gen || d.switching > 0;
      |a.regs| == |d.regs| && (Live(a, r) <==> wanted && moot) && (Live(a, r) <==> !a.regs[r].phase.Idle?)
  {
    assert Sound(d, r);
  }

  // ----- the registry in place -----

  class StoreRegistry {
    var regs: seq<Registration>
    var keys: map<nat, nat>
    var sessionReady: bool
    var scopeGen: nat
    var switchPending: nat
    /** The server's side: subscriptions open in this scope. */
    ghost var open: map<nat, nat>

    ghost function View(): Desk
      reads this
    {
      Desk(regs, keys, sessionReady, scopeGen, switchPending, open)
    }

    constructor ()
      ensures View() == Opened() && Kept(View())
    {
      regs, keys, sessionReady, scopeGen, switchPending, open := [], map[], false, 0, 0, map[];
    }

    /** Finds or creates the key of a registration. */
    method AcquireKey(key: nat) returns (r: nat)
      requires key in keys ==> keys[key] < |regs|
      modifies this`regs, this`keys
      ensures View() == Acquired(old(View()), key) && r < |regs| && key in keys && keys[key] == r
    {
      if key in keys {
        r := keys[key];
        // Re-attach inside the grace window cancels the pending teardown.
        if regs[r].timer {
          regs := regs[r := regs[r].(timer := false)];
        }
        return;
      }
      r := |regs|;
      regs := regs + [Registration(key, [], None, Idle, false, false)];
      keys := keys[key := r];
    }

    /** One turn of the establishment loop, up to where it waits. */
    method EstablishTurn(r: nat)
      requires r < |regs|
      modifies this`regs
      ensures View() == Looped(old(View()), r)
    {
      if regs[r].closed {
        regs := regs[r := regs[r].(phase := Idle)];
      } else if !sessionReady || switchPending > 0 {
        regs := regs[r := regs[r].(phase := Parked)];
      } else {
        regs := regs[r := regs[r].(phase := InFlight(scopeGen))];
      }
    }

    /** Registers one consumer against its key. */
    method Attach(key: nat, callback: nat)
      requires Kept(View())
      modifies this`regs, this`keys
      ensures View() == Attached(old(View()), key, callback) && Kept(View())
      ensures JoinedBy(old(View()), key, callback, View())
    {
      RegisterKeeps(View(), key, callback);
      RegisterAddsOne(View(), key, callback);
      hide Kept;
      KeysInRange(View());
      var r := AcquireKey(key);
      regs := regs[r := regs[r].(callbacks := regs[r].callbacks + [callback])];
      if regs[r].subId.None? && regs[r].phase.Idle? {
        EstablishTurn(r);
      }
    }

    method DropKey(r: nat)
      requires r < |regs|
      modifies this`regs, this`keys
      ensures View() == Dropped(old(View()), r)
    {
      if regs[r].key in keys && keys[regs[r].key] == r {
        keys := keys - {regs[r].key};
      }
      regs := regs[r := regs[r].(closed := true, timer := false)];
    }

    method EndLoop(r: nat)
      requires r < |regs|
      modifies this`regs
      ensures View() == Ended(old(View()), r)
    {
      regs := regs[r := regs[r].(phase := Idle)];
    }

    /** The server accepted under `subId`. */
    method Acknowledge(r: nat, subId: nat)
      requires Kept(View()) && Possible(View(), Accept(r, subId))
      modifies this
      ensures View() == Acked(old(View()), r, subId) && Kept(View())
    {
      AcceptKeeps(View(), r, subId);
      hide Kept, Dropped, Looped, Ended;
      var gen := regs[r].phase.gen;
      ghost var held := if gen == scopeGen then open[subId := regs[r].key] else open;
      if regs[r].closed || regs[r].key !in keys || keys[regs[r].key] != r {
        // Unsubscribed again when the socket is live.
        open := if sessionReady && gen == scopeGen then open else held;
        EndLoop(r);
        return;
      }
      if gen != scopeGen {
        EstablishTurn(r);
        return;
      }
      if regs[r].callbacks == [] {
        open := if sessionReady then open else held;
        DropKey(r);
        EndLoop(r);
        return;
      }
      open := held;
      regs := regs[r := regs[r].(subId := Some(subId), phase := Idle)];
    }

    /** The server refused, or the request failed. */
    method Reject(r: nat)
      requires Kept(View()) && Possible(View(), Refuse(r))
      modifies this`regs, this`keys
      ensures View() == Refused(old(View()), r) && Kept(View())
    {
      RefuseKeeps(View(), r);
      hide Kept, Dropped, Looped, Ended;
      var gen := regs[r].phase.gen;
      if regs[r].closed {
        EndLoop(r);
      } else if regs[r].callbacks == [] {
        DropKey(r);
        EndLoop(r);
      } else if gen != scopeGen || !sessionReady || switchPending > 0 {
        EstablishTurn(r);
      } else {
        DropKey(r);
        EndLoop(r);
      }
    }

    /** The first occurrence of the callback, if any. */
    method Splice(callbacks: seq<nat>, callback: nat) returns (rest: seq<nat>)
      ensures rest == Without(callbacks, callback)
      ensures if callback in callbacks then FirstLeaves(callbacks, callback, rest) else rest == callbacks
    {
      var index := 0;
      while index < |callbacks| && callbacks[index] != callback
        invariant 0 <= index <= |callbacks| && callback !in callbacks[..index]
      {
        index := index + 1;
      }
      assert callbacks == callbacks[..index] + callbacks[index..];
      WithoutSkips(callbacks[..index], callbacks[index..], callback);
      if index == |callbacks| {
        return callbacks;
      }
      assert FirstAt(callbacks, callback, index);
      return callbacks[..index] + callbacks[index + 1..];
    }

    /** Detaches one consumer; the last one arms the grace timer. */
    method Release(r: nat, callback: nat)
      requires Kept(View()) && Possible(View(), Leave(r, callback))
      modifies this`regs
      ensures View() == Released(old(View()), r, callback) && Kept(View())
      ensures r < |old(regs)| && LeftBy(old(View()), r, callback, View())
      ensures r < |regs| && multiset(regs[r].callbacks) == multiset(old(regs)[r].callbacks) - multiset{callback}
    {
      LeaveKeeps(View(), r, callback);
      ReleaseTakesOne(View(), r, callback);
      FirstLeavesOnce(regs[r].callbacks, callback, Without(regs[r].callbacks, callback)) by {
        WithoutTakesFirst(regs[r].callbacks, callback);
      }
      hide Kept, Without;
      var callbacks := Splice(regs[r].callbacks, callback);
      regs := regs[r := regs[r].(callbacks := callbacks)];
      if regs[r].closed || callbacks != [] || regs[r].subId.None? {
        return;
      }
      regs := regs[r := regs[r].(timer := true)];
    }

    /** The grace timer of a key without consumers fires. */
    method Teardown(r: nat)
      requires Kept(View()) && Possible(View(), Grace(r))
      modifies this
      ensures View() == Fired(old(View()), r) && Kept(View())
    {
      GraceKeeps(View(), r);
      hide Kept, Dropped;
      DropKey(r);
      var subId := regs[r].subId;
      regs := regs[r := regs[r].(subId := None)];
      if subId.Some? && sessionReady {
        open := open - {subId.value};
      }
    }

    /** Wakes every parked loop; each resumes in a step of its own. */
    method WakeReady()
      modifies this`regs
      ensures View() == Woken(old(View()))
    {
      ghost var d := View();
      for i := 0 to |regs|
        invariant |regs| == |d.regs| && View() == d.(regs := regs)
        invariant forall k :: 0 <= k < i ==> regs[k] == Woken(d).regs[k]
        invariant forall k :: i <= k < |regs| ==> regs[k] == d.regs[k]
      {
        if regs[i].phase.Parked? {
          regs := regs[i := regs[i].(phase := Waking)];
        }
      }
      assert regs == Woken(d).regs;
    }

    /** A woken loop looks again. */
    method Resume(r: nat)
      requires Kept(View()) && Possible(View(), Event.Resume(r))
      modifies this`regs
      ensures View() == Looped(old(View()), r) && Kept(View())
    {
      ResumeKeeps(View(), r);
      hide Kept;
      EstablishTurn(r);
    }

    /** Every replayed subscription answers to its new id. */
    method Remap(ids: map<nat, nat>)
      modifies this`regs
      ensures |regs| == |old(regs)| && forall r :: 0 <= r < |regs| ==> regs[r] == Remapped(old(regs[r]), ids)
    {
      ghost var was := regs;
      for i := 0 to |regs|
        invariant |regs| == |was|
        invariant forall k :: 0 <= k < i ==> regs[k] == Remapped(was[k], ids)
        invariant forall k :: i <= k < |regs| ==> regs[k] == was[k]
      {
        if regs[i].subId.Some? && regs[i].subId.value in ids {
          regs := regs[i := regs[i].(subId := Some(ids[regs[i].subId.value]))];
        }
      }
    }

    /** The replay is over: the session is ready in the new scope. */
    method MarkSessionReady(ids: map<nat, nat>, ghost held: map<nat, nat>)
      requires Kept(View()) && Possible(View(), Restore(ids, held))
      modifies this
      ensures View() == Restored(old(View()), ids, held) && Kept(View())
    {
      RestoreKeeps(View(), ids, held);
      hide Kept, Replayed;
      ghost var d := View();
      Remap(ids);
      sessionReady, open := true, held;
      assert regs == seq(|d.regs|, r requires 0 <= r < |d.regs| => Remapped(d.regs[r], ids));
      WakeReady();
    }

    /** The connection dropped, or the scope is about to change. */
    method MarkNotReady()
      requires Kept(View())
      modifies this`sessionReady, this`scopeGen, this`open
      ensures View() == NotReady(old(View())) && Kept(View())
    {
      NotReadyKeeps(View(), View());
      sessionReady, scopeGen, open := false, scopeGen + 1, map[];
    }

    /** The switch landed: everything from the old scope is invalid. */
    method CommitNamespaceSwitch()
      requires Kept(View()) && switchPending > 0
      modifies this`switchPending, this`sessionReady, this`scopeGen, this`open
      ensures View() == Committed(old(View())) && Kept(View())
    {
      NotReadyKeeps(View(), View().(switching := switchPending - 1));
      hide Kept;
      switchPending := switchPending - 1;
      sessionReady, scopeGen, open := false, scopeGen + 1, map[];
    }

    method BeginNamespaceSwitch()
      requires Kept(View())
      modifies this`switchPending
      ensures View() == old(View()).(switching := old(switchPending) + 1) && Kept(View())
    {
      SwitchKeeps(View(), switchPending + 1);
      switchPending := switchPending + 1;
    }

    /** The switch was rejected: the old scope is still valid. */
    method RollbackNamespaceSwitch()
      requires Kept(View()) && switchPending > 0
      modifies this`switchPending, this`regs
      ensures View() == RolledBack(old(View())) && Kept(View())
    {
      WakeKeeps(View(), View().(switching := switchPending - 1));
      switchPending := switchPending - 1;
      WakeReady();
    }
  }

  lemma KeysInRange(d: Desk)
    requires Kept(d)
    ensures forall k :: k in d.keys ==> d.keys[k] < |d.regs|
  {
  }
}
