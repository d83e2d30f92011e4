/**
 The event registry of code/ioscheduler.cpp as one finite map from (descriptor, event) to the
 registration waiting there. Registrations are numbered, so that what happens to each of them over a
 history can be told: it is pending, posted to its scheduler, or dropped by `delEvent`.
 */
module EventRegistry {
  import opened Prelude
  import opened TaskQueue

  datatype Event = READ | WRITE

  datatype Key = Key(fd: nat, event: Event)

  datatype Registration = Registration(serial: nat, scheduler: nat, body: Body)

  datatype Registry = Registry(slots: map<Key, Registration>, added: nat, posted: seq<Registration>, dropped: set<nat>)

  const EMPTY := Registry(map[], 0, [], {})

  /** The events registered for a descriptor, the source's `m_event`. */
  function Events(r: Registry, fd: nat): (es: set<Event>) {
    (if Key(fd, READ) in r.slots then {READ} else {}) + (if Key(fd, WRITE) in r.slots then {WRITE} else {})
  }

  function Add(r: Registry, key: Key, scheduler: nat, body: Body): Registry {
    r.(slots := r.slots[key := Registration(r.added, scheduler, body)], added := r.added + 1)
  }

  /** triggerEvent: the registration leaves the registry for its scheduler's queue. */
  function Fire(r: Registry, key: Key): Registry {
    if key in r.slots then r.(slots := r.slots - {key}, posted := r.posted + [r.slots[key]]) else r
  }

  function Drop(r: Registry, key: Key): Registry {
    if key in r.slots then r.(slots := r.slots - {key}, dropped := r.dropped + {r.slots[key].serial}) else r
  }

  /** READ is handled before WRITE. */
  function FireAll(r: Registry, fd: nat, es: set<Event>): Registry {
    var s := if READ in es then Fire(r, Key(fd, READ)) else r;
    if WRITE in es then Fire(s, Key(fd, WRITE)) else s
  }

  /** A critical section of the source; `ok` says whether epoll_ctl succeeds in it. */
  datatype Op =
    | AddOp(key: Key, scheduler: nat, body: Body, ok: bool)
    | DelOp(key: Key, ok: bool)
    | CancelOp(key: Key, ok: bool)
    | CancelAllOp(fd: nat, ok: bool)
    | ReportOp(fd: nat, ready: set<Event>, ok: bool)  // one entry of the event buffer, in `idle`

  /** The reports after which every assert in `idle` holds. */
  predicate Safe(es: set<Event>, ready: set<Event>) {
    es * ready == {} || ready <= es
  }

  predicate Legal(r: Registry, op: Op) {
    op.ReportOp? && op.ok ==> Safe(Events(r, op.fd), op.ready)
  }

  function Apply(r: Registry, op: Op): (s: Registry)
    requires Legal(r, op)
  {
    match op
    case AddOp(key, scheduler, body, ok) => if key in r.slots || !ok then r else Add(r, key, scheduler, body)
    case DelOp(key, ok) => if ok then Drop(r, key) else r
    case CancelOp(key, ok) => if ok then Fire(r, key) else r
    case CancelAllOp(fd, ok) => if ok then FireAll(r, fd, Events(r, fd)) else r
    case ReportOp(fd, ready, ok) => if Events(r, fd) * ready == {} || !ok then r else FireAll(r, fd, ready)
  }

  // ---------------------------------------------------------------- where each registration is

  ghost predicate Waiting(r: Registry, n: nat) { exists k :: k in r.slots && r.slots[k].serial == n }

  ghost predicate Posted(r: Registry, n: nat) { exists i :: 0 <= i < |r.posted| && r.posted[i].serial == n }

  /** Every registration ever made is in exactly one place, once. */
  ghost predicate Inv(r: Registry) {
    && (forall n: nat :: n < r.added <==> Waiting(r, n) || Posted(r, n) || n in r.dropped)
    && (forall k, l | k in r.slots && l in r.slots && k != l :: r.slots[k].serial != r.slots[l].serial)
    && (forall i, j | 0 <= i < j < |r.posted| :: r.posted[i].serial != r.posted[j].serial)
    && (forall k, i | k in r.slots && 0 <= i < |r.posted| :: r.slots[k].serial != r.posted[i].serial)
    && (forall k | k in r.slots :: r.slots[k].serial !in r.dropped)
    && (forall i | 0 <= i < |r.posted| :: r.posted[i].serial !in r.dropped)
    && r.added == |r.slots| + |r.posted| + |r.dropped|
  }

  lemma AddInv(r: Registry, key: Key, scheduler: nat, body: Body)
    requires Inv(r) && key !in r.slots
    ensures Inv(Add(r, key, scheduler, body))
  {
    var s := Add(r, key, scheduler, body);
    assert !Waiting(r, r.added) && !Posted(r, r.added) && r.added !in r.dropped;
    forall n: nat ensures n < s.added <==> Waiting(s, n) || Posted(s, n) || n in s.dropped {
      if Waiting(r, n) {
        var k :| k in r.slots && r.slots[k].serial == n;
        assert s.slots[k].serial == n;
      }
      if Waiting(s, n) {
        var k :| k in s.slots && s.slots[k].serial == n;
        assert k != key ==> r.slots[k].serial == n;
      }
      if n == r.added { assert s.slots[key].serial == n; }
      assert Posted(r, n) <==> Posted(s, n);
    }
  }

  lemma RemoveSize<K, V>(m: map<K, V>, k: K)
    requires k in m
    ensures |m - {k}| == |m| - 1
  {
    assert m == (m - {k})[k := m[k]];
  }

  lemma FireInv(r: Registry, key: Key)
    requires Inv(r)
    ensures Inv(Fire(r, key))
  {
    var s := Fire(r, key);
    if key in r.slots {
      RemoveSize(r.slots, key);
      assert Waiting(r, r.slots[key].serial);
      forall n: nat ensures n < s.added <==> Waiting(s, n) || Posted(s, n) || n in s.dropped {
        MovedAway(r, s, key, n);
        PostedMore(r, s, r.slots[key], n);
      }
    }
  }

  lemma PostedMore(r: Registry, s: Registry, g: Registration, n: nat)
    requires s.posted == r.posted + [g]
    ensures Posted(s, n) <==> Posted(r, n) || n == g.serial
  {
    if Posted(r, n) {
      var i :| 0 <= i < |r.posted| && r.posted[i].serial == n;
      assert s.posted[i].serial == n;
    }
    if n == g.serial { assert s.posted[|r.posted|].serial == n; }
  }

  lemma MovedAway(r: Registry, s: Registry, key: Key, n: nat)
    requires key in r.slots && s.slots == r.slots - {key}
    requires forall k, l | k in r.slots && l in r.slots && k != l :: r.slots[k].serial != r.slots[l].serial
    ensures Waiting(r, n) <==> Waiting(s, n) || n == r.slots[key].serial
    ensures !Waiting(s, r.slots[key].serial)
  {
    if Waiting(r, n) && n != r.slots[key].serial {
      var k :| k in r.slots && r.slots[k].serial == n;
      assert k in s.slots && s.slots[k].serial == n;
    }
    if Waiting(s, n) {
      var k :| k in s.slots && s.slots[k].serial == n;
      assert r.slots[k].serial == n;
    }
  }

  lemma DropInv(r: Registry, key: Key)
    requires Inv(r)
    ensures Inv(Drop(r, key))
  {
    var s := Drop(r, key);
    if key in r.slots {
      RemoveSize(r.slots, key);
      assert Waiting(r, r.slots[key].serial);
      forall n: nat ensures n < s.added <==> Waiting(s, n) || Posted(s, n) || n in s.dropped {
        MovedAway(r, s, key, n);
        assert Posted(r, n) <==> Posted(s, n);
      }
    }
  }

  lemma ApplyInv(r: Registry, op: Op)
    requires Inv(r) && Legal(r, op)
    ensures Inv(Apply(r, op))
  {
    hide Inv;
    match op
    case AddOp(key, scheduler, body, ok) => if key !in r.slots && ok { AddInv(r, key, scheduler, body); }
    case DelOp(key, ok) => DropInv(r, key);
    case CancelOp(key, ok) => FireInv(r, key);
    case CancelAllOp(fd, ok) => FireAllInv(r, fd, Events(r, fd));
    case ReportOp(fd, ready, ok) => FireAllInv(r, fd, ready);
  }

  lemma FireAllInv(r: Registry, fd: nat, es: set<Event>)
    requires Inv(r)
    ensures Inv(FireAll(r, fd, es))
  {
    hide Inv;
    var s := if READ in es then Fire(r, Key(fd, READ)) else r;
    FireInv(r, Key(fd, READ));
    FireInv(s, Key(fd, WRITE));
  }

  // ---------------------------------------------------------------- where registrations come from

  lemma FireTraces(r: Registry, key: Key)
    ensures var t := Fire(r, key);
            && t.posted == (if key in r.slots then r.posted + [r.slots[key]] else r.posted) && t.added == r.added
            && (forall k | k in t.slots :: k in r.slots && t.slots[k] == r.slots[k])
  {}

  /** An operation posts only what was registered, and registers only what it is called with. */
  lemma OpTraces(r: Registry, op: Op)
    requires Legal(r, op)
    ensures var t := Apply(r, op);
            && r.posted <= t.posted && r.added <= t.added
            && (forall i | |r.posted| <= i < |t.posted| :: exists k :: k in r.slots && t.posted[i] == r.slots[k])
            && (forall k | k in t.slots ::
                  (k in r.slots && t.slots[k] == r.slots[k]) ||
                  (op.AddOp? && k == op.key && t.slots[k] == Registration(r.added, op.scheduler, op.body)))
  {
    hide Fire;
    match op
    case AddOp(_, _, _, _) =>
    case DelOp(_, _) =>
    case CancelOp(key, _) => FireTraces(r, key);
    case CancelAllOp(fd, ok) => FireAllTraces(r, fd, Events(r, fd));
    case ReportOp(fd, ready, _) => FireAllTraces(r, fd, ready);
  }

  function FdOf(op: Op): nat {
    match op
    case AddOp(key, _, _, _) => key.fd
    case DelOp(key, _) => key.fd
    case CancelOp(key, _) => key.fd
    case CancelAllOp(fd, _) => fd
    case ReportOp(fd, _, _) => fd
  }

  /** The operation is one that posts what is registered under this key. */
  predicate Hits(op: Op, key: Key) {
    match op
    case CancelOp(k, ok) => ok && k == key
    case CancelAllOp(fd, ok) => ok && fd == key.fd
    case ReportOp(fd, ready, ok) => ok && fd == key.fd && key.event in ready
    case _ => false
  }

  /** What is registered under a key, if the operation posts it. */
  function HitAt(r: Registry, op: Op, key: Key): seq<Registration> {
    if key in r.slots && Hits(op, key) then [r.slots[key]] else []
  }

  /**
   What an operation does to every key: it posts what it hits, READ before WRITE, forgets what a delEvent
   names, registers what a successful addEvent asks for, and leaves the rest.
   */
  lemma OpMeaning(r: Registry, op: Op)
    requires Legal(r, op)
    ensures var t, fd := Apply(r, op), FdOf(op);
            && t.posted == r.posted + HitAt(r, op, Key(fd, READ)) + HitAt(r, op, Key(fd, WRITE))
            && t.added == r.added + (if op.AddOp? && op.ok && op.key !in r.slots then 1 else 0)
            && t.dropped == r.dropped +
                  (if op.DelOp? && op.ok && op.key in r.slots then {r.slots[op.key].serial} else {})
            && (forall key :: key in t.slots <==>
                  || (key in r.slots && !Hits(op, key) && !(op.DelOp? && op.ok && op.key == key))
                  || (op.AddOp? && op.ok && op.key == key))
            && (forall key | key in t.slots ::
                  t.slots[key] == if key in r.slots then r.slots[key] else Registration(r.added, op.scheduler, op.body))
  {
    forall key: Key ensures key.event in Events(r, key.fd) <==> key in r.slots {
      KeyByEvent(key);
    }
    match op
    case CancelAllOp(fd, ok) =>
      if ok { FireAllMeaning(r, fd, Events(r, fd)); }
    case ReportOp(fd, ready, ok) =>
      assert forall key | key in r.slots && Hits(op, key) :: key.event in Events(r, fd) * ready;
      if ok && Events(r, fd) * ready != {} { FireAllMeaning(r, fd, ready); }
    case _ =>
  }

  lemma FireAllMeaning(r: Registry, fd: nat, es: set<Event>)
    ensures var t := FireAll(r, fd, es);
            && t.posted == r.posted
                  + (if Key(fd, READ) in r.slots && READ in es then [r.slots[Key(fd, READ)]] else [])
                  + (if Key(fd, WRITE) in r.slots && WRITE in es then [r.slots[Key(fd, WRITE)]] else [])
            && t.added == r.added && t.dropped == r.dropped
            && (forall key :: key in t.slots <==> key in r.slots && !(key.fd == fd && key.event in es))
            && (forall key | key in t.slots :: t.slots[key] == r.slots[key])
  {
    forall key: Key ensures key.event == READ || key.event == WRITE {
      KeyByEvent(key);
    }
  }

  lemma FireAllTraces(r: Registry, fd: nat, es: set<Event>)
    ensures var t := FireAll(r, fd, es);
            && r.posted <= t.posted && t.added == r.added
            && (forall i | |r.posted| <= i < |t.posted| :: exists k :: k in r.slots && t.posted[i] == r.slots[k])
            && (forall k | k in t.slots :: k in r.slots && t.slots[k] == r.slots[k])
  {
    hide Fire;
    var s := if READ in es then Fire(r, Key(fd, READ)) else r;
    FireTraces(r, Key(fd, READ));
    FireTraces(s, Key(fd, WRITE));
    var t := FireAll(r, fd, es);
  }

  // ---------------------------------------------------------------- counting by descriptor

  /** Registered events of the descriptors below `n`. */
  function CountEvents(r: Registry, n: nat): (c: nat) {
    if n == 0 then 0 else CountEvents(r, n - 1) + |Events(r, n - 1)|
  }

  /** The registry without the events of one descriptor. */
  function WithoutEvents(r: Registry, fd: nat): Registry {
    r.(slots := (r.slots - {Key(fd, READ)}) - {Key(fd, WRITE)})
  }

  /** Every registration is one registered event of its descriptor. */
  lemma {:induction false} CountAll(r: Registry, n: nat)
    requires forall k | k in r.slots :: k.fd < n
    ensures |r.slots| == CountEvents(r, n)
    decreases n
  {
    hide CountEvents, Events, WithoutEvents;
    if n == 0 {
      assert forall k :: k !in r.slots;
      CountNone(r);
    } else {
      OthersLeft(r, n - 1);
      WithoutFd(r, n - 1);
      CountAll(WithoutEvents(r, n - 1), n - 1);
      SameBelow(r, WithoutEvents(r, n - 1), n - 1);
      CountOne(r, n);
    }
  }

  lemma CountNone(r: Registry)
    ensures CountEvents(r, 0) == 0
  {}

  lemma OthersLeft(r: Registry, fd: nat)
    ensures forall k :: k in WithoutEvents(r, fd).slots <==> k in r.slots && k.fd != fd
  {
    forall k ensures k in WithoutEvents(r, fd).slots <==> k in r.slots && k.fd != fd {
      KeyByEvent(k);
    }
  }

  lemma CountOne(r: Registry, n: nat)
    requires n > 0
    ensures CountEvents(r, n) == CountEvents(r, n - 1) + |Events(r, n - 1)|
  {}

  lemma KeyByEvent(k: Key)
    ensures k == Key(k.fd, READ) || k == Key(k.fd, WRITE)
  {
    match k.event case READ => case WRITE =>
  }

  lemma WithoutFd(r: Registry, fd: nat)
    ensures |r.slots| == |WithoutEvents(r, fd).slots| + |Events(r, fd)|
  {
    WithoutKey(r.slots, Key(fd, READ));
    WithoutKey(r.slots - {Key(fd, READ)}, Key(fd, WRITE));
    var read: set<Event> := if Key(fd, READ) in r.slots then {READ} else {};
    var write: set<Event> := if Key(fd, WRITE) in r.slots then {WRITE} else {};
    assert Events(r, fd) == read + write && read !! write;
  }

  lemma WithoutKey<K, V>(m: map<K, V>, k: K)
    ensures |m| == |m - {k}| + if k in m then 1 else 0
  {
    if k in m { RemoveSize(m, k); } else { assert m - {k} == m; }
  }

  lemma {:induction false} SameBelow(r: Registry, t: Registry, n: nat)
    requires forall k: Key | k.fd < n :: k in r.slots <==> k in t.slots
    ensures CountEvents(r, n) == CountEvents(t, n)
  {
    if n > 0 {
      SameBelow(r, t, n - 1);
      assert Events(r, n - 1) == Events(t, n - 1);
    }
  }

  // ---------------------------------------------------------------- histories

  ghost predicate LegalRun(r: Registry, ops: seq<Op>)
    decreases |ops|
  {
    ops == [] || (Legal(r, ops[0]) && LegalRun(Apply(r, ops[0]), ops[1..]))
  }

  function Run(r: Registry, ops: seq<Op>): (s: Registry)
    requires LegalRun(r, ops)
    decreases |ops|
  {
    if ops == [] then r else Run(Apply(r, ops[0]), ops[1..])
  }

  /** Whether an operation registers something: a successful addEvent. */
  predicate Registers(r: Registry, op: Op) {
    op.AddOp? && op.ok && op.key !in r.slots
  }

  function Successes(r: Registry, ops: seq<Op>): (n: nat)
    requires LegalRun(r, ops)
    decreases |ops|
  {
    if ops == [] then 0 else (if Registers(r, ops[0]) then 1 else 0) + Successes(Apply(r, ops[0]), ops[1..])
  }

  lemma AddedBy(r: Registry, op: Op)
    requires Legal(r, op)
    ensures Apply(r, op).added == r.added + if Registers(r, op) then 1 else 0
  {}

  lemma {:induction false} RunInv(r: Registry, ops: seq<Op>)
    requires Inv(r) && LegalRun(r, ops)
    ensures Inv(Run(r, ops)) && Run(r, ops).added == r.added + Successes(r, ops)
    decreases |ops|
  {
    hide Inv;
    if ops != [] {
      AddedBy(r, ops[0]);
      ApplyInv(r, ops[0]);
      RunInv(Apply(r, ops[0]), ops[1..]);
    }
  }

  lemma EmptyInv()
    ensures Inv(EMPTY)
  {
    forall n: nat ensures !Waiting(EMPTY, n) && !Posted(EMPTY, n) {}
  }

  /**
   Over every history the successful addEvent calls are accounted for by what is pending, what has been
   posted and what delEvent dropped, and nothing is posted twice.
   */
  lemma Conservation(ops: seq<Op>)
    requires LegalRun(EMPTY, ops)
    ensures var r := Run(EMPTY, ops);
            && Successes(EMPTY, ops) == |r.slots| + |r.posted| + |r.dropped|
            && forall i, j | 0 <= i < j < |r.posted| :: r.posted[i].serial != r.posted[j].serial
  {
    EmptyInv();
    RunInv(EMPTY, ops);
  }

  /** A successful addEvent as it was called. */
  datatype Asking = Asking(key: Key, scheduler: nat, body: Body)

  /** The successful addEvent calls of a history, in order. */
  ghost function Asked(r: Registry, ops: seq<Op>): seq<Asking>
    requires LegalRun(r, ops)
    decreases |ops|
  {
    if ops == [] then []
    else (if ops[0].AddOp? && ops[0].ok && ops[0].key !in r.slots
          then [Asking(ops[0].key, ops[0].scheduler, ops[0].body)] else []) + Asked(Apply(r, ops[0]), ops[1..])
  }

  /** A registration carries what its addEvent was called with. */
  predicate AsAsked(g: Registration, asked: seq<Asking>) {
    g.serial < |asked| && g.scheduler == asked[g.serial].scheduler && g.body == asked[g.serial].body
  }

  ghost predicate Faithful(r: Registry, asked: seq<Asking>) {
    && |asked| == r.added
    && (forall i | 0 <= i < |r.posted| :: AsAsked(r.posted[i], asked))
    && (forall k | k in r.slots :: AsAsked(r.slots[k], asked) && asked[r.slots[k].serial].key == k)
  }

  lemma FaithfulStep(r: Registry, op: Op, asked: seq<Asking>)
    requires Legal(r, op) && Faithful(r, asked)
    ensures Faithful(Apply(r, op), asked + Asked(r, [op]))
  {
    var t, more := Apply(r, op), asked + Asked(r, [op]);
    OpMeaning(r, op);
    assert Asked(t, []) == [];
    assert [op][1..] == [];
    assert |more| == t.added;
    hide Apply, Hits, Asked;
    forall i | 0 <= i < |t.posted| ensures AsAsked(t.posted[i], more) {
      if i < |r.posted| { assert t.posted[i] == r.posted[i]; }
    }
  }

  lemma {:induction false} FaithfulRun(r: Registry, ops: seq<Op>, asked: seq<Asking>)
    requires LegalRun(r, ops) && Faithful(r, asked)
    ensures Faithful(Run(r, ops), asked + Asked(r, ops))
    decreases |ops|
  {
    hide Faithful, Apply;
    if ops != [] {
      FaithfulStep(r, ops[0], asked);
      AskedOne(r, ops);
      FaithfulRun(Apply(r, ops[0]), ops[1..], asked + Asked(r, [ops[0]]));
      assert asked + Asked(r, [ops[0]]) + Asked(Apply(r, ops[0]), ops[1..]) == asked + Asked(r, ops);
    } else {
      assert asked + [] == asked;
    }
  }

  lemma AskedOne(r: Registry, ops: seq<Op>)
    requires LegalRun(r, ops) && ops != []
    ensures LegalRun(r, [ops[0]])
    ensures Asked(r, ops) == Asked(r, [ops[0]]) + Asked(Apply(r, ops[0]), ops[1..])
  {
    assert [ops[0]][1..] == [];
    assert Asked(Apply(r, ops[0]), []) == [];
  }

  /**
   Over every history, whatever has been posted goes to the scheduler, and is the callback or the fiber, with
   which its addEvent was called; what is still registered is so under the key it was registered for.
   */
  lemma PostedAsAsked(ops: seq<Op>)
    requires LegalRun(EMPTY, ops)
    ensures Faithful(Run(EMPTY, ops), Asked(EMPTY, ops))
  {
    FaithfulRun(EMPTY, ops, []);
    assert [] + Asked(EMPTY, ops) == Asked(EMPTY, ops);
  }

  // ---------------------------------------------------------------- the asserts of `idle`

  /** The two triggerEvent calls of `idle` on a mask: the mask left, or None when an assert fails. */
  function DispatchMask(es: set<Event>, ready: set<Event>, ok: bool): (r: Option<set<Event>>) {
    if es * ready == {} || !ok then Some(es)
    else if READ in ready && READ !in es then None
    else
      var left := if READ in ready then es - {READ} else es;
      if WRITE in ready && WRITE !in left then None
      else Some(if WRITE in ready then left - {WRITE} else left)
  }

  /**
   The asserts in triggerEvent hold for a report exactly when it is disjoint from the registered events
   or contained in them, or epoll_ctl fails; the mask left is then the mask written to epoll.
   */
  lemma DispatchAsserts(es: set<Event>, ready: set<Event>, ok: bool)
    ensures DispatchMask(es, ready, ok).Some? <==> !ok || Safe(es, ready)
    ensures ok && Safe(es, ready) ==> DispatchMask(es, ready, ok) == Some(es - ready)
  {
    ByEvent(es);
    ByEvent(ready);
    ByEvent(es * ready);
    ByEvent(es - ready);
    ByEvent(ready - es);
    assert ready <= es <==> ready - es == {};
    if ok && Safe(es, ready) {
      var l1 := if READ in ready then es - {READ} else es;
      var l2 := if WRITE in ready then l1 - {WRITE} else l1;
      assert if es * ready == {} then es == es - ready else l2 == es - ready;
    }
  }

  lemma ByEvent(es: set<Event>)
    ensures es == (if READ in es then {READ} else {}) + (if WRITE in es then {WRITE} else {})
  {
    forall e | e in es ensures e == READ || e == WRITE {
      match e case READ => case WRITE =>
    }
  }

  /** A stale report breaks the assert: READ was deregistered between the wait and the dispatch. */
  lemma StaleReport()
    ensures DispatchMask({WRITE}, {READ, WRITE}, true) == None
  {
    assert {WRITE} * {READ, WRITE} == {WRITE};
  }

  lemma FireOther(r: Registry, fd: nat, es: set<Event>, other: nat)
    requires other != fd
    ensures Events(FireAll(r, fd, es), other) == Events(r, other)
  {}
}
