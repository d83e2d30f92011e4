/**
 Wake-ups are neither lost nor duplicated. Whatever can make a fiber run again is a token: its slot in
 the event registry, its entry in the queue, or a worker that has taken the entry and waits for its mutex.
 Tokens of a fiber come from posts and registrations and go by resumes and delEvent, in every run. A fiber
 that is posted once and then waits only by addEvent followed by yield, and whose waits are not removed by
 delEvent, has exactly one token while suspended, whatever the other fibers do.
 */
module WakeTokens {
  import opened Prelude
  import opened TaskQueue
  import opened EventRegistry
  import opened Runtime
  import opened RuntimeSafety

  datatype Token = InSlot(key: Key) | InQueue(serial: nat) | AtMutex(worker: nat)

  predicate Waits(p: Phase, f: nat) {
    p == Locking(f) || p == Locked(f)
  }

  ghost function SlotTokens(s: State, f: nat): set<Token> {
    set k | k in s.registry.slots && s.registry.slots[k].body == FiberBody(f) :: InSlot(k)
  }

  ghost function QueueTokens(s: State, f: nat): set<Token> {
    set i | 0 <= i < |s.tasks| && s.tasks[i].body == FiberBody(f) :: InQueue(s.tasks[i].serial)
  }

  ghost function MutexTokens(s: State, f: nat): set<Token> {
    set w: nat | w < |s.workers| && Waits(s.workers[w].phase, f) :: AtMutex(w)
  }

  ghost function Tokens(s: State, f: nat): set<Token> {
    SlotTokens(s, f) + QueueTokens(s, f) + MutexTokens(s, f)
  }

  /** How many tokens a fiber is to have. */
  function Due(fiber: Fiber): nat {
    if fiber.posted && fiber.state != TERM && (fiber.state == RUNNING ==> fiber.armed) then 1 else 0
  }

  /** The fiber, once it exists, has the tokens due to it. */
  ghost predicate Linear(s: State, f: nat) {
    f < |s.fibers| ==>
      && |Tokens(s, f)| == Due(s.fibers[f])
      && (s.fibers[f].armed ==> s.fibers[f].state == RUNNING)
      && (!s.fibers[f].posted ==> s.fibers[f].state == READY)
  }

  predicate Executes(s: State, w: nat, f: nat) {
    w < |s.workers| && s.workers[w].phase == Exec(f)
  }

  predicate Holds(s: State, key: Key, f: nat) {
    key in s.registry.slots && s.registry.slots[key].body == FiberBody(f)
  }

  /** What the program in the fiber, and whoever posts the fiber, keep to; other fibers do as they like. */
  predicate Disciplined(s: State, step: Step, f: nat)
    requires Enabled(s, step)
  {
    match step
    case ExtPost(body, _) => body == FiberBody(f) ==> !s.fibers[f].posted
    case Post(_, body, _) => body == FiberBody(f) ==> !s.fibers[f].posted
    case AddEvent(w, _, callback) => callback.None? && Executes(s, w, f) ==> !s.fibers[f].armed
    case Yield(w) => Executes(s, w, f) ==> s.fibers[f].armed
    case Finish(w) => Executes(s, w, f) ==> !s.fibers[f].armed
    case DelEvent(_, key) => !Holds(s, key, f)
    case ExtDelEvent(key) => !Holds(s, key, f)
    case _ => true
  }

  /** A wake-up made: a post, a registration, or a callback's own fiber. */
  predicate Makes(s: State, step: Step, f: nat)
    requires Enabled(s, step)
  {
    match step
    case ExtPost(body, _) => body == FiberBody(f)
    case Post(_, body, _) => body == FiberBody(f)
    case AddEvent(w, _, callback) => callback.None? && Executes(s, w, f)
    case Take(w) =>
      f == |s.fibers| && FirstAllowed(s.tasks, w) < |s.tasks| && s.tasks[FirstAllowed(s.tasks, w)].body.CbBody?
    case _ => false
  }

  /** A wake-up used up: the fiber is resumed, or found finished, or its wait is removed. */
  predicate Uses(s: State, step: Step, f: nat)
    requires Enabled(s, step)
  {
    match step
    case Resume(w) => s.workers[w].phase.fiber == f
    case DelEvent(_, key) => Holds(s, key, f)
    case ExtDelEvent(key) => Holds(s, key, f)
    case _ => false
  }

  // ---------------------------------------------------------------- how edits move tokens

  lemma SameTokens(s: State, t: State, f: nat)
    requires t.registry.slots == s.registry.slots && t.tasks == s.tasks && |t.workers| == |s.workers|
    requires forall w | 0 <= w < |s.workers| :: Waits(t.workers[w].phase, f) <==> Waits(s.workers[w].phase, f)
    ensures Tokens(t, f) == Tokens(s, f)
  {
    assert MutexTokens(t, f) == MutexTokens(s, f);
    assert QueueTokens(t, f) == QueueTokens(s, f);
    assert SlotTokens(t, f) == SlotTokens(s, f);
  }

  lemma FreshSerial(s: State, f: nat)
    requires Ledger(s)
    ensures InQueue(s.pushed) !in Tokens(s, f)
  {
    BelowPushed(s);
  }

  lemma PushTokens(s: State, body: Body, thread: int, f: nat)
    ensures Tokens(Pushed(s, body, thread), f) == Tokens(s, f) + if body == FiberBody(f) then {InQueue(s.pushed)}
          else {}
  {
    var t := Pushed(s, body, thread);
    assert t.tasks == s.tasks + [Task(s.pushed, body, thread)];
    assert SlotTokens(t, f) == SlotTokens(s, f) && MutexTokens(t, f) == MutexTokens(s, f);
    assert QueueTokens(t, f) == QueueTokens(s, f) + (if body == FiberBody(f) then {InQueue(s.pushed)} else {}) by {
      assert t.tasks[|s.tasks|] == Task(s.pushed, body, thread);
      assert forall i | 0 <= i < |s.tasks| :: t.tasks[i] == s.tasks[i];
    }
  }

  lemma RemoveSlotTokens(s: State, t: State, key: Key, f: nat)
    requires key in s.registry.slots && t.registry.slots == s.registry.slots - {key}
    requires t.tasks == s.tasks && t.workers == s.workers
    ensures Tokens(t, f) == Tokens(s, f) - {InSlot(key)}
    ensures InSlot(key) in Tokens(s, f) <==> s.registry.slots[key].body == FiberBody(f)
  {
    assert SlotTokens(t, f) == SlotTokens(s, f) - {InSlot(key)};
    assert QueueTokens(t, f) == QueueTokens(s, f) && MutexTokens(t, f) == MutexTokens(s, f);
  }

  lemma AddSlotTokens(s: State, t: State, key: Key, body: Body, f: nat)
    requires key !in s.registry.slots && t.registry == Add(s.registry, key, SELF, body)
    requires t.tasks == s.tasks && t.workers == s.workers
    ensures Tokens(t, f) == Tokens(s, f) + if body == FiberBody(f) then {InSlot(key)} else {}
    ensures InSlot(key) !in Tokens(s, f)
  {
    assert t.registry.slots[key].body == body;
    assert SlotTokens(t, f) == SlotTokens(s, f) + if body == FiberBody(f) then {InSlot(key)} else {};
    assert QueueTokens(t, f) == QueueTokens(s, f) && MutexTokens(t, f) == MutexTokens(s, f);
  }

  /** An event that fires hands its token over to the queue. */
  lemma FireTokens(s: State, key: Key, f: nat)
    requires Ledger(s)
    ensures |Tokens(Fired(s, key), f)| == |Tokens(s, f)|
  {
    if key in s.registry.slots {
      hide Tokens, Ledger;
      var body := s.registry.slots[key].body;
      var u := Pushed(s, body, ANY);
      PushTokens(s, body, ANY, f);
      FreshSerial(s, f);
      RemoveSlotTokens(u, Fired(s, key), key, f);
      Exchange(Tokens(s, f), Tokens(Fired(s, key), f), InSlot(key), InQueue(s.pushed));
    }
  }

  /** One token goes and another comes, or neither does. */
  lemma Exchange(before: set<Token>, after: set<Token>, gone: Token, come: Token)
    requires come !in before && gone != come
    requires after == if gone in before then before - {gone} + {come} else before
    ensures |after| == |before|
  {}

  lemma TakeTokens(s: State, w: nat, f: nat)
    requires Ledger(s) && w < |s.workers| && s.workers[w].phase.Scan? && FirstAllowed(s.tasks, w) < |s.tasks|
    requires s.tasks[FirstAllowed(s.tasks, w)].body.FiberBody?
    ensures |Tokens(AfterTake(s, w), f)| == |Tokens(s, f)|
  {
    hide FirstAllowed, Without;
    var p, t := FirstAllowed(s.tasks, w), AfterTake(s, w);
    var task := s.tasks[p];
    var moves := task.body == FiberBody(f);
    assert SlotTokens(t, f) == SlotTokens(s, f);
    TakeMutexTokens(s, t, w, task.body.fiber, f);
    QueueTokensWithout(s, t, p, f);
    QueueTokenOf(s, p, f);
    Regroup(SlotTokens(s, f), QueueTokens(s, f), MutexTokens(s, f), InQueue(task.serial), AtMutex(w), moves);
    Exchange(Tokens(s, f), Tokens(t, f), InQueue(task.serial), AtMutex(w));
  }

  lemma TakeMutexTokens(s: State, t: State, w: nat, g: nat, f: nat)
    requires w < |s.workers| && s.workers[w].phase.Scan?
          && t.workers == s.workers[w := s.workers[w].(phase := Locking(g))]
    ensures MutexTokens(t, f) == MutexTokens(s, f) + if g == f then {AtMutex(w)} else {}
  {
    assert t.workers[w].phase == Locking(g);
    assert forall v | 0 <= v < |s.workers| && v != w :: t.workers[v] == s.workers[v];
  }

  lemma QueueTokenOf(s: State, p: nat, f: nat)
    requires p < |s.tasks| && Ordered(s.tasks)
    ensures InQueue(s.tasks[p].serial) in QueueTokens(s, f) <==> s.tasks[p].body == FiberBody(f)
  {
    if InQueue(s.tasks[p].serial) in QueueTokens(s, f) {
      var i :| 0 <= i < |s.tasks| && s.tasks[i].body == FiberBody(f)
            && InQueue(s.tasks[p].serial) == InQueue(s.tasks[i].serial);
      assert i == p;
    }
  }

  lemma Regroup(slots: set<Token>, queue: set<Token>, mutexes: set<Token>, gone: Token, come: Token, moves: bool)
    requires gone !in slots && gone !in mutexes && (gone in queue <==> moves)
    ensures slots + (queue - if moves then {gone} else {}) + (mutexes + if moves then {come} else {})
         == if gone in slots + queue + mutexes then slots + queue + mutexes - {gone} + {come}
             else slots + queue + mutexes
  {}

  lemma QueueTokensWithout(s: State, t: State, p: nat, f: nat)
    requires p < |s.tasks| && Ordered(s.tasks) && t.tasks == Without(s.tasks, p)
    ensures QueueTokens(t, f) == QueueTokens(s, f) - if s.tasks[p].body == FiberBody(f)
          then {InQueue(s.tasks[p].serial)} else {}
  {
    hide Without;
    var gone: set<Token> := if s.tasks[p].body == FiberBody(f) then {InQueue(s.tasks[p].serial)} else {};
    WithoutOrdered(s.tasks, p);
    forall x ensures x in QueueTokens(t, f) <==> x in QueueTokens(s, f) - gone {
      if x in QueueTokens(t, f) {
        var i :| 0 <= i < |t.tasks| && t.tasks[i].body == FiberBody(f) && x == InQueue(t.tasks[i].serial);
        assert t.tasks[i] in t.tasks;
      }
      if x in QueueTokens(s, f) - gone {
        var i :| 0 <= i < |s.tasks| && s.tasks[i].body == FiberBody(f) && x == InQueue(s.tasks[i].serial);
        assert s.tasks[i] in t.tasks;
      }
    }
  }

  /** A callback gets a new fiber, whose only token is the worker that took it. */
  lemma TakeCallbackTokens(s: State, t: State, w: nat, p: nat, f: nat)
    requires p < |s.tasks| && Ordered(s.tasks) && s.tasks[p].body.CbBody? && w < |s.workers| && s.workers[w].phase.Scan?
    requires t.tasks == Without(s.tasks, p) && t.registry == s.registry
    requires t.workers == s.workers[w := s.workers[w].(phase := Locking(|s.fibers|))]
    ensures Tokens(t, f) == Tokens(s, f) + if f == |s.fibers| then {AtMutex(w)} else {}
  {
    hide Without;
    QueueTokensWithout(s, t, p, f);
    TakeMutexTokens(s, t, w, |s.fibers|, f);
    assert SlotTokens(t, f) == SlotTokens(s, f);
  }

  lemma ResumeTokens(s: State, t: State, w: nat, p: Phase, f: nat)
    requires w < |s.workers| && s.workers[w].phase.Locked? && (p.Exec? || p.Return?)
    requires t.workers == s.workers[w := s.workers[w].(phase := p)]
    requires t.tasks == s.tasks && t.registry == s.registry
    ensures Tokens(t, f) == Tokens(s, f) - {AtMutex(w)}
    ensures AtMutex(w) in Tokens(s, f) <==> s.workers[w].phase.fiber == f
  {
    assert MutexTokens(t, f) == MutexTokens(s, f) - {AtMutex(w)};
    assert QueueTokens(t, f) == QueueTokens(s, f) && SlotTokens(t, f) == SlotTokens(s, f);
  }

  lemma FireAllTokens(s: State, fd: nat, es: set<Event>, f: nat)
    requires FairQueue(s)
    ensures |Tokens(FiredAll(s, fd, es), f)| == |Tokens(s, f)|
  {
    hide Tokens, Fired, Ledger, Discipline;
    var u := if READ in es then Fired(s, Key(fd, READ)) else s;
    LedgerOf(s);
    FireTokens(s, Key(fd, READ), f);
    FiredQueue(s, Key(fd, READ));
    LedgerOf(u);
    FireTokens(u, Key(fd, WRITE), f);
  }

  lemma LedgerOf(s: State)
    requires FairQueue(s)
    ensures Ledger(s)
  {}

  // ---------------------------------------------------------------- the balance of every step

  /** An event fires, or several. */
  predicate Fires(step: Step) {
    step.CancelEvent? || step.CancelAll? || step.ExtCancelEvent? || step.ExtCancelAll? || step.Dispatch?
  }

  /** The queue and the registry change otherwise, or a worker passes a fiber's mutex. */
  predicate Edits(step: Step) {
    || step.ExtPost? || step.Post? || step.PostExpired? || step.Take? || step.Resume?
    || step.AddEvent? || step.ExtAddEvent? || step.DelEvent? || step.ExtDelEvent?
  }

  ghost function Balance(s: State, step: Step, f: nat): int
    requires Enabled(s, step)
  {
    (if Makes(s, step, f) then 1 else 0) - if Uses(s, step, f) then 1 else 0
  }

  /** Whatever the fibers do, a step changes the number of tokens by what it makes and uses. */
  lemma TokenStep(s: State, step: Step, f: nat)
    requires FairQueue(s) && Enabled(s, step)
    ensures |Tokens(Next(s, step), f)| == |Tokens(s, f)| + Balance(s, step, f)
  {
    hide Tokens, FairQueue, Next, Enabled, FirstAllowed, Holds, Executes;
    if Fires(step) {
      FiringTokens(s, step, f);
    } else if Edits(step) {
      LedgerOf(s);
      EditTokens(s, step, f);
    } else {
      hide Tokens;
      OtherTokens(s, step, f);
    }
  }

  lemma FiringTokens(s: State, step: Step, f: nat)
    requires FairQueue(s) && Enabled(s, step) && Fires(step)
    ensures |Tokens(Next(s, step), f)| == |Tokens(s, f)|
  {
    hide Tokens, FairQueue, Ledger, Fired, FiredAll, Events;
    LedgerOf(s);
    if step.CancelEvent? || step.ExtCancelEvent? {
      FireTokens(s, step.key, f);
    } else if step.Dispatch? {
      FireAllTokens(s, step.fd, step.ready, f);
    } else {
      FireAllTokens(s, step.fd, Events(s.registry, step.fd), f);
    }
  }

  lemma OtherTokens(s: State, step: Step, f: nat)
    requires Enabled(s, step) && !Fires(step) && !Edits(step)
    ensures Tokens(Next(s, step), f) == Tokens(s, f)
  {
    hide Tokens, Next, Enabled;
    if Quiet(step) {
      QuietTokens(s, step, f);
    } else if step.Lock? || step.Unlock? || step.Yield? || step.Finish? {
      SwitchTokens(s, step, f);
    } else {
      PhaseTokens(s, step, f);
    }
  }

  lemma QuietTokens(s: State, step: Step, f: nat)
    requires Enabled(s, step) && !Fires(step) && !Edits(step) && Quiet(step)
    ensures Tokens(Next(s, step), f) == Tokens(s, f)
  {
    hide Tokens;
    SameTokens(s, Next(s, step), f);
  }

  lemma SwitchTokens(s: State, step: Step, f: nat)
    requires Enabled(s, step) && (step.Lock? || step.Unlock? || step.Yield? || step.Finish?)
    ensures Tokens(Next(s, step), f) == Tokens(s, f)
  {
    hide Tokens;
    SameTokens(s, Next(s, step), f);
  }

  lemma PhaseTokens(s: State, step: Step, f: nat)
    requires Enabled(s, step) && !Fires(step) && !Edits(step) && !Quiet(step)
    requires !step.Lock? && !step.Unlock? && !step.Yield? && !step.Finish?
    ensures Tokens(Next(s, step), f) == Tokens(s, f)
  {
    hide Tokens;
    SameTokens(s, Next(s, step), f);
  }

  lemma EditTokens(s: State, step: Step, f: nat)
    requires Ledger(s) && Enabled(s, step) && Edits(step)
    ensures |Tokens(Next(s, step), f)| == |Tokens(s, f)| + Balance(s, step, f)
  {
    hide Tokens, Ledger, Pushed, AfterTake, FirstAllowed;
    if step.ExtPost? || step.Post? {
      PushTokens(s, step.body, step.thread, f);
      FreshSerial(s, f);
    } else if step.PostExpired? {
      PostExpiredTokens(s, step.w, f);
    } else if step.Take? {
      TakeBalance(s, step.w, f);
    } else if step.Resume? {
      ResumeBalance(s, step.w, f);
    } else {
      hide Next, Enabled, Balance;
      SlotBalance(s, step, f);
    }
  }

  lemma ResumeBalance(s: State, w: nat, f: nat)
    requires Enabled(s, Resume(w))
    ensures |Tokens(Next(s, Resume(w)), f)| == |Tokens(s, f)| + Balance(s, Resume(w), f)
  {
    hide Tokens;
    var t := Next(s, Resume(w));
    ResumeTokens(s, t, w, t.workers[w].phase, f);
  }

  lemma SlotBalance(s: State, step: Step, f: nat)
    requires Enabled(s, step) && (step.AddEvent? || step.ExtAddEvent? || step.DelEvent? || step.ExtDelEvent?)
    ensures |Tokens(Next(s, step), f)| == |Tokens(s, f)| + Balance(s, step, f)
  {
    hide Tokens, Next, Enabled, Balance;
    if step.AddEvent? {
      AddBalance(s, step.w, step.key, step.callback, f);
    } else if step.ExtAddEvent? {
      ExtAddBalance(s, step.key, step.cb, f);
    } else {
      DropBalance(s, step, f);
    }
  }

  lemma AddBalance(s: State, w: nat, key: Key, callback: Option<nat>, f: nat)
    requires Enabled(s, AddEvent(w, key, callback))
    ensures |Tokens(Next(s, AddEvent(w, key, callback)), f)| == |Tokens(s, f)| +
          Balance(s, AddEvent(w, key, callback), f)
  {
    hide Tokens;
    var body := if callback.Some? then CbBody(callback.value) else FiberBody(s.workers[w].phase.fiber);
    AddSlotTokens(s, Next(s, AddEvent(w, key, callback)), key, body, f);
  }

  lemma ExtAddBalance(s: State, key: Key, cb: nat, f: nat)
    requires Enabled(s, ExtAddEvent(key, cb))
    ensures |Tokens(Next(s, ExtAddEvent(key, cb)), f)| == |Tokens(s, f)| + Balance(s, ExtAddEvent(key, cb), f)
  {
    hide Tokens;
    AddSlotTokens(s, Next(s, ExtAddEvent(key, cb)), key, CbBody(cb), f);
  }

  lemma DropBalance(s: State, step: Step, f: nat)
    requires Enabled(s, step) && (step.DelEvent? || step.ExtDelEvent?)
    ensures |Tokens(Next(s, step), f)| == |Tokens(s, f)| + Balance(s, step, f)
  {
    hide Tokens;
    var t := Next(s, step);
    assert t == s.(registry := Drop(s.registry, step.key));
    hide Next;
    if step.key in s.registry.slots {
      RemoveSlotTokens(s, t, step.key, f);
    } else {
      SameTokens(s, t, f);
    }
  }

  lemma PostExpiredTokens(s: State, w: nat, f: nat)
    requires Enabled(s, PostExpired(w))
    ensures Tokens(Next(s, PostExpired(w)), f) == Tokens(s, f)
  {
    hide Tokens;
    var u := Pushed(s, CbBody(s.workers[w].phase.cbs[0]), ANY);
    PushTokens(s, CbBody(s.workers[w].phase.cbs[0]), ANY, f);
    SameTokens(u, Next(s, PostExpired(w)), f);
  }

  lemma TakeBalance(s: State, w: nat, f: nat)
    requires Ledger(s) && Enabled(s, Take(w))
    ensures |Tokens(AfterTake(s, w), f)| == |Tokens(s, f)| + Balance(s, Take(w), f)
  {
    hide Tokens, Ledger, FirstAllowed, Without;
    var p := FirstAllowed(s.tasks, w);
    if p == |s.tasks| {
      SameTokens(s, AfterTake(s, w), f);
    } else if s.tasks[p].body.FiberBody? {
      TakeTokens(s, w, f);
    } else {
      OrderedOf(s);
      TakeCallbackTokens(s, AfterTake(s, w), w, p, f);
      ScanHasNone(s, w, f);
    }
  }

  lemma OrderedOf(s: State)
    requires Ledger(s)
    ensures Ordered(s.tasks)
  {}

  lemma ScanHasNone(s: State, w: nat, f: nat)
    requires w < |s.workers| && s.workers[w].phase.Scan?
    ensures AtMutex(w) !in Tokens(s, f)
  {}

  // ---------------------------------------------------------------- one fiber's discipline

  predicate SameFiber(x: Fiber, y: Fiber) { x.(mutex := None) == y.(mutex := None) }

  /** Steps by which a fiber's own state changes. */
  predicate Concerns(s: State, step: Step, f: nat) {
    || (step.ExtPost? && step.body == FiberBody(f))
    || (step.Post? && step.body == FiberBody(f))
    || (step.AddEvent? && step.callback.None? && Executes(s, step.w, f))
    || (step.Resume? && step.w < |s.workers| && s.workers[step.w].phase == Locked(f))
    || ((step.Yield? || step.Finish?) && Executes(s, step.w, f))
  }

  predicate HeldPosted(s: State, f: nat) {
    f < |s.fibers| && forall k | k in s.registry.slots && s.registry.slots[k].body == FiberBody(f) :: s.fibers[f].posted
  }

  lemma LinearPosted(s: State, f: nat)
    requires f < |s.fibers| && Linear(s, f)
    ensures HeldPosted(s, f)
  {
    forall k | k in s.registry.slots && s.registry.slots[k].body == FiberBody(f) ensures s.fibers[f].posted {
      assert InSlot(k) in SlotTokens(s, f);
      assert Tokens(s, f) != {};
    }
  }

  lemma FiredFiber(s: State, key: Key, f: nat)
    requires HeldPosted(s, f)
    ensures HeldPosted(Fired(s, key), f) && Fired(s, key).fibers[f] == s.fibers[f]
    ensures |Fired(s, key).fibers| == |s.fibers|
  {}

  lemma FiredAllFiber(s: State, fd: nat, es: set<Event>, f: nat)
    requires HeldPosted(s, f)
    ensures f < |FiredAll(s, fd, es).fibers| && FiredAll(s, fd, es).fibers[f] == s.fibers[f]
  {
    hide Fired, HeldPosted;
    FiredFiber(s, Key(fd, READ), f);
    FiredFiber(if READ in es then Fired(s, Key(fd, READ)) else s, Key(fd, WRITE), f);
  }

  /** No other step changes what a fiber has been through. */
  lemma FiberKept(s: State, step: Step, f: nat)
    requires HeldPosted(s, f) && Enabled(s, step) && !Concerns(s, step, f)
    ensures f < |Next(s, step).fibers| && SameFiber(Next(s, step).fibers[f], s.fibers[f])
  {
    if Fires(step) {
      hide Next, Enabled, HeldPosted, Concerns;
      FiringFiber(s, step, f);
    } else if Quiet(step) {
      hide Next, Enabled, Concerns;
      QuietKept(s, step, f);
    } else {
      hide Next, Enabled, Concerns;
      WorkerKept(s, step, f);
    }
  }

  lemma QuietKept(s: State, step: Step, f: nat)
    requires f < |s.fibers| && Enabled(s, step) && !Concerns(s, step, f) && !Fires(step) && Quiet(step)
    ensures f < |Next(s, step).fibers| && SameFiber(Next(s, step).fibers[f], s.fibers[f])
  {
    hide Fired, FiredAll, AfterTake, AfterResume, Add, Drop, Push;
    if step.ExtPost? || step.Post? {
      hide SetFiber;
    } else {
      hide Pushed;
    }
  }

  lemma WorkerKept(s: State, step: Step, f: nat)
    requires f < |s.fibers| && Enabled(s, step) && !Concerns(s, step, f) && !Quiet(step)
    ensures f < |Next(s, step).fibers| && SameFiber(Next(s, step).fibers[f], s.fibers[f])
  {
    hide FirstAllowed, Without, Fired, FiredAll, Push;
    if step.Take? {
    } else if step.Resume? {
      hide AfterTake;
    } else {
      hide AfterTake, AfterResume;
    }
  }

  lemma FiringFiber(s: State, step: Step, f: nat)
    requires HeldPosted(s, f) && Enabled(s, step) && Fires(step)
    ensures f < |Next(s, step).fibers| && Next(s, step).fibers[f] == s.fibers[f]
  {
    hide Fired, FiredAll, HeldPosted, Events;
    if step.CancelEvent? || step.ExtCancelEvent? {
      FiredFiber(s, step.key, f);
    } else if step.Dispatch? {
      FiredAllFiber(s, step.fd, step.ready, f);
    } else {
      FiredAllFiber(s, step.fd, Events(s.registry, step.fd), f);
    }
  }

  lemma UnknownHasNone(s: State, f: nat)
    requires Exclusive(s) && f >= |s.fibers|
    ensures Tokens(s, f) == {}
  {
    assert forall w | 0 <= w < |s.workers| :: s.workers[w].phase == Locked(f) ==> Held(s.workers[w].phase) == Some(f);
  }

  /** A fiber appears unposted, or as a callback's own on its way to a worker. */
  lemma FiberAppears(s: State, step: Step, f: nat)
    requires Exclusive(s) && Enabled(s, step) && |s.fibers| <= f
    ensures f < |Next(s, step).fibers| ==>
              Next(s, step).fibers[f] == Fiber(READY, None, Makes(s, step, f), false) && !Uses(s, step, f)
    ensures Disciplined(s, step, f)
  {
    hide FirstAllowed, Without, HoldersAgree, RunningAgree;
    UnknownDisciplined(s, step, f);
    if Fires(step) {
      hide Next, Enabled, Exclusive, Disciplined;
      FiringCount(s, step);
    } else if step.Take? {
      hide Disciplined, Exclusive;
    } else {
      hide Fired, FiredAll, AfterTake, Disciplined, Exclusive;
    }
  }

  lemma UnknownDisciplined(s: State, step: Step, f: nat)
    requires Exclusive(s) && Enabled(s, step) && |s.fibers| <= f
    ensures Disciplined(s, step, f)
  {}

  lemma FiringCount(s: State, step: Step)
    requires FibersKnown(s) && Enabled(s, step) && Fires(step)
    ensures |Next(s, step).fibers| == |s.fibers|
  {
    hide FibersKnown, SameControl, Fired, FiredAll, Events;
    if step.CancelEvent? || step.ExtCancelEvent? {
      FiredFrame(s, step.key);
    } else if step.Dispatch? {
      FiredAllFrame(s, step.fd, step.ready);
    } else {
      FiredAllFrame(s, step.fd, Events(s.registry, step.fd));
    }
  }

  /** A step of the fiber itself, or on it. */
  lemma OwnStep(s: State, step: Step, f: nat)
    requires Linear(s, f) && Exclusive(s) && f < |s.fibers| && Enabled(s, step) && Concerns(s, step, f)
    requires |Tokens(Next(s, step), f)| == |Tokens(s, f)| + Balance(s, step, f)
    ensures Linear(Next(s, step), f) <==> Disciplined(s, step, f)
  {
    hide Tokens, FirstAllowed, Without, FibersKnown, Fired, FiredAll, AfterTake, HoldersAgree;
    if step.ExtPost? || step.Post? {
      hide Exclusive;
    } else if step.Resume? {
      NotRunning(s, step.w, f);
      assert s.fibers[f].state != RUNNING;
      hide Exclusive;
    } else {
      assert s.fibers[f].state == RUNNING;
      hide Exclusive;
    }
  }

  /** A step that leaves the fiber as it is. */
  lemma OthersStep(s: State, step: Step, f: nat)
    requires Linear(s, f) && f < |s.fibers| && Enabled(s, step) && !Concerns(s, step, f)
    requires f < |Next(s, step).fibers| && SameFiber(Next(s, step).fibers[f], s.fibers[f])
    requires |Tokens(Next(s, step), f)| == |Tokens(s, f)| + Balance(s, step, f)
    ensures Linear(Next(s, step), f) <==> Disciplined(s, step, f)
  {
    hide Tokens, Next;
    assert Due(Next(s, step).fibers[f]) == Due(s.fibers[f]);
  }

  /**
   A fiber with the tokens due to it has them after a step if and only if the step keeps to its discipline,
   whatever the other fibers have done before.
   */
  lemma LinearStep(s: State, step: Step, f: nat)
    requires Linear(s, f) && Exclusive(s) && FairQueue(s) && Enabled(s, step)
    ensures Linear(Next(s, step), f) <==> Disciplined(s, step, f)
  {
    hide Tokens, Exclusive, FairQueue, Next, Enabled, Balance, Disciplined, Makes, Uses;
    TokenStep(s, step, f);
    if f >= |s.fibers| {
      UnknownHasNone(s, f);
      FiberAppears(s, step, f);
      NewStep(s, step, f);
    } else if Concerns(s, step, f) {
      OwnStep(s, step, f);
    } else {
      LinearPosted(s, f);
      FiberKept(s, step, f);
      OthersStep(s, step, f);
    }
  }

  lemma NewStep(s: State, step: Step, f: nat)
    requires Enabled(s, step) && f >= |s.fibers| && Tokens(s, f) == {}
    requires f < |Next(s, step).fibers| ==>
      Next(s, step).fibers[f] == Fiber(READY, None, Makes(s, step, f), false) && !Uses(s, step, f)
    requires |Tokens(Next(s, step), f)| == |Tokens(s, f)| + Balance(s, step, f)
    ensures Linear(Next(s, step), f)
  {
    hide Tokens, Next;
  }

  /** A fiber with the tokens due to it that is found at its mutex is READY, never TERM; resuming uses the token up. */
  lemma ResumeLinear(s: State, w: nat)
    requires Exclusive(s) && FairQueue(s) && Enabled(s, Resume(w)) && Linear(s, s.workers[w].phase.fiber)
    ensures var f := s.workers[w].phase.fiber;
            && s.fibers[f].state == READY && AtMutex(w) in Tokens(s, f)
            && Linear(Next(s, Resume(w)), f) && Tokens(Next(s, Resume(w)), f) == {}
  {
    hide Exclusive, FairQueue, Tokens;
    var f, t := s.workers[w].phase.fiber, Next(s, Resume(w));
    NotRunning(s, w, f);
    ResumeTokens(s, t, w, t.workers[w].phase, f);
    LinearStep(s, Resume(w), f);
    TokenStep(s, Resume(w), f);
  }

  // ---------------------------------------------------------------- every run

  /** Tokens made less tokens used. */
  ghost function RunBalance(s: State, steps: seq<Step>, f: nat): int
    requires LegalTrace(s, steps)
    decreases |steps|
  {
    if steps == [] then 0 else Balance(s, steps[0], f) + RunBalance(Next(s, steps[0]), steps[1..], f)
  }

  lemma {:induction false} BalanceRun(s: State, steps: seq<Step>, f: nat)
    requires FairQueue(s) && LegalTrace(s, steps)
    ensures |Tokens(RunAll(s, steps), f)| == |Tokens(s, f)| + RunBalance(s, steps, f)
    decreases |steps|
  {
    hide Tokens, FairQueue, Next, Enabled, Balance;
    if steps != [] {
      TokenStep(s, steps[0], f);
      FairQueueStep(s, steps[0]);
      BalanceRun(Next(s, steps[0]), steps[1..], f);
    }
  }

  /**
   In every run, whatever the fibers do, the wake-ups a fiber has are those made less those used: an event
   that fires, a cancel and a take only move them.
   */
  lemma TokenBalance(io: bool, n: nat, steps: seq<Step>, f: nat)
    requires LegalTrace(Init(io, n), steps)
    ensures |Tokens(RunAll(Init(io, n), steps), f)| == RunBalance(Init(io, n), steps, f)
  {
    var s := Init(io, n);
    assert Queued(s) == {} == Consumed(s);
    assert Tokens(s, f) == {};
    BalanceRun(s, steps, f);
  }

  ghost predicate DisciplinedTrace(s: State, steps: seq<Step>, f: nat)
    requires LegalTrace(s, steps)
    decreases |steps|
  {
    steps == [] || (Disciplined(s, steps[0], f) && DisciplinedTrace(Next(s, steps[0]), steps[1..], f))
  }

  lemma {:induction false} LinearRun(s: State, steps: seq<Step>, f: nat)
    requires Linear(s, f) && Exclusive(s) && FairQueue(s) && LegalTrace(s, steps) && DisciplinedTrace(s, steps, f)
    ensures Linear(RunAll(s, steps), f)
    decreases |steps|
  {
    hide Linear, Exclusive, FairQueue, Next, Disciplined, Enabled;
    if steps != [] {
      LinearStep(s, steps[0], f);
      ExclusiveStep(s, steps[0]);
      FairQueueStep(s, steps[0]);
      LinearRun(Next(s, steps[0]), steps[1..], f);
    }
  }

  /**
   In every interleaving of any number of workers, whatever the other fibers do, a disciplined fiber has
   exactly one token while it is suspended or about to be, none while it runs without having registered a
   wait, and none once it has finished or before it is posted.
   */
  lemma TokenLinearity(io: bool, n: nat, steps: seq<Step>, f: nat)
    requires LegalTrace(Init(io, n), steps) && DisciplinedTrace(Init(io, n), steps, f)
    requires f < |RunAll(Init(io, n), steps).fibers|
    ensures var s := RunAll(Init(io, n), steps);
            var fiber := s.fibers[f];
            |Tokens(s, f)| == match fiber.state
                              case TERM => 0
                              case RUNNING => if fiber.armed then 1 else 0
                              case READY => if fiber.posted then 1 else 0
  {
    var s := Init(io, n);
    InitExclusive(io, n);
    assert Queued(s) == {} == Consumed(s);
    LinearRun(s, steps, f);
  }
}
