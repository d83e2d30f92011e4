/**
 What the running system does, told by the steps of a run alone: which entries were posted, which timers are
 set, which callbacks the idle fibers have taken over and posted, and which calls the registry has seen.
 */
module RuntimeHistory {
  import opened Prelude
  import opened TaskQueue
  import opened EventRegistry
  import opened Runtime
  import S = RuntimeSafety

  // ---------------------------------------------------------------- the entries of the queue

  datatype Posting = Posting(body: Body, thread: int)

  /** The continuation registered under a key, for any thread. */
  function HeldAt(s: State, key: Key): seq<Posting> {
    if key in s.registry.slots then [Posting(s.registry.slots[key].body, -1)] else []
  }

  /** What a step posts: what it is asked to, the next expired callback, or what its events have woken, READ first. */
  function Posts(s: State, step: Step): seq<Posting>
    requires Enabled(s, step)
  {
    match step
    case ExtPost(body, thread) => [Posting(body, thread)]
    case Post(_, body, thread) => [Posting(body, thread)]
    case PostExpired(w) => [Posting(CbBody(s.workers[w].phase.cbs[0]), -1)]
    case CancelEvent(_, key) => HeldAt(s, key)
    case ExtCancelEvent(key) => HeldAt(s, key)
    case CancelAll(_, fd) => HeldAt(s, Key(fd, READ)) + HeldAt(s, Key(fd, WRITE))
    case ExtCancelAll(fd) => HeldAt(s, Key(fd, READ)) + HeldAt(s, Key(fd, WRITE))
    case Dispatch(_, fd, ready) =>
      (if READ in ready then HeldAt(s, Key(fd, READ)) else []) +
          (if WRITE in ready then HeldAt(s, Key(fd, WRITE)) else [])
    case _ => []
  }

  ghost function AllPosts(s: State, steps: seq<Step>): seq<Posting>
    requires LegalTrace(s, steps)
    decreases |steps|
  {
    if steps == [] then [] else Posts(s, steps[0]) + AllPosts(Next(s, steps[0]), steps[1..])
  }

  predicate IsPosting(task: Task, posts: seq<Posting>) {
    task.serial < |posts| && Posting(task.body, task.thread) == posts[task.serial]
  }

  /** Every entry, queued or taken, is the posting it is numbered after. */
  predicate AsPosted(s: State, posts: seq<Posting>) {
    && |posts| == s.pushed
    && (forall i | 0 <= i < |s.tasks| :: IsPosting(s.tasks[i], posts))
    && (forall i | 0 <= i < |s.taken| :: IsPosting(s.taken[i].task, posts))
  }

  lemma PushedPosting(s: State, body: Body, thread: int, posts: seq<Posting>)
    requires AsPosted(s, posts)
    ensures AsPosted(Pushed(s, body, thread), posts + [Posting(body, thread)])
  {
    var t, more := Pushed(s, body, thread), posts + [Posting(body, thread)];
    assert t.tasks == s.tasks + [Task(s.pushed, body, thread)];
    assert more[s.pushed] == Posting(body, thread);
    assert forall i | 0 <= i < |posts| :: more[i] == posts[i];
  }

  lemma SamePosting(s: State, t: State, posts: seq<Posting>)
    requires AsPosted(s, posts) && t.tasks == s.tasks && t.taken == s.taken && t.pushed == s.pushed
    ensures AsPosted(t, posts)
  {}

  lemma FiredPosting(s: State, key: Key, posts: seq<Posting>)
    requires AsPosted(s, posts)
    ensures AsPosted(Fired(s, key), posts + HeldAt(s, key))
    ensures forall k | k != key :: HeldAt(Fired(s, key), k) == HeldAt(s, k)
  {
    if key in s.registry.slots {
      var body := s.registry.slots[key].body;
      PushedPosting(s, body, -1, posts);
      SamePosting(Pushed(s, body, -1), Fired(s, key), posts + [Posting(body, -1)]);
    } else {
      assert posts + [] == posts;
    }
  }

  lemma FiredAllPosting(s: State, fd: nat, es: set<Event>, posts: seq<Posting>)
    requires AsPosted(s, posts)
    ensures AsPosted(FiredAll(s, fd, es), posts
                       + ((if READ in es then HeldAt(s, Key(fd, READ)) else [])
                          + (if WRITE in es then HeldAt(s, Key(fd, WRITE)) else [])))
  {
    hide AsPosted, Fired, HeldAt;
    var r, w := Key(fd, READ), Key(fd, WRITE);
    var u := if READ in es then Fired(s, r) else s;
    var first := if READ in es then HeldAt(s, r) else [];
    FiredPosting(s, r, posts);
    assert posts + [] == posts;
    FiredPosting(u, w, posts + first);
    assert posts + first + HeldAt(s, w) == posts + (first + HeldAt(s, w));
    assert first + [] == first;
  }

  lemma TakenPosting(s: State, w: nat, posts: seq<Posting>)
    requires AsPosted(s, posts) && w < |s.workers|
    ensures AsPosted(AfterTake(s, w), posts)
  {
    var p := FirstAllowed(s.tasks, w);
    if p < |s.tasks| {
      var t := AfterTake(s, w);
      assert t.taken == s.taken + [Taken(s.tasks[p], w)];
      assert forall i | 0 <= i < |t.tasks| :: t.tasks[i] == s.tasks[if i < p then i else i + 1];
    }
  }

  lemma HeldEvents(s: State, fd: nat)
    ensures READ in Events(s.registry, fd) <==> Key(fd, READ) in s.registry.slots
    ensures WRITE in Events(s.registry, fd) <==> Key(fd, WRITE) in s.registry.slots
  {}

  predicate Queues(step: Step) {
    || step.ExtPost? || step.Post? || step.PostExpired? || step.Take? || step.Dispatch?
    || step.CancelEvent? || step.ExtCancelEvent? || step.CancelAll? || step.ExtCancelAll?
  }

  lemma PostsStep(s: State, step: Step, posts: seq<Posting>)
    requires AsPosted(s, posts) && Enabled(s, step)
    ensures AsPosted(Next(s, step), posts + Posts(s, step))
  {
    hide AsPosted, Pushed, Fired, FiredAll, AfterTake, Events, HeldAt, FirstAllowed;
    if Queues(step) {
      QueuePosts(s, step, posts);
    } else {
      assert posts + [] == posts;
      hide Next, Enabled;
      QueueLeft(s, step);
      SamePosting(s, Next(s, step), posts);
    }
  }

  lemma QueueLeft(s: State, step: Step)
    requires Enabled(s, step) && !Queues(step)
    ensures var t := Next(s, step); t.tasks == s.tasks && t.taken == s.taken && t.pushed == s.pushed
  {
    hide Pushed, Fired, FiredAll, AfterTake, AfterResume;
    if step.Resume? { ResumedQueue(s, step.w, s.workers[step.w].phase.fiber); }
  }

  lemma ResumedQueue(s: State, w: nat, f: nat)
    requires w < |s.workers| && f < |s.fibers|
    ensures var t := AfterResume(s, w, f); t.tasks == s.tasks && t.taken == s.taken && t.pushed == s.pushed
  {}

  lemma QueuePosts(s: State, step: Step, posts: seq<Posting>)
    requires AsPosted(s, posts) && Enabled(s, step) && Queues(step)
    ensures AsPosted(Next(s, step), posts + Posts(s, step))
  {
    hide AsPosted, Pushed, Fired, FiredAll, AfterTake, Events, FirstAllowed;
    if step.ExtPost? || step.Post? {
      PushedPosting(s, step.body, step.thread, posts);
    } else if step.PostExpired? {
      var body := CbBody(s.workers[step.w].phase.cbs[0]);
      PushedPosting(s, body, -1, posts);
      SamePosting(Pushed(s, body, -1), Next(s, step), posts + [Posting(body, -1)]);
    } else if step.Take? {
      assert posts + [] == posts;
      TakenPosting(s, step.w, posts);
    } else if step.CancelEvent? || step.ExtCancelEvent? {
      FiredPosting(s, step.key, posts);
    } else if step.Dispatch? {
      FiredAllPosting(s, step.fd, step.ready, posts);
    } else {
      HeldEvents(s, step.fd);
      FiredAllPosting(s, step.fd, Events(s.registry, step.fd), posts);
    }
  }

  lemma {:induction false} PostsRun(s: State, steps: seq<Step>, posts: seq<Posting>)
    requires AsPosted(s, posts) && LegalTrace(s, steps)
    ensures AsPosted(RunAll(s, steps), posts + AllPosts(s, steps))
    decreases |steps|
  {
    hide AsPosted, Next, Enabled, Posts;
    if steps != [] {
      var t := Next(s, steps[0]);
      PostsStep(s, steps[0], posts);
      PostsRun(t, steps[1..], posts + Posts(s, steps[0]));
      assert posts + Posts(s, steps[0]) + AllPosts(t, steps[1..]) == posts + AllPosts(s, steps);
    } else {
      assert posts + [] == posts;
    }
  }

  /**
   Over every run the entries in the queue and the entries taken are what was posted, each with the body and
   the thread it was posted with, numbered in the order of the posts.
   */
  lemma EntriesAsPosted(io: bool, n: nat, steps: seq<Step>)
    requires LegalTrace(Init(io, n), steps)
    ensures AsPosted(RunAll(Init(io, n), steps), AllPosts(Init(io, n), steps))
  {
    PostsRun(Init(io, n), steps, []);
    assert [] + AllPosts(Init(io, n), steps) == AllPosts(Init(io, n), steps);
  }

  // ---------------------------------------------------------------- timers

  /** The callback a timer is set with, going by the steps: adding sets it, a cancel and a last expiry unset it. */
  ghost function SetAfter(was: Option<nat>, steps: seq<Step>, timer: nat): Option<nat>
    decreases |steps|
  {
    if steps == [] then was
    else
      var now := match steps[0]
        case ExtAddTimer(id, cb) => if id == timer then Some(cb) else was
        case AddTimer(_, id, cb) => if id == timer then Some(cb) else was
        case ExtCancelTimer(id) => if id == timer then None else was
        case CancelTimer(_, id) => if id == timer then None else was
        case Expire(_, due, recurring) => if timer in due && timer !in recurring then None else was
        case _ => was;
      SetAfter(now, steps[1..], timer)
  }

  function SetIn(s: State, timer: nat): Option<nat> {
    if timer in s.timers then Some(s.timers[timer]) else None
  }

  lemma SetStep(s: State, step: Step, timer: nat)
    requires Enabled(s, step)
    ensures SetIn(Next(s, step), timer) == SetAfter(SetIn(s, timer), [step], timer)
  {
    assert [step][1..] == [];
    hide Pushed, Fired, FiredAll, AfterTake, AfterResume;
    if step.ExtPost? || step.Post? {
      PushedTimers(s, step.body, step.thread);
    } else if step.PostExpired? {
      PushedTimers(s, CbBody(s.workers[step.w].phase.cbs[0]), ANY);
    } else if step.Take? || step.Resume? {
      WorkerTimers(s, step);
    } else if Queues(step) {
      FiringTimers(s, step);
    } else if step.Expire? {
      assert timer in step.due <==> exists i :: 0 <= i < |step.due| && step.due[i] == timer;
    }
  }

  lemma PushedTimers(s: State, body: Body, thread: int)
    ensures Pushed(s, body, thread).timers == s.timers
  {}

  lemma WorkerTimers(s: State, step: Step)
    requires Enabled(s, step) && (step.Take? || step.Resume?)
    ensures Next(s, step).timers == s.timers
  {}

  lemma FiringTimers(s: State, step: Step)
    requires Enabled(s, step)
    requires step.Dispatch? || step.CancelEvent? || step.ExtCancelEvent? || step.CancelAll? || step.ExtCancelAll?
    ensures Next(s, step).timers == s.timers
  {
    hide Pushed, Events;
    forall key: Key, u: State ensures Fired(u, key).timers == u.timers {
      if key in u.registry.slots { PushedTimers(u, u.registry.slots[key].body, ANY); }
    }
  }

  lemma {:induction false} SetRun(s: State, steps: seq<Step>, timer: nat)
    requires LegalTrace(s, steps)
    ensures SetIn(RunAll(s, steps), timer) == SetAfter(SetIn(s, timer), steps, timer)
    decreases |steps|
  {
    hide Next, Enabled;
    if steps != [] {
      SetStep(s, steps[0], timer);
      assert [steps[0]][1..] == [];
      SetRun(Next(s, steps[0]), steps[1..], timer);
    }
  }

  /** Over every run a timer is set, with its callback, exactly as the steps have last set it. */
  lemma TimersAsSet(io: bool, n: nat, steps: seq<Step>, timer: nat)
    requires LegalTrace(Init(io, n), steps)
    ensures SetIn(RunAll(Init(io, n), steps), timer) == SetAfter(None, steps, timer)
  {
    SetRun(Init(io, n), steps, timer);
  }

  // ---------------------------------------------------------------- expired callbacks

  /** The callbacks a worker takes over in listExpireCb: those of just the timers that are due, in order. */
  function Handed(s: State, step: Step, w: nat): seq<nat>
    requires Enabled(s, step)
  {
    if step.Expire? && step.w == w then seq(|step.due|, i requires 0 <= i < |step.due| => s.timers[step.due[i]]) else []
  }

  /** The entries by which the queue grows as a worker posts expired callbacks. */
  function Delivered(s: State, step: Step, w: nat): seq<Task>
    requires Enabled(s, step)
  {
    var t := Next(s, step);
    if step == PostExpired(w) && |s.tasks| <= |t.tasks| then t.tasks[|s.tasks|..] else []
  }

  ghost function AllHanded(s: State, steps: seq<Step>, w: nat): seq<nat>
    requires LegalTrace(s, steps)
    decreases |steps|
  {
    if steps == [] then [] else Handed(s, steps[0], w) + AllHanded(Next(s, steps[0]), steps[1..], w)
  }

  ghost function AllDelivered(s: State, steps: seq<Step>, w: nat): seq<Task>
    requires LegalTrace(s, steps)
    decreases |steps|
  {
    if steps == [] then [] else Delivered(s, steps[0], w) + AllDelivered(Next(s, steps[0]), steps[1..], w)
  }

  /** What a worker has still to post. */
  function Left(s: State, w: nat): seq<nat> {
    if w < |s.workers| && s.workers[w].phase.IdleWork? then s.workers[w].phase.cbs else []
  }

  /** The callbacks owed are those delivered, as entries for any thread, and then those left. */
  predicate PaidOut(owed: seq<nat>, entries: seq<Task>, left: seq<nat>) {
    && |owed| == |entries| + |left|
    && (forall i | 0 <= i < |entries| :: entries[i].body == CbBody(owed[i]) && entries[i].thread == -1)
    && (forall i | 0 <= i < |left| :: left[i] == owed[|entries| + i])
  }

  lemma HandOver(s: State, step: Step, w: nat)
    requires Enabled(s, step)
    ensures PaidOut(Left(s, w) + Handed(s, step, w), Delivered(s, step, w), Left(Next(s, step), w))
  {
    hide Pushed, Fired, FiredAll, AfterTake, AfterResume, FirstAllowed;
    var t := Next(s, step);
    if step == PostExpired(w) {
      PushedEntry(s, CbBody(s.workers[w].phase.cbs[0]), ANY);
    } else {
      LeftAfter(s, step, w);
    }
  }

  lemma PushedEntry(s: State, body: Body, thread: int)
    ensures var t := Pushed(s, body, thread);
            t.tasks == s.tasks + [Task(s.pushed, body, thread)] && t.workers == s.workers
  {}

  lemma LeftAfter(s: State, step: Step, w: nat)
    requires Enabled(s, step) && step != PostExpired(w)
    ensures Left(Next(s, step), w) == Left(s, w) + Handed(s, step, w)
  {
    hide Next, Enabled;
    if S.Quiet(step) {
      S.QuietWorkers(s, step);
    } else {
      S.OwnPhase(s, step);
      if step.w == w { OwnLeft(s, step, w); }
    }
  }

  lemma OwnLeft(s: State, step: Step, w: nat)
    requires Enabled(s, step) && !S.Quiet(step) && step.w == w && !step.PostExpired?
    ensures Left(Next(s, step), w) == Left(s, w) + Handed(s, step, w)
  {
    if step.Take? {
      hide FirstAllowed, Without;
    } else if step.Resume? {
      hide AfterTake;
    } else {
      hide AfterTake, AfterResume;
    }
  }

  lemma PaidInTurn(owed: seq<nat>, entries: seq<Task>, left: seq<nat>, more: seq<nat>, next: seq<Task>, last: seq<nat>)
    requires PaidOut(owed, entries, left) && PaidOut(left + more, next, last)
    ensures PaidOut(owed + more, entries + next, last)
  {
    var all, total := entries + next, owed + more;
    forall i | 0 <= i < |all| ensures all[i].body == CbBody(total[i]) && all[i].thread == -1 {
      if i >= |entries| { assert (left + more)[i - |entries|] == total[i]; }
    }
    forall i | 0 <= i < |last| ensures last[i] == total[|all| + i] {
      assert (left + more)[|next| + i] == total[|all| + i];
    }
  }

  lemma {:induction false} HandOverRun(s: State, steps: seq<Step>, w: nat)
    requires LegalTrace(s, steps)
    ensures PaidOut(Left(s, w) + AllHanded(s, steps, w), AllDelivered(s, steps, w), Left(RunAll(s, steps), w))
    decreases |steps|
  {
    hide Next, Enabled, Handed, Delivered, Left, PaidOut;
    if steps == [] {
      NothingOwed(Left(s, w));
    } else {
      var t := Next(s, steps[0]);
      HandOver(s, steps[0], w);
      HandOverRun(t, steps[1..], w);
      var rest := AllHanded(t, steps[1..], w);
      PaidInTurn(Left(s, w) + Handed(s, steps[0], w), Delivered(s, steps[0], w), Left(t, w), rest,
                 AllDelivered(t, steps[1..], w), Left(RunAll(t, steps[1..]), w));
      assert Left(s, w) + Handed(s, steps[0], w) + rest == Left(s, w) + AllHanded(s, steps, w);
    }
  }

  lemma NothingOwed(left: seq<nat>)
    ensures PaidOut(left + [], [], left)
  {}

  /**
   Over every run the callbacks a worker has taken over from expired timers are, in order and each once,
   those it has posted, as entries for any thread, followed by those it still has to post.
   */
  lemma ExpiredArePosted(io: bool, n: nat, steps: seq<Step>, w: nat)
    requires LegalTrace(Init(io, n), steps)
    ensures PaidOut(AllHanded(Init(io, n), steps, w), AllDelivered(Init(io, n), steps, w),
                    Left(RunAll(Init(io, n), steps), w))
  {
    var s := Init(io, n);
    HandOverRun(s, steps, w);
    assert Left(s, w) == [];
    assert [] + AllHanded(s, steps, w) == AllHanded(s, steps, w);
  }

  // ---------------------------------------------------------------- the registry

  /** The calls on the registry that a step makes. */
  function Calls(s: State, step: Step): seq<Op>
    requires Enabled(s, step)
  {
    match step
    case ExtAddEvent(key, cb) => [AddOp(key, SELF, CbBody(cb), true)]
    case AddEvent(w, key, callback) =>
      [AddOp(key, SELF, if callback.Some? then CbBody(callback.value) else FiberBody(s.workers[w].phase.fiber), true)]
    case DelEvent(_, key) => [DelOp(key, true)]
    case ExtDelEvent(key) => [DelOp(key, true)]
    case CancelEvent(_, key) => [CancelOp(key, true)]
    case ExtCancelEvent(key) => [CancelOp(key, true)]
    case CancelAll(_, fd) => [CancelAllOp(fd, true)]
    case ExtCancelAll(fd) => [CancelAllOp(fd, true)]
    case Dispatch(_, fd, ready) => [ReportOp(fd, ready, true)]
    case _ => []
  }

  ghost function AllCalls(s: State, steps: seq<Step>): seq<Op>
    requires LegalTrace(s, steps)
    decreases |steps|
  {
    if steps == [] then [] else Calls(s, steps[0]) + AllCalls(Next(s, steps[0]), steps[1..])
  }

  lemma CallsStep(s: State, step: Step)
    requires Enabled(s, step)
    ensures LegalRun(s.registry, Calls(s, step)) && Next(s, step).registry == Run(s.registry, Calls(s, step))
  {
    if Calls(s, step) == [] {
      RegistryLeft(s, step);
    } else {
      var op := Calls(s, step)[0];
      assert Calls(s, step) == [op];
      RegistryCalled(s, step, op);
      OneCall(s.registry, op);
    }
  }

  lemma OneCall(r: Registry, op: Op)
    requires Legal(r, op)
    ensures LegalRun(r, [op]) && Run(r, [op]) == Apply(r, op)
  {
    assert [op][1..] == [];
  }

  lemma RegistryLeft(s: State, step: Step)
    requires Enabled(s, step) && Calls(s, step) == []
    ensures Next(s, step).registry == s.registry
  {
    if S.Quiet(step) || step.Take? || step.PostExpired? {
      QueueRegistry(s, step);
    } else {
      hide Pushed, Fired, FiredAll, AfterTake, Calls;
    }
  }

  lemma QueueRegistry(s: State, step: Step)
    requires Enabled(s, step) && Calls(s, step) == [] && (S.Quiet(step) || step.Take? || step.PostExpired?)
    ensures Next(s, step).registry == s.registry
  {
    hide Pushed, Fired, FiredAll, AfterTake, AfterResume;
    if step.Take? {
      TakenRegistry(s, step.w);
    } else if step.ExtPost? || step.Post? {
      PushedRegistry(s, step.body, step.thread);
    } else if step.PostExpired? {
      PushedRegistry(s, CbBody(s.workers[step.w].phase.cbs[0]), ANY);
    }
  }

  lemma TakenRegistry(s: State, w: nat)
    requires w < |s.workers|
    ensures AfterTake(s, w).registry == s.registry
  {}

  lemma RegistryCalled(s: State, step: Step, op: Op)
    requires Enabled(s, step) && Calls(s, step) == [op]
    ensures Legal(s.registry, op) && Next(s, step).registry == Apply(s.registry, op)
  {
    hide Pushed, Events;
    forall key: Key, u: State ensures Fired(u, key).registry == Fire(u.registry, key) {
      if key in u.registry.slots { PushedRegistry(u, u.registry.slots[key].body, ANY); }
    }
    if step.Dispatch? {
      ReadyRegistered(s.registry, step.fd, step.ready);
    }
  }

  lemma PushedRegistry(s: State, body: Body, thread: int)
    ensures Pushed(s, body, thread).registry == s.registry
  {}

  lemma ReadyRegistered(r: Registry, fd: nat, ready: set<Event>)
    requires ready <= Events(r, fd)
    ensures Events(r, fd) * ready == ready
    ensures ready == {} ==> FireAll(r, fd, ready) == r
  {}

  lemma {:induction false} RunJoined(r: Registry, ops: seq<Op>, more: seq<Op>)
    requires LegalRun(r, ops) && LegalRun(Run(r, ops), more)
    ensures LegalRun(r, ops + more) && Run(r, ops + more) == Run(Run(r, ops), more)
    decreases |ops|
  {
    if ops == [] {
      assert [] + more == more;
    } else {
      assert (ops + more)[1..] == ops[1..] + more;
      RunJoined(Apply(r, ops[0]), ops[1..], more);
    }
  }

  lemma {:induction false} CallsRun(s: State, steps: seq<Step>)
    requires LegalTrace(s, steps)
    ensures LegalRun(s.registry, AllCalls(s, steps))
    ensures RunAll(s, steps).registry == Run(s.registry, AllCalls(s, steps))
    decreases |steps|
  {
    hide Next, Enabled, Calls;
    if steps != [] {
      CallsStep(s, steps[0]);
      CallsRun(Next(s, steps[0]), steps[1..]);
      RunJoined(s.registry, Calls(s, steps[0]), AllCalls(Next(s, steps[0]), steps[1..]));
    }
  }

  /**
   Over every run the registry is the one its calls make of the empty one, so that what has been posted is
   the fiber or callback that its addEvent was called with, and what is registered is so under its key.
   */
  lemma RegistryAsCalled(io: bool, n: nat, steps: seq<Step>)
    requires LegalTrace(Init(io, n), steps)
    ensures var ops := AllCalls(Init(io, n), steps);
            && LegalRun(EMPTY, ops)
            && RunAll(Init(io, n), steps).registry == Run(EMPTY, ops)
            && Faithful(RunAll(Init(io, n), steps).registry, Asked(EMPTY, ops))
  {
    CallsRun(Init(io, n), steps);
    PostedAsAsked(AllCalls(Init(io, n), steps));
  }

  // ---------------------------------------------------------------- the program of a worker

  /**
   Where a worker goes from each place. It takes the first task it may, or looks at its idle fiber when
   there is none; it locks the task's fiber, runs it unless it has finished, unlocks it and scans again; in its
   idle fiber it reads the timers first, if it has any to read, then the pending events, then the queue, goes on
   to its idle work at the first thing it finds, and has done with it when it finds nothing.
   */
  lemma WorkerFlow(s: State, step: Step)
    requires Enabled(s, step) && Actor(step).Some?
    ensures var w, t := step.w, Next(s, step);
            && w < |t.workers|
            && var p, q := s.workers[w], t.workers[w];
            && var first := FirstAllowed(s.tasks, w);
            && (step.Take? && first == |s.tasks| ==> q == p.(phase := Decide))
            && (step.Take? && first < |s.tasks| && s.tasks[first].body.FiberBody? ==>
                  q == p.(phase := Locking(s.tasks[first].body.fiber)))
            && (step.Take? && first < |s.tasks| && s.tasks[first].body.CbBody? ==>
                  && q == p.(phase := Locking(|s.fibers|))
                  && t.fibers == s.fibers + [Fiber(READY, None, true, false)])
            && (step.Lock? ==> q == p.(phase := Locked(p.phase.fiber)))
            && (step.Resume? ==>
                  q == p.(phase := if s.fibers[p.phase.fiber].state == TERM then Return(p.phase.fiber)
                                   else Exec(p.phase.fiber)))
            && (step.Yield? || step.Finish? ==> q == p.(phase := Return(p.phase.fiber)))
            && (step.Unlock? ==> q == p.(phase := Unlocked))
            && (step.Retire? || step.IdleYield? ==> q == p.(phase := Scan))
            && (step.EnterIdle? ==>
                  q == p.(phase := if p.idleTerm then Broken else if s.io then CheckTimers else CheckTasks))
            && (step.ReadTimers? ==> q == p.(phase := if s.timers == map[] then CheckPending else IdleWork([])))
            && (step.ReadPending? ==> q == p.(phase := if s.registry.slots == map[] then CheckTasks else IdleWork([])))
            && (step.ReadTasks? ==>
                  q == if s.stopping && s.tasks == [] && s.active == 0 then Worker(Scan, true)
                       else p.(phase := IdleWork([])))
  {
    hide FirstAllowed, Without;
    if step.Take? {
    } else if S.Quiet(step) {
      hide AfterTake, Pushed, Fired, FiredAll, Next, Enabled;
      S.QuietWorkers(s, step);
    } else {
      hide AfterTake, Pushed;
      if step.PostExpired? { PushedEntry(s, CbBody(s.workers[step.w].phase.cbs[0]), ANY); }
    }
  }

  /** What running does to a fiber: its worker alone marks it RUNNING, READY or TERM. */
  lemma FiberFlow(s: State, step: Step, f: nat)
    requires S.Exclusive(s) && Enabled(s, step) && f < |s.fibers|
    ensures f < |Next(s, step).fibers|
    ensures var was, now := s.fibers[f].state, Next(s, step).fibers[f].state;
            now == if step.Resume? && s.workers[step.w].phase.fiber == f && was != TERM then RUNNING
                  else if step.Yield? && s.workers[step.w].phase.fiber == f then READY
                  else if step.Finish? && s.workers[step.w].phase.fiber == f then TERM
                  else was
  {
    if S.Quiet(step) {
      hide Next, Enabled, S.FibersKnown;
      S.QuietFrame(s, step);
    } else {
      hide S.Exclusive;
      OwnFlow(s, step, f);
    }
  }

  lemma OwnFlow(s: State, step: Step, f: nat)
    requires Enabled(s, step) && f < |s.fibers| && !S.Quiet(step)
    ensures f < |Next(s, step).fibers|
    ensures var was, now := s.fibers[f].state, Next(s, step).fibers[f].state;
            now == if step.Resume? && s.workers[step.w].phase.fiber == f && was != TERM then RUNNING
                  else if step.Yield? && s.workers[step.w].phase.fiber == f then READY
                  else if step.Finish? && s.workers[step.w].phase.fiber == f then TERM
                  else was
  {
    hide FirstAllowed, Without, Fired, FiredAll, Push;
    if step.Take? {
    } else if step.Resume? {
      hide AfterTake;
    } else {
      hide AfterTake, AfterResume;
    }
  }
}
