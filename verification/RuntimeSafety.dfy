/**
 What holds in every reachable state of the runtime, for any number of workers: a fiber is executed by
 at most one worker, under its mutex; the active counter counts the workers with a task; every entry is
 taken once, in the order posted; a finished fiber stays finished.
 */
module RuntimeSafety {
  import opened Prelude
  import opened TaskQueue
  import opened EventRegistry
  import opened Runtime

  // ---------------------------------------------------------------- mutual exclusion

  /** The fiber whose mutex a worker holds in a phase. */
  function Held(p: Phase): (f: Option<nat>) {
    match p
    case Locked(f) => Some(f)
    case Exec(f) => Some(f)
    case Return(f) => Some(f)
    case _ => None
  }

  ghost predicate HoldersAgree(s: State) {
    && (forall f | 0 <= f < |s.fibers| && s.fibers[f].mutex.Some? ::
          s.fibers[f].mutex.value < |s.workers| && Held(s.workers[s.fibers[f].mutex.value].phase) == Some(f))
    && (forall w | 0 <= w < |s.workers| && Held(s.workers[w].phase).Some? ::
          var f := Held(s.workers[w].phase).value;
          f < |s.fibers| && s.fibers[f].mutex == Some(w))
  }

  ghost predicate RunningAgree(s: State) {
    && (forall w | 0 <= w < |s.workers| && s.workers[w].phase.Exec? ::
          s.workers[w].phase.fiber < |s.fibers| && s.fibers[s.workers[w].phase.fiber].state == RUNNING)
    && (forall f | 0 <= f < |s.fibers| && s.fibers[f].state == RUNNING ::
          && s.fibers[f].mutex.Some?
          && s.fibers[f].mutex.value < |s.workers|
          && s.workers[s.fibers[f].mutex.value].phase == Exec(f))
  }

  ghost predicate FibersKnown(s: State) {
    && (forall w | 0 <= w < |s.workers| && s.workers[w].phase.Locking? :: s.workers[w].phase.fiber < |s.fibers|)
    && (forall i | 0 <= i < |s.tasks| :: BodyKnown(s, s.tasks[i].body))
    && (forall k | k in s.registry.slots :: BodyKnown(s, s.registry.slots[k].body))
  }

  ghost predicate Exclusive(s: State) {
    HoldersAgree(s) && RunningAgree(s) && FibersKnown(s)
  }

  /** Edits of queue, registry and history fields only. */
  ghost predicate SameControl(s: State, t: State) {
    && t.workers == s.workers
    && |t.fibers| >= |s.fibers|
    && (forall f | 0 <= f < |s.fibers| ::
          t.fibers[f].state == s.fibers[f].state && t.fibers[f].mutex == s.fibers[f].mutex)
    && (forall f | |s.fibers| <= f < |t.fibers| :: t.fibers[f].state == READY && t.fibers[f].mutex == None)
  }

  lemma ControlFrame(s: State, t: State)
    requires HoldersAgree(s) && RunningAgree(s) && SameControl(s, t)
    ensures HoldersAgree(t) && RunningAgree(t)
  {}

  lemma PushedFrame(s: State, body: Body, thread: int)
    requires BodyKnown(s, body)
    ensures SameControl(s, Pushed(s, body, thread)) && |Pushed(s, body, thread).fibers| == |s.fibers|
    ensures FibersKnown(s) ==> FibersKnown(Pushed(s, body, thread))
  {}

  lemma FiredFrame(s: State, key: Key)
    requires FibersKnown(s)
    ensures var t := Fired(s, key);
            SameControl(s, t) && |t.fibers| == |s.fibers| && FibersKnown(t)
  {
    if key in s.registry.slots {
      PushedFrame(s, s.registry.slots[key].body, ANY);
    }
  }

  lemma FiredAllFrame(s: State, fd: nat, es: set<Event>)
    requires FibersKnown(s)
    ensures var t := FiredAll(s, fd, es);
            SameControl(s, t) && |t.fibers| == |s.fibers| && FibersKnown(t)
  {
    FiredFrame(s, Key(fd, READ));
    FiredFrame(if READ in es then Fired(s, Key(fd, READ)) else s, Key(fd, WRITE));
  }

  /** Steps that move no worker and touch neither states nor mutexes of fibers. */
  predicate Quiet(step: Step) {
    match step
    case ExtPost(_, _) => true
    case ExtStop => true
    case ExtAddEvent(_, _) => true
    case ExtAddTimer(_, _) => true
    case ExtDelEvent(_) => true
    case ExtCancelEvent(_) => true
    case ExtCancelAll(_) => true
    case ExtCancelTimer(_) => true
    case NewFiber => true
    case Post(_, _, _) => true
    case AddEvent(_, _, _) => true
    case DelEvent(_, _) => true
    case CancelEvent(_, _) => true
    case CancelAll(_, _) => true
    case AddTimer(_, _, _) => true
    case CancelTimer(_, _) => true
    case Dispatch(_, _, _) => true
    case _ => false
  }

  /** Steps by which a worker takes, keeps or gives up a fiber's mutex. */
  predicate Switching(step: Step) {
    step.Lock? || step.Resume? || step.Unlock? || step.Yield? || step.Finish?
  }

  /** Steps that post, at once or through the registry. */
  predicate Posting(step: Step) {
    || step.ExtPost? || step.ExtCancelEvent? || step.ExtCancelAll?
    || step.Post? || step.CancelEvent? || step.CancelAll? || step.Dispatch?
  }

  lemma PostingFrame(s: State, step: Step)
    requires FibersKnown(s) && Enabled(s, step) && Posting(step)
    ensures SameControl(s, Next(s, step)) && FibersKnown(Next(s, step))
  {
    hide Pushed, Fired, FiredAll, SameControl, FibersKnown;
    match step
    case ExtPost(body, thread) => PushedFrame(s, body, thread);
    case Post(_, body, thread) => PushedFrame(s, body, thread);
    case ExtCancelEvent(key) => FiredFrame(s, key);
    case ExtCancelAll(fd) => FiredAllFrame(s, fd, Events(s.registry, fd));
    case CancelEvent(_, key) => FiredFrame(s, key);
    case CancelAll(_, fd) => FiredAllFrame(s, fd, Events(s.registry, fd));
    case Dispatch(_, fd, ready) => FiredAllFrame(s, fd, ready);
  }

  lemma QuietFrame(s: State, step: Step)
    requires FibersKnown(s) && Enabled(s, step) && Quiet(step)
    ensures SameControl(s, Next(s, step)) && FibersKnown(Next(s, step))
  {
    if Posting(step) {
      hide SameControl, FibersKnown, Next, Enabled;
      PostingFrame(s, step);
    } else {
      EditFrame(s, step);
    }
  }

  lemma EditFrame(s: State, step: Step)
    requires FibersKnown(s) && Enabled(s, step) && Quiet(step) && !Posting(step)
    ensures SameControl(s, Next(s, step)) && FibersKnown(Next(s, step))
  {}

  /** What a step does that moves one worker between phases in which it holds no mutex. */
  ghost predicate Moved(s: State, t: State, w: nat) {
    && w < |s.workers| == |t.workers|
    && Held(s.workers[w].phase).None? && Held(t.workers[w].phase).None?
    && (forall v | 0 <= v < |s.workers| && v != w :: t.workers[v] == s.workers[v])
    && SameControl(s.(workers := t.workers), t)
    && FibersKnown(t)
  }

  lemma MovedExclusive(s: State, t: State, w: nat)
    requires Exclusive(s) && Moved(s, t, w)
    ensures Exclusive(t)
  {}

  lemma TakeMoves(s: State, w: nat)
    requires FibersKnown(s) && Enabled(s, Take(w))
    ensures Moved(s, AfterTake(s, w), w)
  {
    hide FirstAllowed, Without, FibersKnown;
    var p := FirstAllowed(s.tasks, w);
    if p < |s.tasks| {
      TakeKnown(s, w);
    } else {
      assert FibersKnown(To(s, w, Phase.Decide)) by { StillKnown(s, w); }
    }
  }

  lemma StillKnown(s: State, w: nat)
    requires FibersKnown(s) && w < |s.workers|
    ensures FibersKnown(To(s, w, Phase.Decide))
  {}

  lemma TakeKnown(s: State, w: nat)
    requires FibersKnown(s) && w < |s.workers| && FirstAllowed(s.tasks, w) < |s.tasks|
    ensures FibersKnown(AfterTake(s, w))
  {
    hide FirstAllowed, Without;
    var p := FirstAllowed(s.tasks, w);
    assert BodyKnown(s, s.tasks[p].body);
    RestKnown(s, p);
  }

  lemma RestKnown(s: State, p: nat)
    requires FibersKnown(s) && p < |s.tasks|
    ensures forall i | 0 <= i < |Without(s.tasks, p)| :: BodyKnown(s, Without(s.tasks, p)[i].body)
  {
    WithoutKeeps(s.tasks, p);
  }

  /** A worker that only moves on to another phase. */
  lemma PhaseMoves(s: State, t: State, w: nat)
    requires FibersKnown(s) && w < |s.workers| && w < |t.workers| && t.workers == s.workers[w := t.workers[w]]
    requires t.fibers == s.fibers && t.tasks == s.tasks && t.registry == s.registry
    requires Held(s.workers[w].phase).None? && Held(t.workers[w].phase).None? && !t.workers[w].phase.Locking?
    ensures Moved(s, t, w)
  {}

  lemma PostMoves(s: State, w: nat)
    requires FibersKnown(s) && Enabled(s, PostExpired(w))
    ensures Moved(s, Next(s, PostExpired(w)), w)
  {
    hide Pushed;
    var body := CbBody(s.workers[w].phase.cbs[0]);
    PushedFrame(s, body, ANY);
    var u := Pushed(s, body, ANY);
    assert FibersKnown(To(u, w, IdleWork(s.workers[w].phase.cbs[1..])));
  }

  lemma MovingFrame(s: State, step: Step)
    requires FibersKnown(s) && Enabled(s, step) && !Quiet(step) && !Switching(step)
    ensures Moved(s, Next(s, step), step.w)
  {
    hide FibersKnown, Moved, SameControl, AfterTake, Pushed;
    if step.Take? {
      TakeMoves(s, step.w);
    } else if step.PostExpired? {
      PostMoves(s, step.w);
    } else {
      PhaseMoves(s, Next(s, step), step.w);
    }
  }

  /** A worker takes, keeps or gives up the mutex of one fiber, and may change its state under it. */
  ghost predicate Switched(s: State, t: State, w: nat, f: nat, p: Phase, fiber: Fiber) {
    && w < |s.workers| && f < |s.fibers| && t == To(SetFiber(s, f, fiber), w, p)
    && (Held(s.workers[w].phase) == Some(f) || (Held(s.workers[w].phase).None? && s.fibers[f].mutex.None?))
    && (if fiber.mutex.None? then Held(p).None? && !p.Locking? else fiber.mutex == Some(w) && Held(p) == Some(f))
    && (fiber.state == RUNNING <==> p == Exec(f))
  }

  lemma SwitchHolders(s: State, t: State, w: nat, f: nat, p: Phase, fiber: Fiber)
    requires HoldersAgree(s) && Switched(s, t, w, f, p, fiber)
    ensures HoldersAgree(t)
  {
    assert forall v | 0 <= v < |s.workers| && v != w :: t.workers[v] == s.workers[v];
    assert forall g | 0 <= g < |s.fibers| && g != f :: t.fibers[g] == s.fibers[g];
  }

  lemma SwitchRunning(s: State, t: State, w: nat, f: nat, p: Phase, fiber: Fiber)
    requires HoldersAgree(s) && RunningAgree(s) && Switched(s, t, w, f, p, fiber)
    ensures RunningAgree(t)
  {
    assert forall v | 0 <= v < |s.workers| && v != w :: t.workers[v] == s.workers[v];
    assert forall g | 0 <= g < |s.fibers| && g != f :: t.fibers[g] == s.fibers[g];
  }

  lemma SwitchKnown(s: State, t: State, w: nat, f: nat, p: Phase, fiber: Fiber)
    requires FibersKnown(s) && Switched(s, t, w, f, p, fiber)
    ensures FibersKnown(t)
  {
    assert forall v | 0 <= v < |s.workers| && v != w :: t.workers[v] == s.workers[v];
  }

  lemma SwitchExclusive(s: State, t: State, w: nat, f: nat, p: Phase, fiber: Fiber)
    requires Exclusive(s) && Switched(s, t, w, f, p, fiber)
    ensures Exclusive(t)
  {
    hide HoldersAgree, RunningAgree, FibersKnown, Switched;
    SwitchHolders(s, t, w, f, p, fiber);
    SwitchRunning(s, t, w, f, p, fiber);
    SwitchKnown(s, t, w, f, p, fiber);
  }

  lemma SwitchingExclusive(s: State, step: Step)
    requires Exclusive(s) && Enabled(s, step) && Switching(step)
    ensures Exclusive(Next(s, step))
  {
    hide HoldersAgree, RunningAgree, FibersKnown;
    var w, t := step.w, Next(s, step);
    var f := s.workers[w].phase.fiber;
    NotRunning(s, w, f);
    assert Switched(s, t, w, f, t.workers[w].phase, t.fibers[f]);
    hide Switched, Next, Enabled;
    SwitchExclusive(s, t, w, f, t.workers[w].phase, t.fibers[f]);
  }

  /** Only the worker that executes a fiber sees it RUNNING. */
  lemma NotRunning(s: State, w: nat, f: nat)
    requires Exclusive(s) && w < |s.workers| && f < |s.fibers|
    ensures s.fibers[f].mutex.None? ==> s.fibers[f].state != RUNNING
    ensures Held(s.workers[w].phase) == Some(f) ==> s.fibers[f].mutex == Some(w)
    ensures Held(s.workers[w].phase) == Some(f) && s.fibers[f].state == RUNNING ==> s.workers[w].phase == Exec(f)
  {}

  /** The invariant of mutual exclusion, over every step. */
  lemma ExclusiveStep(s: State, step: Step)
    requires Exclusive(s) && Enabled(s, step)
    ensures Exclusive(Next(s, step))
  {
    hide HoldersAgree, RunningAgree, FibersKnown, SameControl, Enabled, InPhase, Next;
    if Quiet(step) {
      QuietFrame(s, step);
      ControlFrame(s, Next(s, step));
    } else if Switching(step) {
      SwitchingExclusive(s, step);
    } else {
      MovingFrame(s, step);
      MovedExclusive(s, Next(s, step), step.w);
    }
  }

  lemma InitExclusive(io: bool, n: nat)
    ensures Exclusive(Init(io, n))
  {}

  lemma {:induction false} ExclusiveRun(s: State, steps: seq<Step>)
    requires Exclusive(s) && LegalTrace(s, steps)
    ensures Exclusive(RunAll(s, steps))
    decreases |steps|
  {
    if steps != [] {
      ExclusiveStep(s, steps[0]);
      ExclusiveRun(Next(s, steps[0]), steps[1..]);
    }
  }

  /**
   In every reachable state a fiber is executed by at most one worker, which holds its mutex; a worker
   holds at most one mutex; a worker that has locked a fiber resumes it exactly when it is READY, never
   finds it RUNNING, and passes it over otherwise.
   */
  lemma MutualExclusion(io: bool, n: nat, steps: seq<Step>)
    requires LegalTrace(Init(io, n), steps)
    ensures var s := RunAll(Init(io, n), steps);
            && (forall v, w | 0 <= v < w < |s.workers| && Held(s.workers[v].phase).Some? ::
                  Held(s.workers[v].phase) != Held(s.workers[w].phase))
            && (forall w | 0 <= w < |s.workers| && s.workers[w].phase.Exec? ::
                  var f := s.workers[w].phase.fiber;
                  f < |s.fibers| && s.fibers[f].mutex == Some(w) && s.fibers[f].state == RUNNING)
            && (forall w | 0 <= w < |s.workers| && s.workers[w].phase.Locked? ::
                  var f := s.workers[w].phase.fiber;
                  && f < |s.fibers| && s.fibers[f].state != RUNNING
                  && (AfterResume(s, w, f).workers[w].phase == Exec(f) <==> s.fibers[f].state == READY))
            && (forall f, g, w | 0 <= f < |s.fibers| && 0 <= g < |s.fibers|
                  && s.fibers[f].mutex == Some(w) == s.fibers[g].mutex :: f == g)
            && (forall f | 0 <= f < |s.fibers| && s.fibers[f].state == RUNNING ::
                  exists w :: 0 <= w < |s.workers| && s.workers[w].phase == Exec(f))
  {
    InitExclusive(io, n);
    ExclusiveRun(Init(io, n), steps);
  }

  /** The fiber that calls addEvent is RUNNING, as asserted there. */
  lemma CallerRunning(s: State, w: nat, key: Key, callback: Option<nat>)
    requires Exclusive(s) && Enabled(s, AddEvent(w, key, callback))
    ensures var f := s.workers[w].phase.fiber;
            f < |s.fibers| && s.fibers[f].state == RUNNING && s.fibers[f].mutex == Some(w)
  {
    assert Held(s.workers[w].phase) == Some(s.workers[w].phase.fiber);
  }

  // ---------------------------------------------------------------- finished fibers

  lemma FiredStates(s: State, key: Key)
    ensures |Fired(s, key).fibers| == |s.fibers|
    ensures forall f | 0 <= f < |s.fibers| :: Fired(s, key).fibers[f].state == s.fibers[f].state
    ensures Fired(s, key).workers == s.workers && Fired(s, key).active == s.active
  {}

  lemma FiredAllStates(s: State, fd: nat, es: set<Event>)
    ensures |FiredAll(s, fd, es).fibers| == |s.fibers|
    ensures forall f | 0 <= f < |s.fibers| :: FiredAll(s, fd, es).fibers[f].state == s.fibers[f].state
    ensures FiredAll(s, fd, es).workers == s.workers && FiredAll(s, fd, es).active == s.active
  {
    hide Fired;
    FiredStates(s, Key(fd, READ));
    FiredStates(if READ in es then Fired(s, Key(fd, READ)) else s, Key(fd, WRITE));
  }

  /** No step takes a fiber out of TERM, and none starts to execute it. */
  lemma TermStep(s: State, step: Step, f: nat)
    requires Exclusive(s) && Enabled(s, step) && f < |s.fibers| && s.fibers[f].state == TERM
    ensures f < |Next(s, step).fibers| && Next(s, step).fibers[f].state == TERM
  {
    hide HoldersAgree, RunningAgree, FibersKnown, Enabled, InPhase, Next;
    if Quiet(step) {
      QuietFrame(s, step);
    } else if Switching(step) {
      TermSwitch(s, step, f);
    } else {
      MovingFrame(s, step);
    }
  }

  lemma TermSwitch(s: State, step: Step, f: nat)
    requires Exclusive(s) && Enabled(s, step) && Switching(step) && f < |s.fibers| && s.fibers[f].state == TERM
    ensures f < |Next(s, step).fibers| && Next(s, step).fibers[f].state == TERM
  {
    hide HoldersAgree, FibersKnown;
  }

  /** A fiber that has finished never runs again, however often it is still in the queue. */
  lemma {:induction false} TermForever(s: State, steps: seq<Step>, f: nat)
    requires Exclusive(s) && LegalTrace(s, steps) && f < |s.fibers| && s.fibers[f].state == TERM
    ensures var t := RunAll(s, steps);
            && f < |t.fibers| && t.fibers[f].state == TERM
            && forall w | 0 <= w < |t.workers| :: t.workers[w].phase != Exec(f)
    decreases |steps|
  {
    if steps != [] {
      TermStep(s, steps[0], f);
      ExclusiveStep(s, steps[0]);
      TermForever(Next(s, steps[0]), steps[1..], f);
    }
  }

  // ---------------------------------------------------------------- the active counter

  predicate Busy(p: Phase) {
    p.Locking? || p.Locked? || p.Exec? || p.Return? || p.Unlocked?
  }

  ghost function BusyWorkers(s: State): set<nat> {
    set w: nat | w < |s.workers| && Busy(s.workers[w].phase)
  }

  lemma OneWorker(s: State, t: State, w: nat)
    requires w < |s.workers| == |t.workers| && forall v | 0 <= v < |s.workers| && v != w :: t.workers[v] == s.workers[v]
    ensures |BusyWorkers(t)| - |BusyWorkers(s)| ==
            (if Busy(t.workers[w].phase) then 1 else 0) - (if Busy(s.workers[w].phase) then 1 else 0)
  {
    hide Busy;
    var others := set v: nat | v < |s.workers| && v != w && Busy(s.workers[v].phase);
    BusySplit(s, w, others);
    BusySplit(t, w, others);
  }

  lemma BusySplit(s: State, w: nat, others: set<nat>)
    requires w < |s.workers|
    requires forall v: nat :: v in others <==> v < |s.workers| && v != w && Busy(s.workers[v].phase)
    ensures |BusyWorkers(s)| == |others| + if Busy(s.workers[w].phase) then 1 else 0
  {
    hide Busy;
    assert BusyWorkers(s) == if Busy(s.workers[w].phase) then others + {w} else others;
  }

  /** `m_activeThreadCnt` counts the workers between taking a task and giving the count back. */
  ghost predicate Counted(s: State) {
    s.active == |BusyWorkers(s)|
  }

  lemma QuietWorkers(s: State, step: Step)
    requires Enabled(s, step) && Quiet(step)
    ensures Next(s, step).workers == s.workers && Next(s, step).active == s.active
  {
    hide FiredAll, Fired, Pushed;
    if Posting(step) {
      match step
      case ExtPost(body, thread) => PushedStates(s, body, thread);
      case Post(_, body, thread) => PushedStates(s, body, thread);
      case ExtCancelEvent(key) => FiredStates(s, key);
      case ExtCancelAll(fd) => FiredAllStates(s, fd, Events(s.registry, fd));
      case CancelEvent(_, key) => FiredStates(s, key);
      case CancelAll(_, fd) => FiredAllStates(s, fd, Events(s.registry, fd));
      case Dispatch(_, fd, ready) => FiredAllStates(s, fd, ready);
    }
  }

  /** One worker's phase and the counter change together, the other workers stay. */
  ghost predicate CountedMove(s: State, t: State, w: nat) {
    && w < |s.workers| == |t.workers|
    && (forall v | 0 <= v < |s.workers| && v != w :: t.workers[v] == s.workers[v])
    && t.active - s.active == (if Busy(t.workers[w].phase) then 1 else 0) - (if Busy(s.workers[w].phase) then 1 else 0)
  }

  lemma TakeCounts(s: State, w: nat)
    requires w < |s.workers| && s.workers[w].phase.Scan?
    ensures CountedMove(s, AfterTake(s, w), w)
  {
    hide FirstAllowed, Without;
  }

  /** How a worker's step changes its own phase and the counter. */
  lemma OwnPhase(s: State, step: Step)
    requires Enabled(s, step) && !Quiet(step)
    ensures CountedMove(s, Next(s, step), step.w)
  {
    hide AfterTake, Pushed;
    if step.Take? {
      TakeCounts(s, step.w);
    } else if step.PostExpired? {
      PushedStates(s, CbBody(s.workers[step.w].phase.cbs[0]), ANY);
    }
  }

  lemma PushedStates(s: State, body: Body, thread: int)
    ensures Pushed(s, body, thread).workers == s.workers && Pushed(s, body, thread).active == s.active
  {}

  lemma CountedStep(s: State, step: Step)
    requires Counted(s) && Enabled(s, step)
    ensures Counted(Next(s, step))
  {
    hide Next, Enabled, InPhase, Busy;
    var t := Next(s, step);
    if Quiet(step) {
      QuietWorkers(s, step);
      assert BusyWorkers(t) == BusyWorkers(s);
    } else {
      OwnPhase(s, step);
      OneWorker(s, t, step.w);
    }
  }

  // ---------------------------------------------------------------- the ledger of queue entries

  ghost function Queued(s: State): set<nat> { set i | 0 <= i < |s.tasks| :: s.tasks[i].serial }

  ghost function Consumed(s: State): set<nat> { set i | 0 <= i < |s.taken| :: s.taken[i].task.serial }

  /** Every entry pushed is in the queue or has been taken, once. */
  ghost predicate Ledger(s: State) {
    && Ordered(s.tasks)
    && (forall n: nat :: n < s.pushed <==> n in Queued(s) || n in Consumed(s))
    && Queued(s) !! Consumed(s)
    && (forall i, j | 0 <= i < j < |s.taken| :: s.taken[i].task.serial != s.taken[j].task.serial)
  }

  /**
   Entries went to threads that allow them, first come first served: whatever a worker has taken was posted
   before every entry it would be allowed to take, taken later by anyone or still queued.
   */
  ghost predicate Discipline(s: State) {
    && (forall i | 0 <= i < |s.taken| :: Allowed(s.taken[i].task, s.taken[i].worker))
    && (forall i, j | 0 <= i < j < |s.taken| && Allowed(s.taken[j].task, s.taken[i].worker) ::
          s.taken[i].task.serial < s.taken[j].task.serial)
    && (forall i, j | 0 <= i < |s.taken| && 0 <= j < |s.tasks| && Allowed(s.tasks[j], s.taken[i].worker) ::
          s.taken[i].task.serial < s.tasks[j].serial)
  }

  ghost predicate FairQueue(s: State) { Ledger(s) && Discipline(s) }

  lemma PushedQueue(s: State, body: Body, thread: int)
    requires FairQueue(s)
    ensures FairQueue(Pushed(s, body, thread))
  {
    var t := Pushed(s, body, thread);
    BelowPushed(s);
    PushedSets(s, t, Task(s.pushed, body, thread));
    assert s.pushed !in Queued(s) && s.pushed !in Consumed(s);
    assert forall i | 0 <= i < |s.tasks| :: t.tasks[i] == s.tasks[i];
  }

  lemma BelowPushed(s: State)
    requires Ledger(s)
    ensures forall i | 0 <= i < |s.tasks| :: s.tasks[i].serial < s.pushed
    ensures forall i | 0 <= i < |s.taken| :: s.taken[i].task.serial < s.pushed
  {
    assert forall i | 0 <= i < |s.tasks| :: s.tasks[i].serial in Queued(s);
    assert forall i | 0 <= i < |s.taken| :: s.taken[i].task.serial in Consumed(s);
  }

  lemma PushedSets(s: State, t: State, task: Task)
    requires t.tasks == s.tasks + [task] && t.taken == s.taken
    ensures Queued(t) == Queued(s) + {task.serial} && Consumed(t) == Consumed(s)
  {
    assert t.tasks[|s.tasks|].serial == task.serial;
    assert forall i | 0 <= i < |s.tasks| :: t.tasks[i] == s.tasks[i];
  }

  lemma SameQueue(s: State, t: State)
    requires FairQueue(s) && t.tasks == s.tasks && t.taken == s.taken && t.pushed == s.pushed
    ensures FairQueue(t)
  {
    assert Queued(t) == Queued(s) && Consumed(t) == Consumed(s);
  }

  lemma FiredQueue(s: State, key: Key)
    requires FairQueue(s)
    ensures FairQueue(Fired(s, key))
  {
    if key in s.registry.slots {
      var u := Pushed(s, s.registry.slots[key].body, ANY);
      PushedQueue(s, s.registry.slots[key].body, ANY);
      SameQueue(u, Fired(s, key));
    }
  }

  lemma FiredAllQueue(s: State, fd: nat, es: set<Event>)
    requires FairQueue(s)
    ensures FairQueue(FiredAll(s, fd, es))
  {
    hide FairQueue, Fired;
    FiredQueue(s, Key(fd, READ));
    FiredQueue(if READ in es then Fired(s, Key(fd, READ)) else s, Key(fd, WRITE));
  }

  lemma TakeLedger(s: State, w: nat)
    requires Ledger(s) && w < |s.workers| && FirstAllowed(s.tasks, w) < |s.tasks|
    ensures Ledger(AfterTake(s, w))
  {
    var p, t := FirstAllowed(s.tasks, w), AfterTake(s, w);
    WithoutOrdered(s.tasks, p);
    QueuedWithout(s, t, p);
    ConsumedMore(s, t, s.tasks[p], w);
    var n := s.tasks[p].serial;
    assert n in Queued(s);
    assert forall i | 0 <= i < |s.taken| :: s.taken[i].task.serial in Consumed(s) && t.taken[i] == s.taken[i];
  }

  lemma QueuedWithout(s: State, t: State, p: nat)
    requires p < |s.tasks| && Ordered(s.tasks) && t.tasks == Without(s.tasks, p)
    ensures Queued(t) == Queued(s) - {s.tasks[p].serial}
  {
    hide Without;
    var n := s.tasks[p].serial;
    WithoutOrdered(s.tasks, p);
    forall m ensures m in Queued(t) <==> m in Queued(s) && m != n {
      if m in Queued(s) && m != n {
        var i :| 0 <= i < |s.tasks| && s.tasks[i].serial == m;
        assert s.tasks[i] in t.tasks;
      }
      if m in Queued(t) {
        var i :| 0 <= i < |t.tasks| && t.tasks[i].serial == m;
        assert t.tasks[i] in t.tasks;
      }
    }
  }

  lemma ConsumedMore(s: State, t: State, task: Task, w: nat)
    requires t.taken == s.taken + [Taken(task, w)]
    ensures Consumed(t) == Consumed(s) + {task.serial}
  {
    assert t.taken[|s.taken|].task.serial == task.serial;
    assert forall i | 0 <= i < |s.taken| :: t.taken[i] == s.taken[i];
  }

  lemma TakeDiscipline(s: State, w: nat)
    requires FairQueue(s) && w < |s.workers| && FirstAllowed(s.tasks, w) < |s.tasks|
    ensures Discipline(AfterTake(s, w))
  {
    hide FirstAllowed, Without, Queued, Consumed;
    var p, t := FirstAllowed(s.tasks, w), AfterTake(s, w);
    TakesEarliest(s.tasks, w);
    WithoutOrdered(s.tasks, p);
    forall j | 0 <= j < |t.tasks| ensures t.tasks[j] in s.tasks && t.tasks[j] != s.tasks[p] {
      assert t.tasks[j] in t.tasks;
    }
    assert forall i | 0 <= i < |s.taken| :: t.taken[i] == s.taken[i];
  }

  /** Steps that may change the queue. */
  predicate Queues(step: Step) { Posting(step) || step.PostExpired? || step.Take? }

  lemma QueueKept(s: State, step: Step)
    requires Enabled(s, step) && !Queues(step)
    ensures var t := Next(s, step);
            t.tasks == s.tasks && t.taken == s.taken && t.pushed == s.pushed
  {
    hide Next, Enabled;
    if Quiet(step) {
      QueueKeptQuiet(s, step);
    } else {
      QueueKeptMoves(s, step);
    }
  }

  lemma QueueKeptQuiet(s: State, step: Step)
    requires Enabled(s, step) && !Queues(step) && Quiet(step)
    ensures var t := Next(s, step);
            t.tasks == s.tasks && t.taken == s.taken && t.pushed == s.pushed
  {}

  lemma QueueKeptMoves(s: State, step: Step)
    requires Enabled(s, step) && !Queues(step) && !Quiet(step)
    ensures var t := Next(s, step);
            t.tasks == s.tasks && t.taken == s.taken && t.pushed == s.pushed
  {}

  lemma FairQueueStep(s: State, step: Step)
    requires FairQueue(s) && Enabled(s, step)
    ensures FairQueue(Next(s, step))
  {
    hide FairQueue, Fired, FiredAll, Pushed, AfterTake, InPhase, FirstAllowed;
    if Queues(step) {
      match step
      case ExtPost(body, thread) => PushedQueue(s, body, thread);
      case Post(_, body, thread) => PushedQueue(s, body, thread);
      case ExtCancelEvent(key) => FiredQueue(s, key);
      case ExtCancelAll(fd) => FiredAllQueue(s, fd, Events(s.registry, fd));
      case CancelEvent(_, key) => FiredQueue(s, key);
      case CancelAll(_, fd) => FiredAllQueue(s, fd, Events(s.registry, fd));
      case Dispatch(_, fd, ready) => FiredAllQueue(s, fd, ready);
      case PostExpired(w) => PostExpiredQueue(s, w);
      case Take(w) => TakeQueue(s, w);
    } else {
      hide Next, Enabled, InPhase;
      QueueKept(s, step);
      SameQueue(s, Next(s, step));
    }
  }

  lemma PostExpiredQueue(s: State, w: nat)
    requires FairQueue(s) && Enabled(s, PostExpired(w))
    ensures FairQueue(Next(s, PostExpired(w)))
  {
    hide FairQueue, Pushed;
    var body := CbBody(s.workers[w].phase.cbs[0]);
    PushedQueue(s, body, ANY);
    SameQueue(Pushed(s, body, ANY), Next(s, PostExpired(w)));
  }

  lemma TakeQueue(s: State, w: nat)
    requires FairQueue(s) && w < |s.workers|
    ensures FairQueue(AfterTake(s, w))
  {
    if FirstAllowed(s.tasks, w) < |s.tasks| {
      TakeLedger(s, w);
      TakeDiscipline(s, w);
    } else {
      SameQueue(s, AfterTake(s, w));
    }
  }

  lemma {:induction false} FairQueueRun(s: State, steps: seq<Step>)
    requires FairQueue(s) && LegalTrace(s, steps)
    ensures FairQueue(RunAll(s, steps))
    decreases |steps|
  {
    if steps != [] {
      FairQueueStep(s, steps[0]);
      FairQueueRun(Next(s, steps[0]), steps[1..]);
    }
  }

  /**
   Over every run, every entry is taken at most once, on a thread it allows, and whatever a worker takes was
   posted before every other entry it might take, pinned ones included.
   */
  lemma QueueDiscipline(io: bool, n: nat, steps: seq<Step>)
    requires LegalTrace(Init(io, n), steps)
    ensures FairQueue(RunAll(Init(io, n), steps))
  {
    var s := Init(io, n);
    assert Queued(s) == {} == Consumed(s);
    FairQueueRun(s, steps);
  }
}
