/**
 The running system: any number of workers in Scheduler::run over one task queue, the fibers with their
 mutexes and states, the event registry and the timers. A step is one critical section or one transfer
 of control; the kernel, the clock and the program in the fibers choose freely among the steps.

 With `io` the idle fiber is that of IOManager, otherwise that of the base Scheduler.
 */
module Runtime {
  import opened Prelude
  import opened TaskQueue
  import opened EventRegistry

  /**
   `posted` and `armed` record whether the fiber was ever posted, and whether it has registered a wait it
   has not yet yielded for.
   */
  datatype Fiber = Fiber(state: FiberState, mutex: Option<nat>, posted: bool, armed: bool)

  /** Where a worker is in `run`, or in the idle fiber it has resumed. */
  datatype Phase =
    | Scan                     // top of the loop
    | Decide                   // nothing taken: look at the idle fiber
    | Locking(fiber: nat)      // task counted as active, about to lock the fiber's mutex
    | Locked(fiber: nat)       // mutex held, about to look at the state
    | Exec(fiber: nat)         // resumed
    | Return(fiber: nat)       // control is back, mutex still held
    | Unlocked                 // about to give up the active count
    | CheckTimers              // idle: stopping() reads the timers,
    | CheckPending             // then the pending counter,
    | CheckTasks               // then Scheduler::stopping
    | IdleWork(cbs: seq<nat>)  // idle: posting expired callbacks and dispatching events
    | Broken                   // left `run`

  datatype Worker = Worker(phase: Phase, idleTerm: bool)

  datatype Taken = Taken(task: Task, worker: nat)

  datatype State = State(
    io: bool, workers: seq<Worker>, tasks: seq<Task>, pushed: nat, taken: seq<Taken>, active: int, stopping: bool,
    fibers: seq<Fiber>, registry: Registry, timers: map<nat, nat>)

  datatype Step =
    // other threads
    | ExtPost(body: Body, thread: int)
    | ExtStop
    | ExtAddEvent(key: Key, cb: nat)
    | ExtAddTimer(timer: nat, cb: nat)
    | ExtDelEvent(key: Key)
    | ExtCancelEvent(key: Key)
    | ExtCancelAll(fd: nat)
    | ExtCancelTimer(timer: nat)
    | NewFiber
    // a worker in `run`
    | Take(w: nat)
    | Lock(w: nat)
    | Resume(w: nat)
    | Unlock(w: nat)
    | Retire(w: nat)
    | EnterIdle(w: nat)
    // the fiber a worker runs
    | Yield(w: nat)
    | Finish(w: nat)
    | Post(w: nat, body: Body, thread: int)
    | AddEvent(w: nat, key: Key, callback: Option<nat>)
    | DelEvent(w: nat, key: Key)
    | CancelEvent(w: nat, key: Key)
    | CancelAll(w: nat, fd: nat)
    | AddTimer(w: nat, timer: nat, cb: nat)
    | CancelTimer(w: nat, timer: nat)
    // the idle fiber of a worker
    | ReadTimers(w: nat)
    | ReadPending(w: nat)
    | ReadTasks(w: nat)
    | Expire(w: nat, due: seq<nat>, recurring: set<nat>)
    | PostExpired(w: nat)
    | Dispatch(w: nat, fd: nat, ready: set<Event>)
    | IdleYield(w: nat)

  function Init(io: bool, n: nat): State {
    State(io, seq(n, i => Worker(Scan, false)), [], 0, [], 0, false, [], EMPTY, map[])
  }

  /** Any thread may act as the scheduler of the registrations it makes; here there is one. */
  const SELF: nat := 0

  function Actor(step: Step): (w: Option<nat>) {
    match step
    case ExtPost(_, _) => None
    case ExtStop => None
    case ExtAddEvent(_, _) => None
    case ExtAddTimer(_, _) => None
    case ExtDelEvent(_) => None
    case ExtCancelEvent(_) => None
    case ExtCancelAll(_) => None
    case ExtCancelTimer(_) => None
    case NewFiber => None
    case _ => Some(step.w)
  }

  predicate BodyKnown(s: State, body: Body) {
    body.FiberBody? ==> body.fiber < |s.fibers|
  }

  /** The phase a worker's step starts in. */
  predicate InPhase(s: State, step: Step, p: Phase) {
    match step
    case Take(_) => p.Scan?
    case Lock(_) => p.Locking? && p.fiber < |s.fibers| && s.fibers[p.fiber].mutex.None?
    case Resume(_) => p.Locked? && p.fiber < |s.fibers|
    case Unlock(_) => p.Return? && p.fiber < |s.fibers|
    case Retire(_) => p.Unlocked?
    case EnterIdle(_) => p.Decide?
    case ReadTimers(_) => p.CheckTimers?
    case ReadPending(_) => p.CheckPending?
    case ReadTasks(_) => p.CheckTasks?
    case Expire(_, due, _) => p.IdleWork? && p.cbs == [] && s.io && (forall i | 0 <= i < |due| :: due[i] in s.timers)
          && (forall i, j | 0 <= i < j < |due| :: due[i] != due[j])
    case PostExpired(_) => p.IdleWork? && p.cbs != []
    case Dispatch(_, fd, ready) => p.IdleWork? && p.cbs == [] && s.io && ready <= Events(s.registry, fd)
    case IdleYield(_) => p.IdleWork? && p.cbs == []
    case _ => p.Exec? && p.fiber < |s.fibers|
  }

  predicate Enabled(s: State, step: Step) {
    && (Actor(step).Some? ==> Actor(step).value < |s.workers| && InPhase(s, step, s.workers[Actor(step).value].phase))
    && match step
       case ExtPost(body, _) => BodyKnown(s, body)
       case Post(_, body, _) => BodyKnown(s, body)
       case ExtAddEvent(key, _) => key !in s.registry.slots
       case AddEvent(_, key, _) => key !in s.registry.slots
       case _ => true
  }

  function To(s: State, w: nat, p: Phase): State
    requires w < |s.workers|
  {
    s.(workers := s.workers[w := s.workers[w].(phase := p)])
  }

  /** scheduleLock. */
  function Pushed(s: State, body: Body, thread: int): State {
    var t := s.(tasks := Push(s.tasks, s.pushed, Some(body), thread), pushed := s.pushed + 1);
    if body.FiberBody? && body.fiber < |s.fibers|
    then t.(fibers := s.fibers[body.fiber := s.fibers[body.fiber].(posted := true)])
    else t
  }

  /** triggerEvent: the registration moves to the queue. */
  function Fired(s: State, key: Key): State {
    if key in s.registry.slots
    then Pushed(s, s.registry.slots[key].body, ANY).(registry := Fire(s.registry, key))
    else s
  }

  function FiredAll(s: State, fd: nat, es: set<Event>): State {
    var t := if READ in es then Fired(s, Key(fd, READ)) else s;
    if WRITE in es then Fired(t, Key(fd, WRITE)) else t
  }

  function SetFiber(s: State, f: nat, fiber: Fiber): State
    requires f < |s.fibers|
  {
    s.(fibers := s.fibers[f := fiber])
  }

  /** The scan of `run`: a callback gets a fiber of its own. */
  function AfterTake(s: State, w: nat): State
    requires w < |s.workers|
  {
    var p := FirstAllowed(s.tasks, w);
    if p == |s.tasks| then To(s, w, Phase.Decide)
    else
      var task := s.tasks[p];
      var t := s.(tasks := Without(s.tasks, p), taken := s.taken + [Taken(task, w)], active := s.active + 1);
      match task.body
      case FiberBody(f) => To(t, w, Locking(f))
      case CbBody(_) => To(t.(fibers := s.fibers + [Fiber(READY, None, true, false)]), w, Locking(|s.fibers|))
  }

  /** `resume` asserts READY; a TERM fiber is passed over. */
  function AfterResume(s: State, w: nat, f: nat): State
    requires w < |s.workers| && f < |s.fibers|
  {
    if s.fibers[f].state == TERM then To(s, w, Return(f))
    else To(SetFiber(s, f, s.fibers[f].(state := RUNNING)), w, Exec(f))
  }

  predicate Quiescent(s: State) {
    s.stopping && s.tasks == [] && s.active == 0
  }

  function Next(s: State, step: Step): State
    requires Enabled(s, step)
  {
    match step
    case ExtPost(body, thread) => Pushed(s, body, thread)
    case ExtStop => s.(stopping := true)
    case ExtAddEvent(key, cb) => s.(registry := Add(s.registry, key, SELF, CbBody(cb)))
    case ExtAddTimer(timer, cb) => s.(timers := s.timers[timer := cb])
    case ExtDelEvent(key) => s.(registry := Drop(s.registry, key))
    case ExtCancelEvent(key) => Fired(s, key)
    case ExtCancelAll(fd) => FiredAll(s, fd, Events(s.registry, fd))
    case ExtCancelTimer(timer) => s.(timers := s.timers - {timer})
    case NewFiber => s.(fibers := s.fibers + [Fiber(READY, None, false, false)])
    case Take(w) => AfterTake(s, w)
    case Lock(w) =>
      var f := s.workers[w].phase.fiber;
      To(SetFiber(s, f, s.fibers[f].(mutex := Some(w))), w, Locked(f))
    case Resume(w) => AfterResume(s, w, s.workers[w].phase.fiber)
    case Unlock(w) =>
      var f := s.workers[w].phase.fiber;
      To(SetFiber(s, f, s.fibers[f].(mutex := None)), w, Unlocked)
    case Retire(w) => To(s, w, Scan).(active := s.active - 1)
    case EnterIdle(w) =>
      if s.workers[w].idleTerm then To(s, w, Broken) else To(s, w, if s.io then CheckTimers else CheckTasks)
    case Yield(w) =>
      var f := s.workers[w].phase.fiber;
      To(SetFiber(s, f, s.fibers[f].(state := READY, armed := false)), w, Return(f))
    case Finish(w) =>
      var f := s.workers[w].phase.fiber;
      To(SetFiber(s, f, s.fibers[f].(state := TERM)), w, Return(f))
    case Post(w, body, thread) => Pushed(s, body, thread)
    case AddEvent(w, key, callback) =>
      var f := s.workers[w].phase.fiber;
      if callback.Some? then s.(registry := Add(s.registry, key, SELF, CbBody(callback.value)))
      else SetFiber(s, f, s.fibers[f].(armed := true)).(registry := Add(s.registry, key, SELF, FiberBody(f)))
    case DelEvent(w, key) => s.(registry := Drop(s.registry, key))
    case CancelEvent(w, key) => Fired(s, key)
    case CancelAll(w, fd) => FiredAll(s, fd, Events(s.registry, fd))
    case AddTimer(w, timer, cb) => s.(timers := s.timers[timer := cb])
    case CancelTimer(w, timer) => s.(timers := s.timers - {timer})
    case ReadTimers(w) => To(s, w, if s.timers == map[] then CheckPending else IdleWork([]))
    case ReadPending(w) => To(s, w, if |s.registry.slots| == 0 then CheckTasks else IdleWork([]))
    case ReadTasks(w) =>
      if Quiescent(s) then s.(workers := s.workers[w := Worker(Scan, true)])
      else To(s, w, IdleWork([]))
    case Expire(w, due, recurring) =>
      var gone := set i | 0 <= i < |due| && due[i] !in recurring :: due[i];
      To(s.(timers := s.timers - gone), w, IdleWork(seq(|due|, i requires 0 <= i < |due| => s.timers[due[i]])))
    case PostExpired(w) =>
      var cbs := s.workers[w].phase.cbs;
      To(Pushed(s, CbBody(cbs[0]), ANY), w, IdleWork(cbs[1..]))
    case Dispatch(w, fd, ready) => FiredAll(s, fd, ready)
    case IdleYield(w) => To(s, w, Scan)
  }

  // ---------------------------------------------------------------- runs

  ghost predicate LegalTrace(s: State, steps: seq<Step>)
    decreases |steps|
  {
    steps == [] || (Enabled(s, steps[0]) && LegalTrace(Next(s, steps[0]), steps[1..]))
  }

  function RunAll(s: State, steps: seq<Step>): (t: State)
    requires LegalTrace(s, steps)
    decreases |steps|
  {
    if steps == [] then s else RunAll(Next(s, steps[0]), steps[1..])
  }

  ghost predicate Reaches(s: State, t: State) {
    exists steps :: LegalTrace(s, steps) && RunAll(s, steps) == t
  }

  lemma Here(s: State)
    ensures Reaches(s, s)
  {
    assert LegalTrace(s, []) && RunAll(s, []) == s;
  }

  /** One step and then a run. */
  lemma Before(s: State, step: Step, u: State, t: State)
    requires Enabled(s, step) && u == Next(s, step) && Reaches(u, t)
    ensures Reaches(s, t)
  {
    hide Next, Enabled;
    var steps :| LegalTrace(u, steps) && RunAll(u, steps) == t;
    assert ([step] + steps)[1..] == steps;
    assert LegalTrace(s, [step] + steps) && RunAll(s, [step] + steps) == t;
  }
}
