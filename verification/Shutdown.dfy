/**
 Shutdown of an IOManager with one worker (code/ioscheduler.cpp:56-76). `stopping` reads the timers, the
 pending counter and the queue one after the other. Other threads may add timers, events and entries as
 long as the worker has not read that there are none; then it leaves `run` only when no timer, no
 registered event and no queued task is left. A timer added later is left behind, and with a second
 worker its tasks can add one: see LateTimerStays and TwoWorkers.
 */
module Shutdown {
  import opened Prelude
  import opened TaskQueue
  import opened EventRegistry
  import opened Runtime
  import opened RuntimeSafety
  import opened Quiescence
  import L = RuntimeHistory

  /** The worker has read that there are no timers, and has not found anything to do since. */
  predicate TimersRead(worker: Worker) { worker.phase.CheckPending? || EventsRead(worker) }

  /** Likewise for events. */
  predicate EventsRead(worker: Worker) { worker.phase.CheckTasks? || worker.idleTerm }

  /** Other threads add nothing the worker has just read the absence of. */
  ghost predicate InTime(s: State, step: Step) {
    && NoLatePost(s, step)
    && (step.ExtAddTimer? ==> forall w | 0 <= w < |s.workers| :: !TimersRead(s.workers[w]))
    && (step.ExtAddEvent? ==> forall w | 0 <= w < |s.workers| :: !EventsRead(s.workers[w]))
  }

  predicate Ending(p: Phase) { p.Scan? || p.Decide? || p.Broken? }

  predicate Drained(s: State) {
    s.timers == map[] && s.registry.slots == map[] && Quiescent(s)
  }

  /** What the sole worker has read is still so while it goes on reading. */
  ghost predicate Closing(s: State) {
    && s.io && |s.workers| == 1
    && Counted(s)
    && var p, term := s.workers[0].phase, s.workers[0].idleTerm;
       && (p.CheckPending? || p.CheckTasks? ==> s.timers == map[])
       && (p.CheckTasks? ==> s.registry.slots == map[])
       && (p.Broken? ==> term)
       && (term ==> Drained(s) && Ending(p))
  }

  /** Other threads leave the worker alone, and add to what it has read only before it reads. */
  lemma OthersStep(s: State, step: Step)
    requires Closing(s) && Enabled(s, step) && InTime(s, step) && Actor(step).None?
    ensures Counted(Next(s, step)) ==> Closing(Next(s, step))
  {
    hide Counted;
    assert s.workers[0].idleTerm ==> Told(s);
    if step.ExtCancelEvent? || step.ExtCancelAll? {
      hide Next, Enabled;
      CancelledOutside(s, step);
    }
  }

  /** Waits cancelled by another thread only move registrations to the queue. */
  lemma CancelledOutside(s: State, step: Step)
    requires Closing(s) && Enabled(s, step) && (step.ExtCancelEvent? || step.ExtCancelAll?)
    ensures var t := Next(s, step);
            && t.workers == s.workers && t.io == s.io && t.timers == s.timers
            && (s.registry.slots == map[] ==> t == s)
  {
    hide Counted, Fired, FiredAll;
    if step.ExtCancelEvent? {
      FiredStates(s, step.key);
      FiredSame(s, step.key);
      FiredTasks(s, step.key);
    } else {
      FiredAllStates(s, step.fd, Events(s.registry, step.fd));
      FiredAllSame(s, step.fd, Events(s.registry, step.fd));
      FiredAllTasks(s, step.fd);
    }
  }

  lemma WorkerKept(s: State, step: Step)
    requires Closing(s) && Enabled(s, step)
    ensures Next(s, step).io == s.io && |Next(s, step).workers| == 1
  {
    hide Counted, Drained, Next, Quiet;
    IoKept(s, step);
    if Quiet(step) {
      QuietWorkers(s, step);
    } else {
      OwnPhase(s, step);
    }
  }

  /** A worker whose idle fiber has finished finds nothing to take and leaves. */
  lemma DrainedStep(s: State, step: Step)
    requires Closing(s) && s.workers[0].idleTerm && Enabled(s, step) && Actor(step).Some?
          && |Next(s, step).workers| == 1
    ensures Drained(Next(s, step)) && Next(s, step).workers[0].idleTerm
    ensures Ending(Next(s, step).workers[0].phase)
  {
    hide Pushed, Fired, FiredAll;
    if Actor(step).Some? {
      if Busy(s.workers[0].phase) {
        InactiveMeansNobodyBusy(s, 0);
        assert false;
      }
    }
  }

  /** A worker that is still at work. */
  lemma WorkingStep(s: State, step: Step)
    requires Closing(s) && !s.workers[0].idleTerm && Enabled(s, step) && InTime(s, step) && Actor(step).Some?
    requires |Next(s, step).workers| == 1
    ensures var t := Next(s, step);
            var p, term := t.workers[0].phase, t.workers[0].idleTerm;
            && (p.CheckPending? || p.CheckTasks? ==> t.timers == map[])
            && (p.CheckTasks? ==> t.registry.slots == map[])
            && (p.Broken? ==> term)
            && (term ==> Drained(t) && Ending(p))
  {
    hide Counted, Next;
    if Quiet(step) {
      QuietWorkers(s, step);
    } else {
      WorkingMoves(s, step);
    }
  }

  lemma WorkingMoves(s: State, step: Step)
    requires Closing(s) && !s.workers[0].idleTerm && Enabled(s, step) && !Quiet(step)
    requires |Next(s, step).workers| == 1
    ensures var t := Next(s, step);
            var p, term := t.workers[0].phase, t.workers[0].idleTerm;
            && (p.CheckPending? || p.CheckTasks? ==> t.timers == map[])
            && (p.CheckTasks? ==> t.registry.slots == map[])
            && (p.Broken? ==> term)
            && (term ==> Drained(t) && Ending(p))
  {
    hide Pushed, Counted, AfterTake;
    if step.Take? {
      TakeWorking(s);
    } else if step.PostExpired? {
      PushedSame(s, CbBody(s.workers[0].phase.cbs[0]), ANY);
    }
  }

  lemma TakeWorking(s: State)
    requires |s.workers| == 1 && s.workers[0].phase.Scan? && !s.workers[0].idleTerm
    ensures var t := AfterTake(s, 0);
            |t.workers| == 1 && !t.workers[0].idleTerm && (t.workers[0].phase.Decide? || t.workers[0].phase.Locking?)
  {
    hide FirstAllowed, Without;
  }

  lemma ClosingStep(s: State, step: Step)
    requires Closing(s) && Enabled(s, step) && InTime(s, step)
    ensures Closing(Next(s, step))
  {
    hide Counted, Drained, Next, Enabled, InPhase, InTime;
    CountedStep(s, step);
    WorkerKept(s, step);
    if Actor(step).None? {
      OthersStep(s, step);
      assert Closing(Next(s, step));
    } else if s.workers[0].idleTerm {
      DrainedStep(s, step);
    } else {
      WorkingStep(s, step);
    }
  }

  lemma InitClosing()
    ensures Closing(Init(true, 1))
  {
    assert BusyWorkers(Init(true, 1)) == {};
  }

  ghost predicate InTimeTrace(s: State, steps: seq<Step>)
    requires LegalTrace(s, steps)
    decreases |steps|
  {
    steps == [] || (InTime(s, steps[0]) && InTimeTrace(Next(s, steps[0]), steps[1..]))
  }

  // ---------------------------------------------------------------- the registry along a run

  /** The registry of the running system is the one whose registrations are conserved. */
  lemma RegistryStep(s: State, step: Step)
    requires Inv(s.registry) && Enabled(s, step)
    ensures Inv(Next(s, step).registry)
  {
    hide Inv, Next, Enabled;
    L.CallsStep(s, step);
    RunInv(s.registry, L.Calls(s, step));
  }

  // ---------------------------------------------------------------- every run

  lemma {:induction false} ClosingRun(s: State, steps: seq<Step>)
    requires Closing(s) && Inv(s.registry) && LegalTrace(s, steps) && InTimeTrace(s, steps)
    ensures Closing(RunAll(s, steps)) && Inv(RunAll(s, steps).registry)
    decreases |steps|
  {
    hide Closing, Inv, Next, Enabled, InTime;
    if steps != [] {
      ClosingStep(s, steps[0]);
      RegistryStep(s, steps[0]);
      ClosingRun(Next(s, steps[0]), steps[1..]);
    }
  }

  /**
   When the sole worker has left `run` there is no timer, no registered event, no queued task and no
   running task; every entry posted has been consumed, and every registration was posted or dropped.
   */
  lemma LeavesNothing(steps: seq<Step>)
    requires LegalTrace(Init(true, 1), steps) && InTimeTrace(Init(true, 1), steps)
    ensures var s := RunAll(Init(true, 1), steps);
            |s.workers| == 1 && (s.workers[0].phase.Broken? ==>
              && s.timers == map[] && s.registry.slots == map[] && s.tasks == [] && s.active == 0
              && (forall k: nat :: k < s.pushed <==> k in Consumed(s))
              && s.registry.added == |s.registry.posted| + |s.registry.dropped|)
  {
    hide RunAll, LegalTrace;
    InitClosing();
    EmptyInv();
    ClosingRun(Init(true, 1), steps);
    QueueDiscipline(true, 1, steps);
    var s := RunAll(Init(true, 1), steps);
    if s.workers[0].phase.Broken? {
      assert Queued(s) == {};
    }
  }

  // ---------------------------------------------------------------- what is added later

  /** The sole worker finds nothing in what it has still to read, and is on its way out. */
  ghost predicate GoingOut(s: State) {
    && s.io && |s.workers| == 1 && s.stopping && s.active == 0
    && var worker := s.workers[0];
       match worker.phase
       case CheckPending => !worker.idleTerm && s.registry.slots == map[] && s.tasks == []
       case CheckTasks => !worker.idleTerm && s.tasks == []
       case Scan => worker.idleTerm && FirstAllowed(s.tasks, 0) == |s.tasks|
       case Decide => worker.idleTerm
       case Broken => worker.idleTerm
       case _ => false
  }

  /** The worker has left, and what it did not look at again is as it was. */
  predicate LeftWith(s: State, t: State) {
    && |t.workers| == 1 && t.workers[0].phase.Broken?
    && t.timers == s.timers && t.registry == s.registry && t.tasks == s.tasks
  }

  lemma {:induction false} GoesOut(s: State)
    requires GoingOut(s)
    ensures exists t :: Reaches(s, t) && LeftWith(s, t)
    decreases WayToGo(s.workers[0].phase)
  {
    hide Reaches;
    var w := s.workers[0];
    if w.phase.Broken? {
      Here(s);
    } else {
      OneOut(s);
      var step := OwnStep(w.phase);
      var u := Next(s, step);
      GoesOut(u);
      var t :| Reaches(u, t) && LeftWith(u, t);
      Before(s, step, u, t);
    }
  }

  /** What the worker does next on its way out. */
  function OwnStep(p: Phase): Step {
    match p
    case CheckPending => ReadPending(0)
    case CheckTasks => ReadTasks(0)
    case Scan => Take(0)
    case _ => EnterIdle(0)
  }

  function WayToGo(p: Phase): nat {
    match p
    case CheckPending => 4
    case CheckTasks => 3
    case Scan => 2
    case Decide => 1
    case _ => 0
  }

  lemma OneOut(s: State)
    requires GoingOut(s) && !s.workers[0].phase.Broken?
    ensures Enabled(s, OwnStep(s.workers[0].phase))
    ensures var u := Next(s, OwnStep(s.workers[0].phase));
            && GoingOut(u) && WayToGo(u.workers[0].phase) < WayToGo(s.workers[0].phase)
            && u.timers == s.timers && u.registry == s.registry && u.tasks == s.tasks
  {
    assert FirstAllowed([], 0) == 0;
  }

  /** A timer that another thread adds when the worker has read the timers and nothing else is left stays behind. */
  lemma LateTimerStays(s: State, timer: nat, cb: nat)
    requires Closing(s) && TimersRead(s.workers[0]) && Quiescent(s) && s.registry.slots == map[]
    ensures Enabled(s, ExtAddTimer(timer, cb))
    ensures exists t :: Reaches(Next(s, ExtAddTimer(timer, cb)), t) && |t.workers| == 1 && t.workers[0].phase.Broken?
                     && timer in t.timers
  {
    hide Reaches, Counted;
    var u := Next(s, ExtAddTimer(timer, cb));
    assert FirstAllowed([], 0) == 0;
    GoesOut(u);
    var t :| Reaches(u, t) && LeftWith(u, t);
    assert timer in t.timers;
  }

  /** Likewise an event registered when the worker has read the pending counter too. */
  lemma LateEventStays(s: State, key: Key, cb: nat)
    requires Closing(s) && EventsRead(s.workers[0]) && Quiescent(s) && key !in s.registry.slots
    ensures Enabled(s, ExtAddEvent(key, cb))
    ensures exists t :: Reaches(Next(s, ExtAddEvent(key, cb)), t) && |t.workers| == 1 && t.workers[0].phase.Broken?
                     && key in t.registry.slots
  {
    hide Reaches, Counted;
    var u := Next(s, ExtAddEvent(key, cb));
    assert FirstAllowed([], 0) == 0;
    GoesOut(u);
    var t :| Reaches(u, t) && LeftWith(u, t);
    assert key in t.registry.slots;
  }

  /** Likewise an entry posted when the worker has seen quiescence and will not take it any more. */
  lemma LateEntryStays(s: State, body: Body, thread: int)
    requires Closing(s) && PastTaking(s.workers[0], 0, thread) && BodyKnown(s, body)
    ensures Enabled(s, ExtPost(body, thread))
    ensures exists t :: Reaches(Next(s, ExtPost(body, thread)), t) && |t.workers| == 1 && t.workers[0].phase.Broken?
                     && t.tasks == [Task(s.pushed, body, thread)]
  {
    hide Reaches, Counted;
    var u := Next(s, ExtPost(body, thread));
    assert u.tasks == [Task(s.pushed, body, thread)];
    if u.workers[0].phase.Scan? { FirstAllowedUnique(u.tasks, 0, 1); }
    GoesOut(u);
    var t :| Reaches(u, t) && LeftWith(u, t);
  }

  // ---------------------------------------------------------------- a second worker

  ghost predicate ReachesInTime(s: State, t: State) {
    exists steps :: LegalTrace(s, steps) && InTimeTrace(s, steps) && RunAll(s, steps) == t
  }

  lemma {:induction false} Append(s: State, steps: seq<Step>, step: Step)
    requires LegalTrace(s, steps) && InTimeTrace(s, steps) && Enabled(RunAll(s, steps), step)
          && InTime(RunAll(s, steps), step)
    ensures LegalTrace(s, steps + [step]) && InTimeTrace(s, steps + [step])
    ensures RunAll(s, steps + [step]) == Next(RunAll(s, steps), step)
    decreases |steps|
  {
    hide Next, Enabled, InTime;
    if steps == [] {
      assert [] + [step] == [step] && [step][1..] == [];
    } else {
      Append(Next(s, steps[0]), steps[1..], step);
      assert (steps + [step])[1..] == steps[1..] + [step];
    }
  }

  lemma One(s: State, t: State, step: Step, u: State)
    requires ReachesInTime(s, t) && Enabled(t, step) && InTime(t, step) && u == Next(t, step)
    ensures ReachesInTime(s, u)
  {
    hide LegalTrace, InTimeTrace, RunAll, Next, Enabled, InTime;
    var steps :| LegalTrace(s, steps) && InTimeTrace(s, steps) && RunAll(s, steps) == t;
    Append(s, steps, step);
  }

  /** Any number of workers from two on, after the second one has taken the only entry. */
  function Both(rest: seq<Worker>, p: Phase, term: bool, q: Phase, fiber: Fiber, timers: map<nat, nat>,
        active: int): State {
    var workers := [Worker(p, term), Worker(q, false)] + rest;
    State(true, workers, [], 1, [Taken(Task(0, CbBody(0), ANY), 1)], active, true, [fiber], EMPTY, timers)
  }

  lemma SecondTakes(s: State, rest: seq<Worker>)
    requires s == Init(true, 2 + |rest|) && s.workers == [Worker(Scan, false), Worker(Scan, false)] + rest
    ensures ReachesInTime(s, Both(rest, Scan, false, Locking(0), Fiber(READY, None, true, false), map[], 1))
  {
    hide LegalTrace, InTimeTrace, ReachesInTime;
    assert ReachesInTime(s, s) by { Start(s); }
    var s1 := s.(tasks := [Task(0, CbBody(0), ANY)], pushed := 1);
    One(s, s, ExtPost(CbBody(0), ANY), s1);
    One(s, s1, ExtStop, s1.(stopping := true));
    assert FirstAllowed(s1.tasks, 1) == 0;
    One(s, s1.(stopping := true), Take(1),
        Both(rest, Scan, false, Locking(0), Fiber(READY, None, true, false), map[], 1));
  }

  lemma Start(s: State)
    ensures ReachesInTime(s, s)
  {
    assert LegalTrace(s, []) && InTimeTrace(s, []) && RunAll(s, []) == s;
  }

  lemma SecondRuns(s: State, rest: seq<Worker>)
    requires ReachesInTime(s, Both(rest, Scan, false, Locking(0), Fiber(READY, None, true, false), map[], 1))
    ensures ReachesInTime(s, Both(rest, Scan, false, Exec(0), Fiber(RUNNING, Some(1), true, false), map[], 1))
  {
    hide LegalTrace, InTimeTrace, ReachesInTime;
    One(s, Both(rest, Scan, false, Locking(0), Fiber(READY, None, true, false), map[], 1), Lock(1),
        Both(rest, Scan, false, Locked(0), Fiber(READY, Some(1), true, false), map[], 1));
    One(s, Both(rest, Scan, false, Locked(0), Fiber(READY, Some(1), true, false), map[], 1), Resume(1),
        Both(rest, Scan, false, Exec(0), Fiber(RUNNING, Some(1), true, false), map[], 1));
  }

  lemma FirstReadsTimers(s: State, rest: seq<Worker>, fiber: Fiber)
    requires ReachesInTime(s, Both(rest, Scan, false, Exec(0), fiber, map[], 1))
    ensures ReachesInTime(s, Both(rest, CheckPending, false, Exec(0), fiber, map[], 1))
  {
    hide LegalTrace, InTimeTrace, ReachesInTime;
    One(s, Both(rest, Scan, false, Exec(0), fiber, map[], 1), Take(0),
        Both(rest, Phase.Decide, false, Exec(0), fiber, map[], 1));
    One(s, Both(rest, Phase.Decide, false, Exec(0), fiber, map[], 1), EnterIdle(0),
        Both(rest, CheckTimers, false, Exec(0), fiber, map[], 1));
    One(s, Both(rest, CheckTimers, false, Exec(0), fiber, map[], 1), ReadTimers(0),
        Both(rest, CheckPending, false, Exec(0), fiber, map[], 1));
  }

  lemma SecondAddsTimer(s: State, rest: seq<Worker>)
    requires ReachesInTime(s, Both(rest, CheckPending, false, Exec(0), Fiber(RUNNING, Some(1), true, false), map[], 1))
    ensures ReachesInTime(s, Both(rest, CheckPending, false, Scan, Fiber(TERM, None, true, false), map[0 := 7], 0))
  {
    hide LegalTrace, InTimeTrace, ReachesInTime;
    One(s, Both(rest, CheckPending, false, Exec(0), Fiber(RUNNING, Some(1), true, false), map[], 1), AddTimer(1, 0, 7),
        Both(rest, CheckPending, false, Exec(0), Fiber(RUNNING, Some(1), true, false), map[0 := 7], 1));
    One(s, Both(rest, CheckPending, false, Exec(0), Fiber(RUNNING, Some(1), true, false), map[0 := 7], 1), Finish(1),
        Both(rest, CheckPending, false, Return(0), Fiber(TERM, Some(1), true, false), map[0 := 7], 1));
    One(s, Both(rest, CheckPending, false, Return(0), Fiber(TERM, Some(1), true, false), map[0 := 7], 1), Unlock(1),
        Both(rest, CheckPending, false, Unlocked, Fiber(TERM, None, true, false), map[0 := 7], 1));
    One(s, Both(rest, CheckPending, false, Unlocked, Fiber(TERM, None, true, false), map[0 := 7], 1), Retire(1),
        Both(rest, CheckPending, false, Scan, Fiber(TERM, None, true, false), map[0 := 7], 0));
  }

  lemma FirstReadsRest(s: State, rest: seq<Worker>, fiber: Fiber, timers: map<nat, nat>)
    requires ReachesInTime(s, Both(rest, CheckPending, false, Scan, fiber, timers, 0))
    ensures ReachesInTime(s, Both(rest, Scan, true, Scan, fiber, timers, 0))
  {
    hide LegalTrace, InTimeTrace, ReachesInTime;
    One(s, Both(rest, CheckPending, false, Scan, fiber, timers, 0), ReadPending(0),
        Both(rest, CheckTasks, false, Scan, fiber, timers, 0));
    One(s, Both(rest, CheckTasks, false, Scan, fiber, timers, 0), ReadTasks(0),
        Both(rest, Scan, true, Scan, fiber, timers, 0));
  }

  lemma FirstLeaves(s: State, rest: seq<Worker>, fiber: Fiber, timers: map<nat, nat>)
    requires ReachesInTime(s, Both(rest, Scan, true, Scan, fiber, timers, 0))
    ensures ReachesInTime(s, Both(rest, Broken, true, Scan, fiber, timers, 0))
  {
    hide LegalTrace, InTimeTrace, ReachesInTime;
    One(s, Both(rest, Scan, true, Scan, fiber, timers, 0), Take(0),
        Both(rest, Phase.Decide, true, Scan, fiber, timers, 0));
    One(s, Both(rest, Phase.Decide, true, Scan, fiber, timers, 0), EnterIdle(0),
        Both(rest, Broken, true, Scan, fiber, timers, 0));
  }

  /**
   With two workers or more one of them can leave `run` although a timer is set, in a run in which other
   threads add nothing at all: it reads the timers, a task of another worker adds one and finishes, and it
   reads the rest.
   */
  lemma TwoWorkers(n: nat)
    requires n >= 2
    ensures exists t ::
          ReachesInTime(Init(true, n), t) && |t.workers| == n && t.workers[0] == Worker(Broken, true)
          && t.timers == map[0 := 7]
  {
    hide ReachesInTime;
    var s := Init(true, n);
    var rest := s.workers[2..];
    assert s.workers == [Worker(Scan, false), Worker(Scan, false)] + rest;
    SecondTakes(s, rest);
    SecondRuns(s, rest);
    FirstReadsTimers(s, rest, Fiber(RUNNING, Some(1), true, false));
    SecondAddsTimer(s, rest);
    FirstReadsRest(s, rest, Fiber(TERM, None, true, false), map[0 := 7]);
    FirstLeaves(s, rest, Fiber(TERM, None, true, false), map[0 := 7]);
  }
}
