/**
 Quiescence of the base scheduler (code/scheduler.cpp), for any number of workers: once
 Scheduler::stopping has returned true it stays true, and a worker leaves `run` only when nothing is
 queued, nothing is executing and every entry ever posted has been consumed once. Other threads may post
 until some worker has seen quiescence; LatePostStays shows what happens to a later entry.
 */
module Quiescence {
  import opened TaskQueue
  import opened EventRegistry
  import opened Runtime
  import opened RuntimeSafety

  /** Some worker has seen quiescence. */
  ghost predicate Told(s: State) { exists w :: 0 <= w < |s.workers| && s.workers[w].idleTerm }

  /** Another thread puts an entry into the queue: it posts, or cancels a wait. */
  predicate PostsFromOutside(s: State, step: Step) {
    || step.ExtPost?
    || (step.ExtCancelEvent? && step.key in s.registry.slots)
    || (step.ExtCancelAll? && Events(s.registry, step.fd) != {})
  }

  /** Once quiescence has been seen, entries come only from running tasks. */
  ghost predicate NoLatePost(s: State, step: Step) {
    PostsFromOutside(s, step) ==> !Told(s)
  }

  /** An idle fiber finishes only at quiescence, and a worker leaves only after its idle fiber has finished. */
  ghost predicate Sound(s: State) {
    && !s.io
    && Counted(s)
    && (forall w | 0 <= w < |s.workers| && s.workers[w].phase.IdleWork? :: s.workers[w].phase.cbs == [])
    && (forall w | 0 <= w < |s.workers| && s.workers[w].phase.Broken? :: s.workers[w].idleTerm)
    && (Told(s) ==> Quiescent(s))
  }

  lemma InactiveMeansNobodyBusy(s: State, w: nat)
    requires Counted(s) && w < |s.workers| && Busy(s.workers[w].phase)
    ensures s.active > 0
  {
    assert w in BusyWorkers(s);
  }

  lemma FiredTasks(s: State, key: Key)
    ensures key !in s.registry.slots ==> Fired(s, key) == s
    ensures key in s.registry.slots ==> Fired(s, key).tasks != []
    ensures s.tasks != [] ==> Fired(s, key).tasks != []
  {}

  /** What cancelAll does to the queue: nothing exactly when nothing is registered. */
  lemma FiredAllTasks(s: State, fd: nat)
    ensures var es := Events(s.registry, fd);
            (es == {} ==> FiredAll(s, fd, es) == s) && (es != {} ==> FiredAll(s, fd, es).tasks != [])
  {
    hide Fired;
    var es := Events(s.registry, fd);
    var u := if READ in es then Fired(s, Key(fd, READ)) else s;
    ByEvent(es);
    FiredTasks(s, Key(fd, READ));
    FiredTasks(u, Key(fd, WRITE));
    if READ !in es && WRITE in es { assert u == s; }
  }

  /** Quiescence ends with an entry put in by another thread, and with nothing else: workers neither post nor take. */
  lemma QuiescentStep(s: State, step: Step)
    requires Sound(s) && Quiescent(s) && Enabled(s, step)
    ensures Quiescent(Next(s, step)) <==> !PostsFromOutside(s, step)
    ensures !PostsFromOutside(s, step) ==> Next(s, step).taken == s.taken && Next(s, step).pushed == s.pushed
  {
    hide BusyWorkers, Fired, FiredAll, Events;
    if step.ExtCancelEvent? { FiredTasks(s, step.key); }
    if step.ExtCancelAll? { FiredAllTasks(s, step.fd); }
    if Actor(step).Some? {
      var w := Actor(step).value;
      if Busy(s.workers[w].phase) {
        InactiveMeansNobodyBusy(s, w);
        assert false;
      }
    }
  }

  /** What a step does to the workers as far as leaving `run` goes. */
  lemma Leaving(s: State, step: Step)
    requires Sound(s) && Enabled(s, step)
    ensures var t := Next(s, step);
            && t.io == s.io && |t.workers| == |s.workers|
            && (forall w | 0 <= w < |t.workers| && t.workers[w].phase.IdleWork? :: t.workers[w].phase.cbs == [])
            && (forall w | 0 <= w < |t.workers| && t.workers[w].phase.Broken? :: t.workers[w].idleTerm)
            && (Told(t) && !Told(s) ==> Quiescent(s) && step.ReadTasks?)
  {
    hide Counted, Quiescent, Next, Quiet;
    IoKept(s, step);
    if Quiet(step) {
      QuietWorkers(s, step);
    } else {
      LeavingMoves(s, step);
    }
  }

  /** What a worker's own step does to it as far as leaving `run` goes. */
  ghost predicate OwnLeaving(s: State, t: State, step: Step, w: nat) {
    && w < |s.workers| == |t.workers|
    && var a, b := s.workers[w], t.workers[w];
       && (b.phase.IdleWork? ==> b.phase.cbs == [])
       && (b.phase.Broken? ==> b.idleTerm)
       && (b.idleTerm && !a.idleTerm ==> Quiescent(s) && step.ReadTasks?)
  }

  lemma TakeLeaving(s: State, w: nat)
    requires Sound(s) && w < |s.workers| && s.workers[w].phase.Scan?
    ensures OwnLeaving(s, AfterTake(s, w), Take(w), w)
  {
    hide FirstAllowed, Without, Counted, Quiescent;
  }

  lemma LeavingOwn(s: State, step: Step)
    requires Sound(s) && Enabled(s, step) && !Quiet(step)
    ensures OwnLeaving(s, Next(s, step), step, step.w)
  {
    hide Counted, Quiescent, Pushed, AfterTake;
    if step.Take? { TakeLeaving(s, step.w); }
  }

  lemma LeavingMoves(s: State, step: Step)
    requires Sound(s) && Enabled(s, step) && !Quiet(step)
    ensures var t := Next(s, step);
            && |t.workers| == |s.workers|
            && (forall w | 0 <= w < |t.workers| && t.workers[w].phase.IdleWork? :: t.workers[w].phase.cbs == [])
            && (forall w | 0 <= w < |t.workers| && t.workers[w].phase.Broken? :: t.workers[w].idleTerm)
            && (Told(t) && !Told(s) ==> Quiescent(s) && step.ReadTasks?)
  {
    hide Counted, Quiescent, Next, Enabled, Quiet, Busy;
    OwnPhase(s, step);
    LeavingOwn(s, step);
  }

  /** Which idle fiber the workers run never changes. */
  lemma IoKept(s: State, step: Step)
    requires Enabled(s, step)
    ensures Next(s, step).io == s.io
  {
    hide Next, Enabled;
    if Quiet(step) {
      IoQuiet(s, step);
    } else {
      IoMoves(s, step);
    }
  }

  lemma IoMoves(s: State, step: Step)
    requires Enabled(s, step) && !Quiet(step)
    ensures Next(s, step).io == s.io
  {
    hide Pushed, AfterTake;
    if step.Take? {
      TakeSame(s, step.w);
    } else if step.PostExpired? {
      PushedSame(s, CbBody(s.workers[step.w].phase.cbs[0]), ANY);
    }
  }

  lemma IoQuiet(s: State, step: Step)
    requires Enabled(s, step) && Quiet(step)
    ensures Next(s, step).io == s.io
  {
    hide FiredAll, Fired, Pushed;
    if Posting(step) {
      match step
      case ExtPost(body, thread) => PushedSame(s, body, thread);
      case Post(_, body, thread) => PushedSame(s, body, thread);
      case ExtCancelEvent(key) => FiredSame(s, key);
      case ExtCancelAll(fd) => FiredAllSame(s, fd, Events(s.registry, fd));
      case CancelEvent(_, key) => FiredSame(s, key);
      case CancelAll(_, fd) => FiredAllSame(s, fd, Events(s.registry, fd));
      case Dispatch(_, fd, ready) => FiredAllSame(s, fd, ready);
    }
  }

  lemma TakeSame(s: State, w: nat)
    requires w < |s.workers|
    ensures AfterTake(s, w).io == s.io
  {}

  lemma PushedSame(s: State, body: Body, thread: int)
    ensures var t := Pushed(s, body, thread);
            t.io == s.io && t.stopping == s.stopping && t.timers == s.timers && t.workers == s.workers
                && t.active == s.active
  {}

  lemma FiredSame(s: State, key: Key)
    ensures Fired(s, key).io == s.io && Fired(s, key).stopping == s.stopping && Fired(s, key).timers == s.timers
  {}

  lemma FiredAllSame(s: State, fd: nat, es: set<Event>)
    ensures FiredAll(s, fd, es).io == s.io && FiredAll(s, fd, es).stopping == s.stopping
          && FiredAll(s, fd, es).timers == s.timers
  {
    hide Fired;
    FiredSame(s, Key(fd, READ));
    FiredSame(if READ in es then Fired(s, Key(fd, READ)) else s, Key(fd, WRITE));
  }

  lemma SoundStep(s: State, step: Step)
    requires Sound(s) && Enabled(s, step) && NoLatePost(s, step)
    ensures Sound(Next(s, step))
  {
    hide Counted, Quiescent, Next, Enabled, InPhase, Told;
    CountedStep(s, step);
    Leaving(s, step);
    if Quiescent(s) {
      QuiescentStep(s, step);
    }
  }

  lemma InitSound(n: nat)
    ensures Sound(Init(false, n))
  {
    assert BusyWorkers(Init(false, n)) == {};
  }

  ghost predicate NoLatePosts(s: State, steps: seq<Step>)
    requires LegalTrace(s, steps)
    decreases |steps|
  {
    steps == [] || (NoLatePost(s, steps[0]) && NoLatePosts(Next(s, steps[0]), steps[1..]))
  }

  lemma {:induction false} SoundRun(s: State, steps: seq<Step>)
    requires Sound(s) && LegalTrace(s, steps) && NoLatePosts(s, steps)
    ensures Sound(RunAll(s, steps))
    decreases |steps|
  {
    hide Sound, Next, Enabled, NoLatePost;
    if steps != [] {
      SoundStep(s, steps[0]);
      SoundRun(Next(s, steps[0]), steps[1..]);
    }
  }

  ghost predicate LeftAlone(s: State, steps: seq<Step>)
    requires LegalTrace(s, steps)
    decreases |steps|
  {
    steps == [] || (!PostsFromOutside(s, steps[0]) && LeftAlone(Next(s, steps[0]), steps[1..]))
  }

  /**
   Once Scheduler::stopping would return true it keeps returning true, and nothing is posted or taken, until
   another thread posts.
   */
  lemma {:induction false} QuiescenceStable(s: State, steps: seq<Step>)
    requires Sound(s) && Quiescent(s) && LegalTrace(s, steps) && LeftAlone(s, steps)
    ensures var t := RunAll(s, steps);
            Quiescent(t) && t.taken == s.taken && t.pushed == s.pushed
    decreases |steps|
  {
    hide Sound, Quiescent, Next, Enabled, PostsFromOutside;
    if steps != [] {
      SoundUnlessPosted(s, steps[0]);
      QuiescentStep(s, steps[0]);
      QuiescenceStable(Next(s, steps[0]), steps[1..]);
    }
  }

  lemma SoundUnlessPosted(s: State, step: Step)
    requires Sound(s) && Enabled(s, step) && !PostsFromOutside(s, step)
    ensures Sound(Next(s, step))
  {
    hide Sound, Next, Enabled;
    SoundStep(s, step);
  }

  /**
   When any worker has left `run`, the queue is empty, no worker is between taking a task and giving up
   the active count, and every entry posted was consumed exactly once.
   */
  lemma LeavesOnlyWhenDone(n: nat, steps: seq<Step>)
    requires LegalTrace(Init(false, n), steps) && NoLatePosts(Init(false, n), steps)
    ensures var s := RunAll(Init(false, n), steps);
            (exists w :: 0 <= w < |s.workers| && s.workers[w].phase.Broken?) ==>
              && s.tasks == []
              && (forall w | 0 <= w < |s.workers| :: !Busy(s.workers[w].phase))
              && (forall k: nat :: k < s.pushed <==> k in Consumed(s))
              && (forall i, j | 0 <= i < j < |s.taken| :: s.taken[i].task.serial != s.taken[j].task.serial)
  {
    hide RunAll, LegalTrace;
    InitSound(n);
    SoundRun(Init(false, n), steps);
    QueueDiscipline(false, n, steps);
    Consequences(RunAll(Init(false, n), steps));
  }

  lemma Consequences(s: State)
    requires Sound(s) && Ledger(s)
    ensures (exists w :: 0 <= w < |s.workers| && s.workers[w].phase.Broken?) ==>
              && s.tasks == []
              && (forall w | 0 <= w < |s.workers| :: !Busy(s.workers[w].phase))
              && (forall k: nat :: k < s.pushed <==> k in Consumed(s))
  {
    if w :| 0 <= w < |s.workers| && s.workers[w].phase.Broken? {
      assert s.workers[w].idleTerm;
      assert Told(s);
      assert Queued(s) == {};
      forall v | 0 <= v < |s.workers| ensures !Busy(s.workers[v].phase) {
        assert v !in BusyWorkers(s);
      }
    }
  }

  // ---------------------------------------------------------------- an entry posted later

  /** A worker that has seen quiescence and will not look for an entry of this thread again. */
  predicate PastTaking(worker: Worker, w: nat, thread: int) {
    worker.idleTerm
        && (worker.phase.Decide? || worker.phase.Broken? || (worker.phase.Scan? && thread != ANY && thread != w))
  }

  /** It leaves `run` with the entry still in the queue. */
  lemma LatePostStays(s: State, w: nat, body: Body, thread: int)
    requires Sound(s) && w < |s.workers| && PastTaking(s.workers[w], w, thread) && BodyKnown(s, body)
    ensures Enabled(s, ExtPost(body, thread))
    ensures exists t :: Reaches(Next(s, ExtPost(body, thread)), t) && w < |t.workers| && t.workers[w].phase.Broken?
                     && t.tasks == [Task(s.pushed, body, thread)]
  {
    hide Reaches, Counted;
    assert Told(s);
    var u := Next(s, ExtPost(body, thread));
    assert u.tasks == [Task(s.pushed, body, thread)] && u.workers == s.workers && !u.io;
    hide Next, Enabled, Pushed;
    if u.workers[w].phase.Scan? {
      PassesOver(u, w, thread);
      LeavesNow(To(u, w, Phase.Decide), w);
      Before(u, Take(w), To(u, w, Phase.Decide), To(To(u, w, Phase.Decide), w, Broken));
    } else if u.workers[w].phase.Decide? {
      LeavesNow(u, w);
    } else {
      Here(u);
    }
  }

  lemma PassesOver(s: State, w: nat, thread: int)
    requires w < |s.workers| && s.workers[w].phase.Scan? && |s.tasks| == 1 && s.tasks[0].thread == thread
          && thread != ANY && thread != w
    ensures Enabled(s, Take(w)) && Next(s, Take(w)) == To(s, w, Phase.Decide)
  {
    FirstAllowedUnique(s.tasks, w, 1);
  }

  lemma LeavesNow(s: State, w: nat)
    requires w < |s.workers| && s.workers[w].phase.Decide? && s.workers[w].idleTerm
    ensures Reaches(s, To(s, w, Broken))
  {
    hide Reaches;
    Here(To(s, w, Broken));
    Before(s, EnterIdle(w), To(s, w, Broken), To(s, w, Broken));
  }

  /** Otherwise the worker is at the top of its loop, and its next step takes the entry. */
  lemma LatePostTaken(s: State, w: nat, body: Body, thread: int)
    requires Sound(s) && w < |s.workers| && s.workers[w].idleTerm && !PastTaking(s.workers[w], w, thread)
          && s.workers[w].phase.Scan?
    requires BodyKnown(s, body)
    ensures var u := Next(s, ExtPost(body, thread));
            && Enabled(u, Take(w))
            && Next(u, Take(w)).tasks == []
                  && Next(u, Take(w)).taken == s.taken + [Taken(Task(s.pushed, body, thread), w)]
  {
    hide Counted;
    assert Told(s);
    var u := Next(s, ExtPost(body, thread));
    FirstAllowedUnique(u.tasks, w, 0);
  }

  /** A worker before and after one step of its own. */
  function Alone(s: State, p: Phase, term: bool): State {
    s.(workers := [Worker(p, term)])
  }

  lemma TakesNothing(s: State, term: bool)
    requires s == Alone(s, Scan, term) && s.tasks == []
    ensures Enabled(s, Take(0)) && Next(s, Take(0)) == Alone(s, Phase.Decide, term)
  {}

  lemma LooksAtIdle(s: State)
    requires s == Alone(s, Phase.Decide, false) && !s.io
    ensures Enabled(s, EnterIdle(0)) && Next(s, EnterIdle(0)) == Alone(s, CheckTasks, false)
  {}

  lemma SeesQuiescence(s: State)
    requires s == Alone(s, CheckTasks, false) && Quiescent(s)
    ensures Enabled(s, ReadTasks(0)) && Next(s, ReadTasks(0)) == Alone(s, Scan, true)
  {}

  lemma PostedLate(s: State)
    requires s.tasks == []
    ensures Enabled(s, ExtPost(CbBody(0), ANY))
    ensures Next(s, ExtPost(CbBody(0), ANY)) == s.(tasks := [Task(s.pushed, CbBody(0), ANY)], pushed := s.pushed + 1)
  {}

  lemma Stops(s: State)
    ensures Enabled(s, ExtStop) && Next(s, ExtStop) == s.(stopping := true)
  {}

  /** From the start: the sole worker sees quiescence, and leaves `run` with an entry posted after that. */
  lemma LatePost()
    ensures exists t :: Reaches(Init(false, 1), t) && t.workers == [Worker(Broken, true)] && |t.tasks| == 1
  {
    hide Reaches, Next, Enabled;
    var s0 := Init(false, 1);
    assert s0.workers == [Worker(Scan, false)];
    var s1 := s0.(stopping := true);
    var s2, s3, s4, s5 :=
          Alone(s1, Phase.Decide, false), Alone(s1, CheckTasks, false), Alone(s1, Scan, true),
          Alone(s1, Phase.Decide, true);
    var s6 := s5.(tasks := [Task(0, CbBody(0), ANY)], pushed := 1);
    Stops(s0);
    TakesNothing(s1, false);
    LooksAtIdle(s2);
    SeesQuiescence(s3);
    TakesNothing(s4, true);
    PostedLate(s5);
    LeavesNow(s6, 0);
    var t := To(s6, 0, Broken);
    Before(s5, ExtPost(CbBody(0), ANY), s6, t);
    Before(s4, Take(0), s5, t);
    Before(s3, ReadTasks(0), s4, t);
    Before(s2, EnterIdle(0), s3, t);
    Before(s1, Take(0), s2, t);
    Before(s0, ExtStop, s1, t);
  }
}
