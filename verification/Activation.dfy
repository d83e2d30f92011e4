/**
 Transfer of control between fibers (code/fiber.cpp): `resume` and `yield` on the saved contexts and the
 thread-local current, thread and scheduler fibers, for any number of threads, whether or not a thread
 runs its scheduler in a fiber of its own (code/scheduler.cpp:21-30, 120-129, 179-182).

 A context is a stack and the place on it to go on from; `swapcontext` stores the running stack in one
 context and goes on from another. Every `resume` has a number, so that one can say which of them a
 `yield` comes back to.
 */
module Activation {
  import opened Prelude

  /** Where a stack goes on: at MainFunc, inside a numbered `resume`, after a `yield`; Base is the thread's own code. */
  datatype Point = Base | Entry | InResume(fiber: nat, call: nat) | InYield

  datatype Context = Context(stack: nat, point: Point)

  datatype Fiber = Fiber(state: FiberState, inScheduler: bool, ctx: Context)

  /** The thread-locals, what the thread executes, and its `resume` calls that have not come back. */
  datatype Thread = Thread(current: nat, thread: nat, scheduler: nat, running: Context, calls: seq<Call>)

  datatype Call = Call(fiber: nat, serial: nat)

  datatype State = State(fibers: seq<Fiber>, threads: seq<Thread>, resumes: nat)

  datatype Step =
    | NewThread                   // GetThis on a thread without fibers
    | NewFiber(inScheduler: bool)
    | SetScheduler(w: nat, f: nat)
    | Resume(w: nat, f: nat)
    | Yield(w: nat)
    | Finish(w: nat)              // MainFunc after the callback
    | Reset(f: nat)

  /** The fiber whose context `resume` of `f` saves into and `yield` of `f` loads from. */
  function Via(s: State, w: nat, f: nat): (v: nat)
    requires w < |s.threads| && f < |s.fibers|
  {
    if s.fibers[f].inScheduler then s.threads[w].scheduler else s.threads[w].thread
  }

  /** swapcontext: `save` keeps what thread `w` was executing at `point`, and `w` goes on from `load`. */
  function Swap(s: State, w: nat, save: nat, point: Point, load: nat): State
    requires w < |s.threads| && save < |s.fibers| && load < |s.fibers|
  {
    var fibers := s.fibers[save := s.fibers[save].(ctx := Context(s.threads[w].running.stack, point))];
    s.(fibers := fibers, threads := s.threads[w := s.threads[w].(running := fibers[load].ctx)])
  }

  predicate Enabled(s: State, step: Step) {
    match step
    case NewThread => true
    case NewFiber(_) => true
    case SetScheduler(w, f) => w < |s.threads| && f < |s.fibers|
    case Resume(w, f) => w < |s.threads| && f < |s.fibers| && s.fibers[f].state == READY && Via(s, w, f) < |s.fibers|
    case Yield(w) => w < |s.threads| && s.threads[w].current < |s.fibers|
          && s.fibers[s.threads[w].current].state != READY && Via(s, w, s.threads[w].current) < |s.fibers|
    case Finish(w) => w < |s.threads| && s.threads[w].current < |s.fibers|
          && Via(s, w, s.threads[w].current) < |s.fibers|
    case Reset(f) => f < |s.fibers| && s.fibers[f].state == TERM
  }

  function SetState(s: State, f: nat, state: FiberState): State
    requires f < |s.fibers|
  {
    s.(fibers := s.fibers[f := s.fibers[f].(state := state)])
  }

  function SetThis(s: State, w: nat, f: nat): State
    requires w < |s.threads|
  {
    s.(threads := s.threads[w := s.threads[w].(current := f)])
  }

  /** The bookkeeping of calls: a resume is made, or the latest one comes back. */
  function Made(s: State, w: nat, f: nat): State
    requires w < |s.threads|
  {
    var calls := s.threads[w].calls + [Call(f, s.resumes)];
    s.(threads := s.threads[w := s.threads[w].(calls := calls)], resumes := s.resumes + 1)
  }

  function CameBack(s: State, w: nat): State
    requires w < |s.threads|
  {
    var calls := s.threads[w].calls;
    if calls == [] then s else s.(threads := s.threads[w := s.threads[w].(calls := calls[..|calls| - 1])])
  }

  function YieldAs(s: State, w: nat, state: FiberState): State
    requires w < |s.threads| && s.threads[w].current < |s.fibers| && Via(s, w, s.threads[w].current) < |s.fibers|
  {
    var f := s.threads[w].current;
    var via := Via(s, w, f);
    CameBack(Swap(SetThis(SetState(s, f, state), w, via), w, f, InYield, via), w)
  }

  function Next(s: State, step: Step): State
    requires Enabled(s, step)
  {
    match step
    case NewThread =>
      var f := |s.fibers|;
      s.(fibers := s.fibers + [Fiber(RUNNING, true, Context(f, Base))],
         threads := s.threads + [Thread(f, f, f, Context(f, Base), [])])
    case NewFiber(inScheduler) =>
      s.(fibers := s.fibers + [Fiber(READY, inScheduler, Context(|s.fibers|, Entry))])
    case SetScheduler(w, f) => s.(threads := s.threads[w := s.threads[w].(scheduler := f)])
    case Resume(w, f) =>
      Made(Swap(SetThis(SetState(s, f, RUNNING), w, f), w, Via(s, w, f), InResume(f, s.resumes), f), w, f)
    case Yield(w) => YieldAs(s, w, if s.fibers[s.threads[w].current].state == TERM then TERM else READY)
    case Finish(w) => YieldAs(s, w, TERM)
    case Reset(f) => s.(fibers := s.fibers[f := s.fibers[f].(state := READY, ctx := Context(f, Entry))])
  }

  /** MainFunc marks the fiber TERM and then yields. */
  lemma FinishYields(s: State, w: nat)
    requires Enabled(s, Finish(w))
    ensures var t := SetState(s, s.threads[w].current, TERM);
            Enabled(t, Yield(w)) && Next(t, Yield(w)) == Next(s, Finish(w))
  {
    var f := s.threads[w].current;
    var t := SetState(s, f, TERM);
    assert t.fibers[f := t.fibers[f]] == t.fibers;
  }

  // ---------------------------------------------------------------- how the scheduler uses them

  /**
   `run` resumes tasks and idle fibers from the scheduler fiber, `stop` resumes the scheduler fiber from the
   thread fiber; only resumed fibers yield; a thread gets its scheduler fiber, made for it, before anything runs.
   */
  predicate Disciplined(s: State, step: Step)
    requires Enabled(s, step)
  {
    match step
    case SetScheduler(w, f) =>
      && s.threads[w].calls == [] && s.threads[w].scheduler == s.threads[w].thread
      && s.fibers[f].state == READY && !s.fibers[f].inScheduler
      && forall v | 0 <= v < |s.threads| :: s.threads[v].scheduler != f
    case Resume(w, f) =>
      && s.threads[w].current == Via(s, w, f)
      && (s.fibers[f].inScheduler || f == s.threads[w].scheduler)
    case Yield(w) => s.threads[w].calls != []
    case Finish(w) => s.threads[w].calls != []
    case _ => true
  }

  // ---------------------------------------------------------------- the activation chain

  /** The thread fiber and then the fibers resumed, innermost last. */
  function ChainAt(t: Thread, i: nat): (f: nat)
    requires i <= |t.calls|
  {
    if i == 0 then t.thread else t.calls[i - 1].fiber
  }

  /** On its chain, each fiber but the last waits inside the `resume` of the next one. */
  predicate Chained(s: State, w: nat)
    requires w < |s.threads|
  {
    var t := s.threads[w];
    && (forall i | 0 <= i <= |t.calls| :: ChainAt(t, i) < |s.fibers|)
    && t.current == ChainAt(t, |t.calls|) == t.running.stack
    && (forall i | 0 <= i < |t.calls| ::
          s.fibers[ChainAt(t, i)].ctx == Context(ChainAt(t, i), InResume(t.calls[i].fiber, t.calls[i].serial)))
  }

  /** Thread fiber, scheduler fiber if distinct, then at most one task or idle fiber. */
  predicate Layered(s: State, w: nat)
    requires w < |s.threads|
  {
    var t := s.threads[w];
    && t.scheduler < |s.fibers|
    && if t.scheduler == t.thread then
         |t.calls| <= 1 && forall i | 0 <= i < |t.calls| ::
             t.calls[i].fiber < |s.fibers| && s.fibers[t.calls[i].fiber].inScheduler
       else
         && |t.calls| <= 2 && !s.fibers[t.scheduler].inScheduler
         && (|t.calls| >= 1 ==> t.calls[0].fiber == t.scheduler)
         && (|t.calls| == 2 ==> t.calls[1].fiber < |s.fibers| && s.fibers[t.calls[1].fiber].inScheduler)
  }

  /** Fiber `f` is at place `i` of the chain of thread `w`. */
  predicate On(s: State, w: int, i: int, f: nat) {
    0 <= w < |s.threads| && 0 <= i <= |s.threads[w].calls| && ChainAt(s.threads[w], i) == f
  }

  /** A fiber is RUNNING exactly when it is on the chain of a thread, and it is on one chain once. */
  ghost predicate Partitioned(s: State) {
    && (forall w, i, v, j, f: nat | On(s, w, i, f) && On(s, v, j, f) :: w == v && i == j)
    && (forall w, i, f: nat | On(s, w, i, f) :: f < |s.fibers| && s.fibers[f].state == RUNNING)
    && (forall f | 0 <= f < |s.fibers| && s.fibers[f].state == RUNNING :: exists w, i :: On(s, w, i, f))
  }

  ghost predicate Active(s: State) {
    && (forall w | 0 <= w < |s.threads| :: Chained(s, w) && Layered(s, w))
    && Partitioned(s)
    && (forall f | 0 <= f < |s.fibers| && s.fibers[f].state != RUNNING :: s.fibers[f].ctx.stack == f)
    && (forall w, v | 0 <= w < v < |s.threads| :: s.threads[w].scheduler != s.threads[v].scheduler)
  }

  /** The fibers of one thread's chain, by place. */
  lemma OnOwn(s: State, w: nat)
    requires Partitioned(s) && w < |s.threads|
    ensures forall i | 0 <= i <= |s.threads[w].calls| ::
          ChainAt(s.threads[w], i) < |s.fibers| && s.fibers[ChainAt(s.threads[w], i)].state == RUNNING
    ensures forall i, j | 0 <= i < j <= |s.threads[w].calls| :: ChainAt(s.threads[w], i) != ChainAt(s.threads[w], j)
  {
    assert forall i | 0 <= i <= |s.threads[w].calls| :: On(s, w, i, ChainAt(s.threads[w], i));
  }

  /** Different threads have no fiber in common. */
  lemma OnOthers(s: State, w: nat, i: nat, v: nat)
    requires Partitioned(s) && w < |s.threads| && i <= |s.threads[w].calls| && v < |s.threads| && v != w
    ensures forall j | 0 <= j <= |s.threads[v].calls| :: ChainAt(s.threads[v], j) != ChainAt(s.threads[w], i)
  {
    assert On(s, w, i, ChainAt(s.threads[w], i));
    forall j | 0 <= j <= |s.threads[v].calls| ensures ChainAt(s.threads[v], j) != ChainAt(s.threads[w], i) {
      assert On(s, v, j, ChainAt(s.threads[v], j));
    }
  }

  // ---------------------------------------------------------------- resume

  predicate OthersKept(s: State, t: State, w: nat) {
    && |t.threads| == |s.threads| && |t.fibers| == |s.fibers|
    && forall v | 0 <= v < |s.threads| && v != w :: t.threads[v] == s.threads[v]
  }

  /** A thread on whose chain no fiber has changed. */
  lemma Untouched(s: State, t: State, v: nat)
    requires v < |s.threads| && v < |t.threads| && t.threads[v] == s.threads[v] && Chained(s, v) && Layered(s, v)
    requires |s.fibers| <= |t.fibers|
    requires forall i | 0 <= i <= |s.threads[v].calls| ::
          t.fibers[ChainAt(s.threads[v], i)] == s.fibers[ChainAt(s.threads[v], i)]
    requires t.fibers[s.threads[v].scheduler].inScheduler == s.fibers[s.threads[v].scheduler].inScheduler
    ensures Chained(t, v) && Layered(t, v)
  {
    assert forall i | 0 <= i < |s.threads[v].calls| :: ChainAt(s.threads[v], i + 1) == s.threads[v].calls[i].fiber;
  }

  /** Where the caller of a disciplined `resume` stands. */
  lemma ResumeFromTop(s: State, w: nat, f: nat)
    requires Active(s) && Enabled(s, Resume(w, f)) && Disciplined(s, Resume(w, f))
    ensures var t := s.threads[w];
            && t.running.stack == t.current == Via(s, w, f)
            && if t.scheduler == t.thread || !s.fibers[f].inScheduler then t.calls == [] else |t.calls| == 1
    ensures s.threads[w].scheduler == s.threads[w].thread ==> s.fibers[f].inScheduler
  {
    var t := s.threads[w];
    hide Partitioned;
    OnOwn(s, w);
    assert Chained(s, w) && Layered(s, w);
  }

  lemma ResumeOwn(s: State, w: nat, f: nat)
    requires Active(s) && Enabled(s, Resume(w, f)) && Disciplined(s, Resume(w, f))
    ensures Chained(Next(s, Resume(w, f)), w) && Layered(Next(s, Resume(w, f)), w)
  {
    var t, u := s.threads[w], Next(s, Resume(w, f));
    hide Partitioned;
    ResumeFromTop(s, w, f);
    OnOwn(s, w);
    assert Chained(s, w) && Layered(s, w);
    assert forall i | 0 <= i <= |t.calls| :: ChainAt(u.threads[w], i) == ChainAt(t, i);
    assert ChainAt(u.threads[w], |t.calls| + 1) == f;
  }

  lemma ResumeActive(s: State, w: nat, f: nat)
    requires Active(s) && Enabled(s, Resume(w, f)) && Disciplined(s, Resume(w, f))
    ensures Active(Next(s, Resume(w, f)))
  {
    hide Partitioned, Chained, Layered;
    var u := Next(s, Resume(w, f));
    ResumeFromTop(s, w, f);
    ResumeOwn(s, w, f);
    forall v | 0 <= v < |s.threads| && v != w ensures Chained(u, v) && Layered(u, v) {
      ResumeOther(s, w, f, v);
    }
    ResumePartition(s, u, w, f);
  }

  lemma ResumeOther(s: State, w: nat, f: nat, v: nat)
    requires Active(s) && Enabled(s, Resume(w, f)) && Disciplined(s, Resume(w, f)) && v < |s.threads| && v != w
    ensures Chained(Next(s, Resume(w, f)), v) && Layered(Next(s, Resume(w, f)), v)
  {
    hide Partitioned;
    var u := Next(s, Resume(w, f));
    ResumeFromTop(s, w, f);
    assert Chained(s, w) && Chained(s, v) && Layered(s, v);
    OnOwn(s, v);
    OnOthers(s, w, |s.threads[w].calls|, v);
    Untouched(s, u, v);
  }

  /** The chain of `w` gets one more fiber, which was on none. */
  lemma ResumePartition(s: State, u: State, w: nat, f: nat)
    requires Partitioned(s) && w < |s.threads| && f < |s.fibers| && s.fibers[f].state != RUNNING && OthersKept(s, u, w)
    requires u.threads[w].thread == s.threads[w].thread && exists c: Call ::
          c.fiber == f && u.threads[w].calls == s.threads[w].calls + [c]
    requires forall g | 0 <= g < |s.fibers| && g != f :: u.fibers[g].state == s.fibers[g].state
    requires u.fibers[f].state == RUNNING
    ensures Partitioned(u)
  {
    var n := |s.threads[w].calls|;
    forall v, i, g: nat ensures On(u, v, i, g) <==> On(s, v, i, g) || (v == w && i == n + 1 && g == f) {
      var c: Call :| c.fiber == f && u.threads[w].calls == s.threads[w].calls + [c];
    }
    PartitionBy(s, u, w, n + 1, f);
  }

  lemma PartitionBy(s: State, u: State, w: nat, k: nat, f: nat)
    requires Partitioned(s) && f < |s.fibers| == |u.fibers| && s.fibers[f].state != RUNNING
          && u.fibers[f].state == RUNNING
    requires forall v, i, g: nat :: On(u, v, i, g) <==> On(s, v, i, g) || (v == w && i == k && g == f)
    requires forall g | 0 <= g < |s.fibers| && g != f :: u.fibers[g].state == s.fibers[g].state
    ensures Partitioned(u)
  {
    hide On;
    forall g | 0 <= g < |u.fibers| && u.fibers[g].state == RUNNING ensures exists v, i :: On(u, v, i, g) {
      if g == f {
        assert On(u, w, k, f);
      } else {
        var v, i :| On(s, v, i, g);
        assert On(u, v, i, g);
      }
    }
  }

  // ---------------------------------------------------------------- yield

  /** What `yield` finds: the fiber below it on the chain, waiting in the `resume` that is to come back. */
  lemma YieldToCaller(s: State, w: nat)
    requires Active(s) && w < |s.threads| && s.threads[w].calls != []
    ensures var t := s.threads[w];
            var n := |t.calls|;
            && t.current == t.calls[n - 1].fiber == t.running.stack && t.current < |s.fibers|
            && Via(s, w, t.current) == ChainAt(t, n - 1) < |s.fibers|
            && Via(s, w, t.current) != t.current
            && s.fibers[Via(s, w, t.current)].ctx ==
                  Context(Via(s, w, t.current), InResume(t.current, t.calls[n - 1].serial))
  {
    hide Partitioned;
    OnOwn(s, w);
    assert Chained(s, w) && Layered(s, w);
  }

  lemma YieldOwn(s: State, w: nat, state: FiberState)
    requires Active(s) && w < |s.threads| && s.threads[w].calls != []
    requires s.threads[w].current < |s.fibers| && Via(s, w, s.threads[w].current) < |s.fibers|
    ensures Chained(YieldAs(s, w, state), w) && Layered(YieldAs(s, w, state), w)
  {
    var t, u := s.threads[w], YieldAs(s, w, state);
    hide Partitioned;
    YieldToCaller(s, w);
    OnOwn(s, w);
    assert Chained(s, w) && Layered(s, w);
    assert forall i | 0 <= i < |t.calls| :: ChainAt(u.threads[w], i) == ChainAt(t, i);
  }

  lemma YieldOther(s: State, w: nat, state: FiberState, v: nat)
    requires Active(s) && w < |s.threads| && s.threads[w].calls != [] && v < |s.threads| && v != w
    requires s.threads[w].current < |s.fibers| && Via(s, w, s.threads[w].current) < |s.fibers|
    ensures Chained(YieldAs(s, w, state), v) && Layered(YieldAs(s, w, state), v)
  {
    hide Partitioned;
    var u := YieldAs(s, w, state);
    YieldToCaller(s, w);
    OnOthers(s, w, |s.threads[w].calls|, v);
    assert Chained(s, w) && Chained(s, v) && Layered(s, v);
    Untouched(s, u, v);
  }

  lemma YieldPartition(s: State, u: State, w: nat)
    requires Partitioned(s) && w < |s.threads| && s.threads[w].calls != [] && OthersKept(s, u, w)
    requires var n := |s.threads[w].calls|;
             && u.threads[w].thread == s.threads[w].thread && u.threads[w].calls == s.threads[w].calls[..n - 1]
             && s.threads[w].current == s.threads[w].calls[n - 1].fiber < |s.fibers|
    requires forall g | 0 <= g < |s.fibers| && g != s.threads[w].current :: u.fibers[g].state == s.fibers[g].state
    requires u.fibers[s.threads[w].current].state != RUNNING
    ensures Partitioned(u)
  {
    var n, f := |s.threads[w].calls|, s.threads[w].current;
    assert forall v, i, g: nat :: On(s, v, i, g) <==> On(u, v, i, g) || (v == w && i == n && g == f);
    PartitionWithout(s, u, w, n, f);
  }

  lemma PartitionWithout(s: State, u: State, w: nat, k: nat, f: nat)
    requires Partitioned(s) && f < |s.fibers| == |u.fibers| && u.fibers[f].state != RUNNING
    requires forall v, i, g: nat :: On(s, v, i, g) <==> On(u, v, i, g) || (v == w && i == k && g == f)
    requires !On(u, w, k, f)
    requires forall g | 0 <= g < |s.fibers| && g != f :: u.fibers[g].state == s.fibers[g].state
    ensures Partitioned(u)
  {
    hide On;
    assert On(s, w, k, f);
    forall g | 0 <= g < |u.fibers| && u.fibers[g].state == RUNNING ensures exists v, i :: On(u, v, i, g) {
      var v, i :| On(s, v, i, g);
      assert On(u, v, i, g);
    }
  }

  lemma YieldActive(s: State, w: nat, state: FiberState)
    requires Active(s) && w < |s.threads| && s.threads[w].calls != [] && state != RUNNING
    requires s.threads[w].current < |s.fibers| && Via(s, w, s.threads[w].current) < |s.fibers|
    ensures Active(YieldAs(s, w, state))
  {
    hide Partitioned, Chained, Layered;
    var u := YieldAs(s, w, state);
    YieldToCaller(s, w);
    YieldOwn(s, w, state);
    forall v | 0 <= v < |s.threads| && v != w ensures Chained(u, v) && Layered(u, v) {
      YieldOther(s, w, state, v);
    }
    YieldPartition(s, u, w);
  }

  // ---------------------------------------------------------------- the other steps

  lemma FiberAdded(s: State, u: State)
    requires Active(s) && u.threads == s.threads && |s.fibers| <= |u.fibers|
    requires forall f | 0 <= f < |s.fibers| && s.fibers[f].state == RUNNING :: u.fibers[f] == s.fibers[f]
    requires forall f | 0 <= f < |s.fibers| :: u.fibers[f].inScheduler == s.fibers[f].inScheduler
    requires forall f | 0 <= f < |u.fibers| && (f < |s.fibers| ==> s.fibers[f].state != RUNNING) ::
          u.fibers[f].state != RUNNING && u.fibers[f].ctx.stack == f
    ensures Active(u)
  {
    assert forall w, i, f: nat :: On(u, w, i, f) <==> On(s, w, i, f);
    SamePartition(s, u);
    hide Partitioned;
    forall v | 0 <= v < |s.threads| ensures Chained(u, v) && Layered(u, v) {
      assert Chained(s, v) && Layered(s, v);
      OnOwn(s, v);
      Untouched(s, u, v);
    }
  }

  lemma SamePartition(s: State, u: State)
    requires Partitioned(s) && |s.fibers| <= |u.fibers|
    requires forall w, i, f: nat :: On(u, w, i, f) <==> On(s, w, i, f)
    requires forall f | 0 <= f < |s.fibers| :: u.fibers[f].state == RUNNING <==> s.fibers[f].state == RUNNING
    requires forall f | |s.fibers| <= f < |u.fibers| :: u.fibers[f].state != RUNNING
    ensures Partitioned(u)
  {
    hide On;
    forall f | 0 <= f < |u.fibers| && u.fibers[f].state == RUNNING ensures exists w, i :: On(u, w, i, f) {
      var w, i :| On(s, w, i, f);
      assert On(u, w, i, f);
    }
  }

  lemma NewThreadActive(s: State)
    requires Active(s)
    ensures Active(Next(s, NewThread))
  {
    var u, n := Next(s, NewThread), |s.threads|;
    assert forall v | 0 <= v < n :: u.threads[v] == s.threads[v];
    NewThreadPartition(s, u);
    hide Partitioned;
    assert forall f | 0 <= f < |s.fibers| :: u.fibers[f] == s.fibers[f];
    forall v | 0 <= v < n ensures Chained(u, v) && Layered(u, v) && u.threads[v].scheduler < |s.fibers| {
      assert Chained(s, v) && Layered(s, v);
      Untouched(s, u, v);
    }
  }

  lemma NewThreadPartition(s: State, u: State)
    requires Partitioned(s) && u == Next(s, NewThread)
    ensures Partitioned(u)
  {
    var f, n := |s.fibers|, |s.threads|;
    var t := s.(fibers := s.fibers + [Fiber(READY, true, Context(f, Base))]);
    assert forall w, i, g: nat :: On(t, w, i, g) <==> On(s, w, i, g);
    SamePartition(s, t);
    assert forall v | 0 <= v < n :: u.threads[v] == s.threads[v];
    assert forall w, i, g: nat :: On(u, w, i, g) <==> On(t, w, i, g) || (w == n && i == 0 && g == f);
    PartitionBy(t, u, n, 0, f);
  }

  lemma SetSchedulerActive(s: State, w: nat, f: nat)
    requires Active(s) && Enabled(s, SetScheduler(w, f)) && Disciplined(s, SetScheduler(w, f))
    ensures Active(Next(s, SetScheduler(w, f)))
  {
    var u := Next(s, SetScheduler(w, f));
    assert forall v | 0 <= v < |s.threads| ::
          u.threads[v].calls == s.threads[v].calls && u.threads[v].thread == s.threads[v].thread;
    assert forall v, i, g: nat :: On(u, v, i, g) <==> On(s, v, i, g);
    SamePartition(s, u);
    hide Partitioned;
    OnOwn(s, w);
    forall v | 0 <= v < |s.threads| ensures Chained(u, v) && Layered(u, v) {
      assert Chained(s, v) && Layered(s, v);
    }
  }

  lemma ActiveStep(s: State, step: Step)
    requires Active(s) && Enabled(s, step) && Disciplined(s, step)
    ensures Active(Next(s, step))
  {
    hide Chained, Layered, Partitioned, YieldAs;
    match step
    case NewThread => NewThreadActive(s);
    case NewFiber(_) => FiberAdded(s, Next(s, step));
    case SetScheduler(w, f) => SetSchedulerActive(s, w, f);
    case Resume(w, f) => ResumeActive(s, w, f);
    case Yield(w) => YieldActive(s, w, if s.fibers[s.threads[w].current].state == TERM then TERM else READY);
    case Finish(w) => YieldActive(s, w, TERM);
    case Reset(f) => FiberAdded(s, Next(s, step));
  }

  // ---------------------------------------------------------------- every run

  const NOTHING := State([], [], 0)

  ghost predicate LegalTrace(s: State, steps: seq<Step>)
    decreases |steps|
  {
    steps == [] || (Enabled(s, steps[0]) && Disciplined(s, steps[0]) && LegalTrace(Next(s, steps[0]), steps[1..]))
  }

  function RunAll(s: State, steps: seq<Step>): (t: State)
    requires LegalTrace(s, steps)
    decreases |steps|
  {
    if steps == [] then s else RunAll(Next(s, steps[0]), steps[1..])
  }

  lemma {:induction false} ActiveRun(s: State, steps: seq<Step>)
    requires Active(s) && LegalTrace(s, steps)
    ensures Active(RunAll(s, steps))
    decreases |steps|
  {
    hide Active, Next, Enabled, Disciplined;
    if steps != [] {
      ActiveStep(s, steps[0]);
      ActiveRun(Next(s, steps[0]), steps[1..]);
    }
  }

  /**
   In every reachable state the RUNNING fibers are exactly those on the chains of the threads (thread fiber,
   scheduler fiber if distinct, task or idle fiber), each on one chain; `t_fiber` is the last of its chain
   and the one whose stack the thread executes.
   */
  lemma ActivationChain(steps: seq<Step>)
    requires LegalTrace(NOTHING, steps)
    ensures var s := RunAll(NOTHING, steps);
            && Partitioned(s)
            && forall w | 0 <= w < |s.threads| :: Chained(s, w) && Layered(s, w)
  {
    ActiveRun(NOTHING, steps);
  }

  /** A `yield`, or the end of a fiber, comes back to the latest `resume` on that thread that has not come back. */
  lemma YieldMatchesResume(s: State, step: Step)
    requires Active(s) && (step.Yield? || step.Finish?) && Enabled(s, step) && Disciplined(s, step)
    ensures var t, u := s.threads[step.w], Next(s, step).threads[step.w];
            var n := |t.calls|;
            && t.current == t.calls[n - 1].fiber
            && u.running == Context(ChainAt(t, n - 1), InResume(t.calls[n - 1].fiber, t.calls[n - 1].serial))
            && u.current == ChainAt(t, n - 1)
            && u.calls == t.calls[..n - 1]
  {
    YieldToCaller(s, step.w);
  }

  // ---------------------------------------------------------------- where a fiber goes on

  /** Whether a fiber has been resumed since it was made or reset last. */
  ghost function Begun(was: bool, s: State, steps: seq<Step>, f: nat): bool
    requires LegalTrace(s, steps)
    decreases |steps|
  {
    if steps == [] then was
    else
      var now := match steps[0]
        case Resume(_, g) => g == f || was
        case Reset(g) => g != f && was
        case NewFiber(_) => f != |s.fibers| && was
        case _ => was;
      Begun(now, Next(s, steps[0]), steps[1..], f)
  }

  /** A fiber that is not RUNNING goes on behind its last yield, or from MainFunc if it has not begun. */
  predicate SavedAt(s: State, f: nat, begun: bool) {
    f < |s.fibers| ==>
      && (s.fibers[f].state != RUNNING ==> s.fibers[f].ctx == Context(f, if begun then InYield else Entry))
      && (forall w, i | 0 <= w < |s.threads| && 0 <= i < |s.threads[w].calls| && s.threads[w].calls[i].fiber == f ::
            begun)
  }

  /** Only RUNNING fibers are being resumed. */
  lemma NotCalled(s: State, f: nat)
    requires Active(s) && (f < |s.fibers| ==> s.fibers[f].state != RUNNING)
    ensures forall w, i | 0 <= w < |s.threads| && 0 <= i < |s.threads[w].calls| :: s.threads[w].calls[i].fiber != f
  {
    forall w, i | 0 <= w < |s.threads| && 0 <= i < |s.threads[w].calls| ensures s.threads[w].calls[i].fiber != f {
      assert On(s, w, i + 1, s.threads[w].calls[i].fiber);
    }
  }

  lemma SavedStep(s: State, step: Step, f: nat, begun: bool)
    requires Active(s) && Enabled(s, step) && Disciplined(s, step) && LegalTrace(s, [step]) && SavedAt(s, f, begun)
    ensures SavedAt(Next(s, step), f, Begun(begun, s, [step], f))
  {
    assert [step][1..] == [];
    hide Partitioned, Layered, Chained;
    if |s.fibers| <= f || s.fibers[f].state != RUNNING { NotCalled(s, f); }
    if step.Resume? {
      ResumeSaves(s, step.w, step.f, f, begun);
    } else if step.Yield? || step.Finish? {
      YieldSaves(s, step, f, begun);
    }
  }

  lemma ResumeSaves(s: State, w: nat, g: nat, f: nat, begun: bool)
    requires Active(s) && Enabled(s, Resume(w, g)) && Disciplined(s, Resume(w, g)) && SavedAt(s, f, begun)
    ensures SavedAt(Next(s, Resume(w, g)), f, g == f || begun)
  {
    hide Partitioned, Layered;
    OnOwn(s, w);
    ResumeFromTop(s, w, g);
    assert Chained(s, w);
    var t, u := s.threads[w], Next(s, Resume(w, g));
    assert u.threads[w].calls == t.calls + [Call(g, s.resumes)];
    assert s.fibers[Via(s, w, g)].state == RUNNING by { assert ChainAt(t, |t.calls|) == t.current; }
  }

  lemma YieldSaves(s: State, step: Step, f: nat, begun: bool)
    requires Active(s) && (step.Yield? || step.Finish?) && Enabled(s, step) && Disciplined(s, step)
          && SavedAt(s, f, begun)
    ensures SavedAt(Next(s, step), f, begun)
  {
    hide Partitioned, Layered;
    var t, u := s.threads[step.w], Next(s, step);
    YieldToCaller(s, step.w);
    assert Chained(s, step.w);
    assert u.threads[step.w].calls == t.calls[..|t.calls| - 1];
    assert u.fibers[t.current].ctx == Context(t.current, InYield);
    assert t.calls[|t.calls| - 1].fiber == t.current;
  }

  lemma {:induction false} SavedRun(s: State, steps: seq<Step>, f: nat, begun: bool)
    requires Active(s) && LegalTrace(s, steps) && SavedAt(s, f, begun)
    ensures SavedAt(RunAll(s, steps), f, Begun(begun, s, steps, f))
    decreases |steps|
  {
    hide Active, Next, Enabled, Disciplined, SavedAt;
    if steps != [] {
      assert [steps[0]][1..] == [];
      ActiveStep(s, steps[0]);
      SavedStep(s, steps[0], f, begun);
      SavedRun(Next(s, steps[0]), steps[1..], f, Begun(begun, s, [steps[0]], f));
    }
  }

  /**
   In every reachable state a resumed fiber starts in MainFunc if it has not been resumed since it was made or
   reset, and otherwise goes on on its own stack behind its latest yield.
   */
  lemma GoesOnBehindYield(steps: seq<Step>, w: nat, f: nat)
    requires LegalTrace(NOTHING, steps)
    requires var s := RunAll(NOTHING, steps); Enabled(s, Resume(w, f)) && Disciplined(s, Resume(w, f))
    ensures var u := Next(RunAll(NOTHING, steps), Resume(w, f)).threads[w];
            && u.current == f
            && u.running == Context(f, if Begun(false, NOTHING, steps, f) then InYield else Entry)
  {
    assert Active(NOTHING);
    hide Active;
    ActiveRun(NOTHING, steps);
    SavedRun(NOTHING, steps, f, false);
    var s := RunAll(NOTHING, steps);
    ResumeLoads(s, w, f);
  }

  lemma ResumeLoads(s: State, w: nat, f: nat)
    requires Active(s) && Enabled(s, Resume(w, f)) && Disciplined(s, Resume(w, f))
    ensures var u := Next(s, Resume(w, f)).threads[w]; u.current == f && u.running == s.fibers[f].ctx
  {
    hide Partitioned, Layered;
    OnOwn(s, w);
    assert Chained(s, w);
    ResumeFromTop(s, w, f);
    assert ChainAt(s.threads[w], |s.threads[w].calls|) == s.threads[w].current;
  }

  /**
   What a step does to the states: a resumed fiber is RUNNING, one that yields is READY again unless it has
   finished, a finished one is TERM, a reset one READY. No other fiber's state changes, and a new one is READY, or
   RUNNING for a new thread.
   */
  lemma StateFlow(s: State, step: Step, f: nat)
    requires Active(s) && Enabled(s, step) && Disciplined(s, step)
    ensures var t := Next(s, step);
            && |t.fibers| == |s.fibers| + (if step.NewThread? || step.NewFiber? then 1 else 0)
            && (f < |s.fibers| ==>
                  && t.fibers[f].inScheduler == s.fibers[f].inScheduler
                  && t.fibers[f].state ==
                     if step.Resume? && step.f == f then RUNNING
                     else if step.Yield? && s.threads[step.w].current == f then READY
                     else if step.Finish? && s.threads[step.w].current == f then TERM
                     else if step.Reset? && step.f == f then READY
                     else s.fibers[f].state)
            && (f == |s.fibers| && step.NewThread? ==> t.fibers[f].state == RUNNING && t.fibers[f].inScheduler)
            && (f == |s.fibers| && step.NewFiber? ==>
                  t.fibers[f].state == READY && t.fibers[f].inScheduler == step.inScheduler)
  {
    hide Partitioned, Layered;
    if step.Yield? {
      OnOwn(s, step.w);
      assert Chained(s, step.w);
      assert ChainAt(s.threads[step.w], |s.threads[step.w].calls|) == s.threads[step.w].current;
    }
  }

  /** A thread is changed by its own steps only; its thread fiber never, its scheduler fiber by SetScheduler. */
  lemma ThreadFlow(s: State, step: Step, v: nat)
    requires Enabled(s, step) && v < |s.threads|
    ensures v < |Next(s, step).threads|
    ensures var t, u := s.threads[v], Next(s, step).threads[v];
            && u.thread == t.thread
            && u.scheduler == (if step.SetScheduler? && step.w == v then step.f else t.scheduler)
            && (!((step.Resume? || step.Yield? || step.Finish?) && step.w == v) ==> u == t.(scheduler := u.scheduler))
  {}

  /**
   That `resume` is called from the fiber it saves into is needed: when the resumed fiber yields at once, the
   thread executes the stack of its `t_fiber` exactly when it was.
   */
  lemma ResumeThenYield(s: State, w: nat, f: nat)
    requires Active(s) && Enabled(s, Resume(w, f)) && (s.fibers[f].inScheduler || f == s.threads[w].scheduler)
    ensures var t := Next(s, Resume(w, f));
            && Enabled(t, Yield(w))
            && var u := Next(t, Yield(w)).threads[w];
               u.running.stack == u.current <==> s.threads[w].current == Via(s, w, f)
  {
    hide Partitioned;
    OnOwn(s, w);
    assert Chained(s, w) && Layered(s, w);
    assert Via(s, w, f) != f by { assert ChainAt(s.threads[w], 0) == s.threads[w].thread; }
    var t := Next(s, Resume(w, f));
    assert t.threads[w].current == f && Via(t, w, f) == Via(s, w, f);
    assert t.fibers[Via(s, w, f)].ctx == Context(s.threads[w].current, InResume(f, s.resumes));
  }

  lemma One(s: State, step: Step, rest: seq<Step>)
    requires Enabled(s, step) && Disciplined(s, step) && LegalTrace(Next(s, step), rest)
    ensures LegalTrace(s, [step] + rest) && RunAll(s, [step] + rest) == RunAll(Next(s, step), rest)
  {
    hide Enabled, Disciplined, Next;
    assert ([step] + rest)[1..] == rest;
  }

  /**
   A task that resumes another task: when that one yields, the thread goes on on the stack of the first as
   its thread fiber.
   */
  lemma NestedResume()
    ensures exists steps ::
              LegalTrace(NOTHING, steps) &&
              var s := RunAll(NOTHING, steps);
              && Enabled(s, Resume(0, 2)) && Enabled(Next(s, Resume(0, 2)), Yield(0))
              && var u := Next(Next(s, Resume(0, 2)), Yield(0)).threads[0];
                 u.current == 0 && u.running.stack == 1
  {
    hide LegalTrace, RunAll;
    var main, fiber := Fiber(RUNNING, true, Context(0, Base)), Fiber(READY, true, Context(1, Entry));
    var other := Fiber(READY, true, Context(2, Entry));
    var s1 := State([main], [Thread(0, 0, 0, Context(0, Base), [])], 0);
    var s2, s3 := s1.(fibers := [main, fiber]), s1.(fibers := [main, fiber, other]);
    var s4 := State([main.(ctx := Context(0, InResume(1, 0))), fiber.(state := RUNNING), other],
                    [Thread(1, 0, 0, Context(1, Entry), [Call(1, 0)])], 1);
    assert Next(NOTHING, NewThread) == s1;
    assert Next(s1, NewFiber(true)) == s2 && Next(s2, NewFiber(true)) == s3;
    assert Next(s3, Resume(0, 1)) == s4 by {
      var t := Next(s3, Resume(0, 1));
      assert [] + [Call(1, 0)] == [Call(1, 0)];
      assert t.fibers == s4.fibers && t.threads == s4.threads;
    }
    TraceEnds(s4);
    One(s3, Resume(0, 1), []);
    One(s2, NewFiber(true), [Resume(0, 1)] + []);
    One(s1, NewFiber(true), [NewFiber(true)] + ([Resume(0, 1)] + []));
    One(NOTHING, NewThread, [NewFiber(true)] + ([NewFiber(true)] + ([Resume(0, 1)] + [])));
  }

  lemma TraceEnds(s: State)
    ensures LegalTrace(s, []) && RunAll(s, []) == s
  {}
}
