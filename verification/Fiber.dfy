/**
 The class Fiber and the thread-local variables of code/fiber.cpp. Each method is tied to the step of
 Activation it performs; `all` lists the fibers by their ids.
 */
module Fibers {
  import opened Prelude
  import A = Activation

  class Fiber {
    const id: nat
    const inScheduler: bool
    var state: FiberState
    var cb: Option<nat>
    var ctx: A.Context

    /** The fiber a thread starts with: it is running already. */
    constructor Main(id: nat)
      ensures this.id == id && Value() == A.Fiber(RUNNING, true, A.Context(id, A.Base))
    {
      this.id, inScheduler := id, true;
      state, cb, ctx := RUNNING, None, A.Context(id, A.Base);
    }

    constructor (id: nat, cb: nat, inScheduler: bool)
      ensures this.id == id && Value() == A.Fiber(READY, inScheduler, A.Context(id, A.Entry)) && this.cb == Some(cb)
    {
      this.id, this.inScheduler := id, inScheduler;
      state, this.cb, ctx := READY, Some(cb), A.Context(id, A.Entry);
    }

    function Value(): A.Fiber
      reads this
    {
      A.Fiber(state, inScheduler, ctx)
    }

    /** A finished fiber gets a new callback and starts over. */
    method Reset(cb: nat)
      requires state == TERM
      modifies this
      ensures Value() == A.Fiber(READY, inScheduler, A.Context(id, A.Entry)) && this.cb == Some(cb)
    {
      state, this.cb, ctx := READY, Some(cb), A.Context(id, A.Entry);
    }
  }

  /** The thread-locals of one thread and what it executes. */
  class Locals {
    var current: Fiber?
    var thread: Fiber?
    var scheduler: Fiber?
    var running: A.Context

    constructor ()
      ensures current == null && thread == null && scheduler == null
    {
      current, thread, scheduler, running := null, null, null, A.Context(0, A.Base);
    }

    /** These are the locals of thread `w` in `s`, and `all` are its fibers. */
    ghost predicate Shows(s: A.State, w: nat, all: seq<Fiber>)
      reads this, all
    {
      && |all| == |s.fibers| && w < |s.threads|
      && (forall i | 0 <= i < |all| :: all[i].id == i && all[i].Value() == s.fibers[i])
      && var t := s.threads[w];
         && t.current < |all| && current == all[t.current]
         && t.thread < |all| && thread == all[t.thread]
         && t.scheduler < |all| && scheduler == all[t.scheduler]
         && running == t.running
    }

    /** GetThis: the first call on a thread makes its thread fiber, which is also its scheduler fiber. */
    method GetThis(id: nat) returns (f: Fiber)
      requires current == null || (thread != null && scheduler != null)
      modifies this
      ensures current == f && thread != null && scheduler != null
      ensures old(current) != null ==>
            f == old(current) && thread == old(thread) && scheduler == old(scheduler) && running == old(running)
      ensures old(current) == null ==> fresh(f) && thread == f == scheduler && f.id == id
      ensures old(current) == null ==>
            f.Value() == A.Fiber(RUNNING, true, A.Context(id, A.Base)) && running == A.Context(id, A.Base)
    {
      if current != null { return current; }
      f := new Fiber.Main(id);
      current, thread, scheduler, running := f, f, f, f.ctx;
    }

    method SetSchedulerFiber(f: Fiber, ghost s: A.State, ghost w: nat, ghost all: seq<Fiber>)
      requires Shows(s, w, all) && f in all
      modifies this`scheduler
      ensures Shows(A.Next(s, A.SetScheduler(w, f.id)), w, all)
    {
      scheduler := f;
    }

    /** swapcontext. */
    method Swap(save: Fiber, point: A.Point, load: Fiber)
      modifies this`running, save`ctx
      ensures save.ctx == A.Context(old(running).stack, point)
      ensures running == load.ctx
    {
      save.ctx := A.Context(running.stack, point);
      running := load.ctx;
    }

    /** `call` numbers the resumes of the process. */
    method Resume(f: Fiber, call: nat, ghost s: A.State, ghost w: nat, ghost all: seq<Fiber>)
      requires Shows(s, w, all) && f in all && call == s.resumes
      requires f.state == READY
      modifies this, f, if f.inScheduler then scheduler else thread
      ensures forall x | x in all :: x.cb == old(x.cb)
      ensures A.Enabled(s, A.Resume(w, f.id)) && Shows(A.Next(s, A.Resume(w, f.id)), w, all)
    {
      f.state := RUNNING;
      if f.inScheduler {
        current := f;
        Swap(scheduler, A.InResume(f.id, call), f);
      } else {
        current := f;
        Swap(thread, A.InResume(f.id, call), f);
      }
    }

    /** `yield` of the current fiber. */
    method Yield(ghost s: A.State, ghost w: nat, ghost all: seq<Fiber>)
      requires Shows(s, w, all) && current != null
      requires current.state == RUNNING || current.state == TERM
      modifies this, current
      ensures forall x | x in all :: x.cb == old(x.cb)
      ensures A.Enabled(s, A.Yield(w)) && Shows(A.Next(s, A.Yield(w)), w, all)
    {
      var f := current;
      if f.state != TERM { f.state := READY; }
      if f.inScheduler {
        current := scheduler;
        Swap(f, A.InYield, scheduler);
      } else {
        current := thread;
        Swap(f, A.InYield, thread);
      }
    }

    /** MainFunc after the callback has returned. */
    method Finish(ghost s: A.State, ghost w: nat, ghost all: seq<Fiber>)
      requires Shows(s, w, all) && current != null
      modifies this, current
      ensures old(current).cb == None
      ensures A.Enabled(s, A.Finish(w)) && Shows(A.Next(s, A.Finish(w)), w, all)
    {
      hide A.Next, A.YieldAs;
      current.cb := None;
      current.state := TERM;
      A.FinishYields(s, w);
      Yield(A.SetState(s, s.threads[w].current, TERM), w, all);
    }
  }
}
