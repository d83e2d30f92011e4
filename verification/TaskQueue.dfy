/**
 The queue of code/scheduler.h and the scan of Scheduler::run, on values. A task is pinned to one
 thread or, with thread -1, may run anywhere.
 */
module TaskQueue {
  import opened Prelude

  const ANY: int := -1

  /** A task runs a fiber or a callback. */
  datatype Body = FiberBody(fiber: nat) | CbBody(cb: nat)

  /** `serial` numbers the entries in the order they were pushed. */
  datatype Task = Task(serial: nat, body: Body, thread: int)

  predicate Allowed(t: Task, thread: int) {
    t.thread == ANY || t.thread == thread
  }

  /** scheduleLock: an empty handle is not pushed. */
  function Push(tasks: seq<Task>, serial: nat, body: Option<Body>, thread: int): (r: seq<Task>) {
    match body
    case None => tasks
    case Some(b) => tasks + [Task(serial, b, thread)]
  }

  /** The first entry allowed on the thread, or the length of the queue. */
  function FirstAllowed(tasks: seq<Task>, thread: int): (p: nat)
    ensures p <= |tasks|
    ensures forall i | 0 <= i < p :: !Allowed(tasks[i], thread)
    ensures p < |tasks| ==> Allowed(tasks[p], thread)
  {
    if tasks == [] || Allowed(tasks[0], thread) then 0 else 1 + FirstAllowed(tasks[1..], thread)
  }

  function Without(tasks: seq<Task>, p: nat): (r: seq<Task>)
    requires p < |tasks|
  {
    tasks[..p] + tasks[p + 1..]
  }

  lemma {:induction false} FirstAllowedUnique(tasks: seq<Task>, thread: int, p: nat)
    requires p <= |tasks|
    requires forall i | 0 <= i < p :: !Allowed(tasks[i], thread)
    requires p < |tasks| ==> Allowed(tasks[p], thread)
    ensures p == FirstAllowed(tasks, thread)
  {
    if p > 0 {
      FirstAllowedUnique(tasks[1..], thread, p - 1);
    }
  }

  /** The scan takes the first entry that is for any thread (-1) or for this one, and nothing else. */
  lemma ScanMeaning(tasks: seq<Task>, thread: int)
    ensures var p := FirstAllowed(tasks, thread);
            && (forall i | 0 <= i < p :: tasks[i].thread != -1 && tasks[i].thread != thread)
            && (p < |tasks| ==>
                  && (tasks[p].thread == -1 || tasks[p].thread == thread)
                  && |Without(tasks, p)| == |tasks| - 1
                  && forall i | 0 <= i < |tasks| && i != p :: Without(tasks, p)[if i < p then i else i - 1] == tasks[i])
  {}

  /** Entries are numbered in queue order. */
  predicate Ordered(tasks: seq<Task>) {
    forall i, j | 0 <= i < j < |tasks| :: tasks[i].serial < tasks[j].serial
  }

  /** Taking one entry keeps the rest, in order. */
  lemma WithoutKeeps(tasks: seq<Task>, p: nat)
    requires p < |tasks|
    ensures |Without(tasks, p)| == |tasks| - 1
    ensures forall i | 0 <= i < p :: Without(tasks, p)[i] == tasks[i]
    ensures forall i | p <= i < |tasks| - 1 :: Without(tasks, p)[i] == tasks[i + 1]
    ensures multiset(Without(tasks, p)) + multiset{tasks[p]} == multiset(tasks)
  {
    assert tasks == tasks[..p] + [tasks[p]] + tasks[p + 1..];
  }

  lemma WithoutOrdered(tasks: seq<Task>, p: nat)
    requires p < |tasks| && Ordered(tasks)
    ensures Ordered(Without(tasks, p))
    ensures forall t :: t in Without(tasks, p) <==> t in tasks && t != tasks[p]
  {
    var rest := Without(tasks, p);
    WithoutKeeps(tasks, p);
    forall t ensures t in rest <==> t in tasks && t != tasks[p] {
      assert tasks == tasks[..p] + [tasks[p]] + tasks[p + 1..];
    }
  }

  /** Among entries allowed on the thread, the one taken was posted first. */
  lemma TakesEarliest(tasks: seq<Task>, thread: int)
    requires Ordered(tasks) && FirstAllowed(tasks, thread) < |tasks|
    ensures var t := tasks[FirstAllowed(tasks, thread)];
            && Allowed(t, thread)
            && forall u | u in tasks && u != t && Allowed(u, thread) :: t.serial < u.serial
  {
    var p := FirstAllowed(tasks, thread);
    forall u | u in tasks && u != tasks[p] && Allowed(u, thread) ensures tasks[p].serial < u.serial {
      var i :| 0 <= i < |tasks| && tasks[i] == u;
    }
  }
}

/** The queue and the counters of class Scheduler. `m_mtx` is held for the whole of each method. */
module Schedulers {
  import opened Prelude
  import opened TaskQueue

  class Scheduler {
    var tasks: seq<Task>
    var active: nat
    var stopping: bool
    /** Number of entries pushed so far. */
    ghost var pushed: nat

    ghost predicate Valid()
      reads this
    {
      Ordered(tasks) && forall i | 0 <= i < |tasks| :: tasks[i].serial < pushed
    }

    constructor ()
      ensures Valid() && tasks == [] && active == 0 && !stopping && pushed == 0
    {
      tasks, active, stopping, pushed := [], 0, false, 0;
    }

    /** Pushes unless the handle is empty; the caller tickles when the queue was empty before. */
    method ScheduleLock(body: Option<Body>, thread: int, serial: nat) returns (needTickle: bool)
      requires Valid() && serial == pushed
      modifies this`tasks, this`pushed
      ensures Valid()
      ensures tasks == Push(old(tasks), old(pushed), body, thread)
      ensures tasks == old(tasks) + if body.Some? then [Task(old(pushed), body.value, thread)] else []
      ensures pushed == old(pushed) + (if body.Some? then 1 else 0)
      ensures needTickle == (old(tasks) == [])
    {
      needTickle := tasks == [];
      if body.Some? {
        tasks := tasks + [Task(serial, body.value, thread)];
        pushed := pushed + 1;
      }
    }

    lemma LeavesValid(it: nat)
      requires Valid() && it < |tasks|
      ensures var rest := Without(tasks, it);
              Ordered(rest) && |rest| == |tasks| - 1 && forall i | 0 <= i < |rest| :: rest[i].serial < pushed
    {
      WithoutOrdered(tasks, it);
    }

    /**
     The scan at the top of `run`. It takes the first entry allowed on the thread and leaves the others
     in order; `tickleMe` is set exactly when entries remain.
     */
    method Take(thread: int) returns (task: Option<Task>, tickleMe: bool)
      requires Valid()
      modifies this`tasks, this`active
      ensures Valid()
      ensures var p := FirstAllowed(old(tasks), thread);
              if p == |old(tasks)| then task == None && tasks == old(tasks) && active == old(active)
              else task == Some(old(tasks)[p]) && tasks == Without(old(tasks), p) && active == old(active) + 1
      ensures tickleMe <==> tasks != []
    {
      hide Ordered, FirstAllowed, Without;
      task, tickleMe := None, false;
      var it := 0;
      while it < |tasks|
        invariant 0 <= it <= |tasks|
        invariant tasks == old(tasks) && active == old(active) && task == None
        invariant forall i | 0 <= i < it :: !Allowed(tasks[i], thread)
        invariant tickleMe <==> it > 0
      {
        if tasks[it].thread != ANY && tasks[it].thread != thread {
          it := it + 1;
          tickleMe := true;
          continue;
        }
        FirstAllowedUnique(tasks, thread, it);
        LeavesValid(it);
        task := Some(tasks[it]);
        tasks := Without(tasks, it);
        active := active + 1;
        break;
      }
      if task.None? {
        FirstAllowedUnique(tasks, thread, it);
      }
      tickleMe := tickleMe || it != |tasks|;
    }

    /** Scheduler::stopping. */
    method Stopping() returns (r: bool)
      ensures r <==> stopping && tasks == [] && active == 0
    {
      return stopping && tasks == [] && active == 0;
    }
  }
}
