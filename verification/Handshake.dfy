/**
 The wake-up handshake between an IOManager with one worker and the threads that add timers
 (code/timer.cpp:79-93, 116-134; code/ioscheduler.cpp:48-54, 78-109): `m_tickled`, the idle count, the
 byte in the pipe and the drain. The worker computes how long to wait in one critical section and waits
 in another; a timer added in between must wake it if it is the new first.

 A step is one critical section, one read or write of an atomic, or one system call. A thread that has
 decided to tickle first looks at the idle count and writes its byte afterwards. The turns of
 listExpireCb are steps of their own, so anything may come between them. The clock never goes back.
 */
module Handshake {
  import opened Prelude
  import opened TimerSet
  import opened TimerExpiry

  /** Where the worker is; a wait records the clock reading its timeout was computed from and when it times out. */
  datatype Place = Busy | Idle | Armed(at: int, wake: int) | Returned

  /**
   `decided` threads are about to look at the idle count, `writing` ones have seen it raised and will write.
   `resetting` are the timers some `reset` has left after its first section.
   */
  datatype State = State(timers: Timers, resetting: multiset<TimerId>, clock: int, place: Place, idle: nat,
      decided: nat, writing: nat, pipe: nat)

  datatype Step =
    // the worker
    | EnterIdle                 // raises the idle count and resumes the idle fiber
    | CheckStopping             // stopping() clears the flag too
    | Compute                   // getNextTimer, then epoll_wait
    | Interrupted               // EINTR
    | WaitReturns
    | Drain
    | ExpireTurn(read: int, rollover: bool)
    | LeaveIdle
    // any thread
    | NewTimer(id: TimerId, ms: nat, cb: nat, recurring: bool, start: int)
    | CancelTimer(id: TimerId)
    | RefreshTimer(id: TimerId)
    | TakeForReset(id: TimerId)
    | PutBack(id: TimerId, ms: nat, fromNow: bool, read: int)
    | ForeignStopping           // stop() evaluates stopping() on its own thread
    | PostTickles               // scheduleLock found the queue empty
    | LookAtIdle
    | WriteByte
    | Tick(d: nat)

  ghost predicate Enabled(s: State, step: Step) {
    && Known(s.timers)
    && match step
       case EnterIdle => s.place.Busy?
       case CheckStopping => s.place.Idle?
       case Compute => s.place.Idle?
       case Interrupted => s.place.Armed?
       case WaitReturns => s.place.Armed?
       case Drain => s.place.Returned?
       case ExpireTurn(read, rollover) => s.place.Returned? && read <= s.clock && Guard(s.timers, read, rollover)
       case LeaveIdle => s.place.Returned? || s.place.Idle?
       case NewTimer(id, _, _, _, start) => id !in s.timers.recs && start <= s.clock
       case CancelTimer(id) => id in s.timers.recs
       case RefreshTimer(id) => id in s.timers.recs
       case TakeForReset(id) => id in s.timers.recs
       case PutBack(id, ms, fromNow, read) =>
         && id in s.timers.recs && id in s.resetting && read <= s.clock
         // a timer put back by another thread meanwhile does not pass another deadline: see RefreshRaceExactly
         && Ascending(KeysRead(s.timers, id, Restarted(s.timers.recs[id], ms, fromNow, read).next))
       case LookAtIdle => s.decided > 0
       case WriteByte => s.writing > 0
       case _ => true
  }

  /** The set after addTimer, and one more thread about to tickle if it reports the front. */
  function Told(s: State, r: (Timers, bool)): State {
    s.(timers := r.0, decided := s.decided + if r.1 then 1 else 0)
  }

  function Next(s: State, step: Step): State
    requires Enabled(s, step)
  {
    match step
    case EnterIdle => s.(place := Idle, idle := s.idle + 1)
    case CheckStopping => s.(timers := GetNext(s.timers, s.clock).0)
    case Compute =>
      var (t, timeout) := GetNext(s.timers, s.clock);
      s.(timers := t, place := Armed(s.clock, s.clock + WaitMs(timeout) * MS))
    case Interrupted => s.(place := Idle)
    case WaitReturns => s.(place := Returned)
    case Drain => s.(pipe := 0)
    case ExpireTurn(read, _) => s.(timers := Turn(s.timers, read).0)
    case LeaveIdle => s.(place := Busy, idle := if s.idle > 0 then s.idle - 1 else 0)
    case NewTimer(id, ms, cb, recurring, start) => Told(s, New(s.timers, id, ms, cb, recurring, start))
    case CancelTimer(id) => s.(timers := Cancel(s.timers, id).0)
    case RefreshTimer(id) => s.(timers := Refresh(s.timers, id, s.clock).0)
    case TakeForReset(id) =>
      (match ResetErase(s.timers, id)
       case None => s
       case Some(t) => s.(timers := t, resetting := s.resetting + multiset{id}))
    case PutBack(id, ms, fromNow, read) =>
      Told(s.(resetting := s.resetting - multiset{id}), ResetInsert(s.timers, id, ms, fromNow, read))
    case ForeignStopping => s.(timers := GetNext(s.timers, s.clock).0)
    case PostTickles => s.(decided := s.decided + 1)
    case LookAtIdle => s.(decided := s.decided - 1, writing := s.writing + if s.idle > 0 then 1 else 0)
    case WriteByte => s.(writing := s.writing - 1, pipe := s.pipe + 1)
    case Tick(d) => s.(clock := s.clock + d)
  }

  function Init(now: int): State {
    State(Timers([], [], map[], false, now), multiset{}, now, Busy, 0, 0, 0, 0)
  }

  // ---------------------------------------------------------------- the invariant

  ghost predicate Startable(s: Timers, clock: int) {
    && Known(s) && Ascending(s.keys)
    && forall id | id in s.recs :: Started(s.recs[id]) <= clock
  }

  /** A byte waits in the pipe, or some thread goes on to write one while the worker is idle. */
  predicate Rousing(s: State) {
    s.pipe > 0 || s.decided > 0 || s.writing > 0
  }

  predicate EarlyEnough(s: State, wake: int) {
    forall k | k in s.timers.keys :: wake <= k
  }

  /** The wait times out at once, or no later than the first deadline, or a byte will end it. */
  predicate Covered(s: State) {
    s.place.Armed? ==> s.place.wake == s.place.at || EarlyEnough(s, s.place.wake) || Rousing(s)
  }

  ghost predicate Handshaken(s: State) {
    && Startable(s.timers, s.clock)
    && s.idle == (if s.place.Busy? then 0 else 1)
    && Covered(s)
    && (s.place.Armed? && s.timers.tickled ==> Rousing(s))
  }

  // ---------------------------------------------------------------- operations on the keys

  lemma AddKeys(s: Timers, id: TimerId)
    requires Known(s) && Ascending(s.keys) && id in s.recs
    ensures var (t, atFront) := AddTimer(s, id);
            && Known(t) && Ascending(t.keys) && t.recs == s.recs
            && (forall k :: k in t.keys <==> k in s.keys || k == s.recs[id].next)
            && (atFront <==> !s.tickled && forall k | k in s.keys :: s.recs[id].next <= k)
            && (t.tickled <==> s.tickled || atFront)
  {
    InsertKeys(s, id);
  }

  lemma InsertKeys(s: Timers, id: TimerId)
    requires Known(s) && Ascending(s.keys) && id in s.recs
    ensures var (t, p) := Insert(s, id);
            && Known(t) && Ascending(t.keys) && t.recs == s.recs && t.tickled == s.tickled
            && (forall k :: k in t.keys <==> k in s.keys || k == s.recs[id].next)
            && (p == 0 <==> forall k | k in s.keys :: s.recs[id].next <= k)
  {
    var key := s.recs[id].next;
    OccupiedIff(s.keys, key);
    assert LowerBound(s.keys, key) > 0 ==> s.keys[0] in s.keys && s.keys[0] < key;
    if key !in s.keys {
      InsertSorted(s.keys, key);
      PlacedAt(s.members, id, LowerBound(s.keys, key));
    }
  }

  lemma EraseKeys(s: Timers, key: int)
    requires Known(s) && Ascending(s.keys)
    ensures var t := EraseKey(s, key);
            && Known(t) && Ascending(t.keys) && t.recs == s.recs && t.tickled == s.tickled
            && forall k :: k in t.keys <==> k in s.keys && k != key
  {
    if key in s.keys {
      hide EraseKey, Ascending, LowerBound;
      EraseFound(s, key);
      RemoveSorted(s.keys, LowerBound(s.keys, key));
      RemovedAt(s.members, LowerBound(s.keys, key));
    } else {
      EraseMissing(s, key);
    }
  }

  lemma EraseMissing(s: Timers, key: int)
    requires Shaped(s) && Ascending(s.keys) && key !in s.keys
    ensures EraseKey(s, key) == s
  {
    OccupiedIff(s.keys, key);
  }

  /** A refreshed timer's deadline does not come closer. */
  lemma RefreshKeys(s: Timers, id: TimerId, now: int)
    requires Startable(s, now) && id in s.recs
    ensures var t := Refresh(s, id, now).0;
            && Startable(t, now) && t.tickled == s.tickled
            && forall k | k in t.keys :: exists j :: j in s.keys && j <= k
  {
    hide Insert, EraseKey, LowerBound;
    var rec := s.recs[id];
    OccupiedIff(s.keys, rec.next);
    if rec.cb.Some? && rec.next in s.keys {
      var moved := rec.(next := now + rec.ms * MS);
      EraseKeys(s, rec.next);
      var u := EraseKey(s, rec.next);
      var v := u.(recs := u.recs[id := moved]);
      InsertKeys(v, id);
      var t := Refresh(s, id, now).0;
      assert t == Insert(v, id).0;
      forall k | k in t.keys ensures exists j :: j in s.keys && j <= k {
        assert if k == moved.next then Started(rec) <= now && rec.next <= k else k in s.keys;
      }
    }
  }

  lemma CancelKeys(s: Timers, id: TimerId, clock: int)
    requires Startable(s, clock) && id in s.recs
    ensures var t := Cancel(s, id).0;
            && Startable(t, clock) && t.tickled == s.tickled
            && forall k | k in t.keys :: k in s.keys
  {
    hide EraseKey;
    if s.recs[id].cb.Some? {
      var u := s.(recs := s.recs[id := s.recs[id].(cb := None)]);
      EraseKeys(u, s.recs[id].next);
    }
  }

  lemma TurnKeys(s: Timers, read: int, rollover: bool, clock: int)
    requires Startable(s, clock) && read <= clock && Guard(s, read, rollover)
    ensures Startable(Turn(s, read).0, clock)
  {
    hide Insert;
    var id, r := s.members[0], Rest(s, read);
    assert Started(Spent(s.recs[id], read)) <= clock;
    if s.recs[id].recurring { InsertKeys(r, id); }
  }

  lemma AddStartable(s: State, t: Timers, id: TimerId)
    requires Handshaken(s) && Startable(t, s.clock) && id in t.recs
    requires forall k | k in t.keys :: k in s.timers.keys || k == t.recs[id].next
    requires t.tickled == s.timers.tickled
    ensures Handshaken(Told(s, AddTimer(t, id)))
  {
    hide AddTimer;
    AddKeys(t, id);
    var u := Told(s, AddTimer(t, id));
    if s.place.Armed? && !Rousing(u) {
      assert !AddTimer(t, id).1 && !t.tickled && !Rousing(s);
      var k :| k in t.keys && k < t.recs[id].next;
    }
  }

  // ---------------------------------------------------------------- steps

  /** The wait begins: the timeout just computed ends it no later than the first deadline, or at once. */
  lemma ComputeCovers(s: State)
    requires Startable(s.timers, s.clock) && Enabled(s, Compute)
    ensures Covered(Next(s, Compute)) && !Next(s, Compute).timers.tickled
    ensures Startable(Next(s, Compute).timers, s.clock)
  {
    var keys := s.timers.keys;
    if keys != [] && s.clock < keys[0] {
      var d := (keys[0] - s.clock) / MS;
      assert NextTimeout(keys, s.clock) == d && WaitMs(d) * MS <= keys[0] - s.clock;
      assert forall i | 0 <= i < |keys| :: keys[0] <= keys[i];
    }
  }

  lemma WorkerStep(s: State, step: Step)
    requires Handshaken(s) && Enabled(s, step)
    requires step.EnterIdle? || step.CheckStopping? || step.Compute? || step.Interrupted? || step.WaitReturns?
          || step.Drain? || step.ExpireTurn? || step.LeaveIdle?
    ensures Handshaken(Next(s, step))
  {
    hide Turn, WaitMs, NextTimeout;
    match step
    case Compute => ComputeCovers(s);
    case ExpireTurn(read, rollover) => TurnKeys(s.timers, read, rollover, s.clock);
    case _ =>
  }

  lemma TimerStep(s: State, step: Step)
    requires Handshaken(s) && Enabled(s, step)
    requires step.CancelTimer? || step.RefreshTimer? || step.TakeForReset?
    ensures Handshaken(Next(s, step))
  {
    hide EraseKey, Cancel, Refresh, Occupied, Ascending;
    match step
    case CancelTimer(id) => CancelKeys(s.timers, id, s.clock);
    case RefreshTimer(id) => RefreshKeys(s.timers, id, s.clock);
    case TakeForReset(id) => EraseKeys(s.timers, s.timers.recs[id].next);
  }

  lemma KeysReadIn(s: Timers, id: TimerId, key: int)
    requires Shaped(s)
    ensures forall k | k in KeysRead(s, id, key) :: k in s.keys || k == key
  {}

  lemma ResettingFrame(s: State, rest: multiset<TimerId>)
    requires Handshaken(s)
    ensures Handshaken(s.(resetting := rest))
  {}

  lemma AddStep(s: State, step: Step)
    requires Handshaken(s) && Enabled(s, step) && (step.NewTimer? || step.PutBack?)
    ensures Handshaken(Next(s, step))
  {
    hide AddTimer, Ascending, Covered, Rousing;
    match step
    case NewTimer(id, ms, cb, recurring, start) =>
      AddStartable(s, s.timers.(recs := s.timers.recs[id := Rec(ms, recurring, start + ms * MS, Some(cb))]), id);
    case PutBack(id, ms, fromNow, read) =>
      var moved := Restarted(s.timers.recs[id], ms, fromNow, read);
      assert Started(moved) == if fromNow then read else Started(s.timers.recs[id]);
      var rest := s.resetting - multiset{id};
      ResettingFrame(s, rest);
      KeysReadIn(s.timers, id, moved.next);
      AddStartable(s.(resetting := rest),
                   s.timers.(keys := KeysRead(s.timers, id, moved.next), recs := s.timers.recs[id := moved]), id);
  }

  lemma HandshakeStep(s: State, step: Step)
    requires Handshaken(s) && Enabled(s, step)
    ensures Handshaken(Next(s, step))
  {
    hide Ascending;
    match step
    case CancelTimer(_) => TimerStep(s, step);
    case RefreshTimer(_) => TimerStep(s, step);
    case TakeForReset(_) => TimerStep(s, step);
    case NewTimer(_, _, _, _, _) => AddStep(s, step);
    case PutBack(_, _, _, _) => AddStep(s, step);
    case ForeignStopping =>
    case PostTickles =>
    case LookAtIdle =>
    case WriteByte =>
    case Tick(_) =>
    case _ => WorkerStep(s, step);
  }

  // ---------------------------------------------------------------- what the steps do

  /** The deadline an operation brings into the set, if it does. */
  ghost function Brought(s: State, step: Step): Option<int>
    requires Enabled(s, step)
  {
    match step
    case NewTimer(_, ms, _, _, start) => Some(start + ms * MS)
    case RefreshTimer(id) =>
      var rec := s.timers.recs[id];
      if rec.cb.Some? && rec.next in s.timers.keys then Some(s.clock + rec.ms * MS) else None
    case PutBack(id, ms, fromNow, read) =>
      var rec := s.timers.recs[id];
      Some((if fromNow then read else rec.next - rec.ms * MS) + ms * MS)
    case ExpireTurn(read, _) =>
      var rec := s.timers.recs[s.timers.members[0]];
      if rec.recurring then Some(read + rec.ms * MS) else None
    case _ => None
  }

  /** The deadline it takes out, if it does. */
  ghost function Removed(s: State, step: Step): Option<int>
    requires Handshaken(s) && Enabled(s, step)
  {
    match step
    case CancelTimer(id) => if s.timers.recs[id].cb.Some? then Some(s.timers.recs[id].next) else None
    case RefreshTimer(id) => if s.timers.recs[id].cb.Some? then Some(s.timers.recs[id].next) else None
    case TakeForReset(id) => if s.timers.recs[id].cb.Some? then Some(s.timers.recs[id].next) else None
    case ExpireTurn(_, _) => Some(s.timers.keys[0])
    case _ => None
  }

  /** Every step changes the deadlines by what it removes and then by what it brings. */
  lemma DeadlinesFlow(s: State, step: Step)
    requires Handshaken(s) && Enabled(s, step)
    requires step.PutBack? ==> step.id !in s.timers.members
    ensures forall k :: k in Next(s, step).timers.keys <==>
                          (k in s.timers.keys && Removed(s, step) != Some(k)) || Brought(s, step) == Some(k)
  {
    hide Cancel, Refresh, ResetErase, Turn, New, ResetInsert, Next, Covered, Rousing, Ascending, LowerBound;
    if step.NewTimer? || step.PutBack? {
      AddedDeadline(s, step);
    } else if step.CancelTimer? {
      CancelDeadlines(s.timers, step.id);
      OnlyTimers(s, step, Cancel(s.timers, step.id).0);
    } else if step.RefreshTimer? {
      RefreshDeadlines(s.timers, step.id, s.clock);
      OnlyTimers(s, step, Refresh(s.timers, step.id, s.clock).0);
    } else if step.TakeForReset? {
      var t := TakeDeadlines(s.timers, step.id);
      OnlyTimers(s, step, t);
    } else if step.ExpireTurn? {
      TurnDeadlines(s.timers, step.read);
      OnlyTimers(s, step, Turn(s.timers, step.read).0);
    } else {
      KeysLeft(s, step);
    }
  }

  /** The set after a step, and the deadlines it names. */
  lemma OnlyTimers(s: State, step: Step, t: Timers)
    requires Handshaken(s) && Enabled(s, step)
    requires || (step.CancelTimer? && t == Cancel(s.timers, step.id).0)
             || (step.RefreshTimer? && t == Refresh(s.timers, step.id, s.clock).0)
             || (step.TakeForReset?
                 && Some(t) == match ResetErase(s.timers, step.id) case None => Some(s.timers) case r => r)
             || (step.ExpireTurn? && t == Turn(s.timers, step.read).0)
    ensures Next(s, step).timers == t
  {
    hide Cancel, Refresh, ResetErase, Turn, Handshaken;
  }

  lemma KeysLeft(s: State, step: Step)
    requires Handshaken(s) && Enabled(s, step)
    requires !step.NewTimer? && !step.PutBack? && !step.CancelTimer? && !step.RefreshTimer? && !step.TakeForReset?
    requires !step.ExpireTurn?
    ensures Next(s, step).timers.keys == s.timers.keys && Removed(s, step) == None && Brought(s, step) == None
  {
    hide New, Cancel, Refresh, ResetErase, ResetInsert, Turn;
  }

  lemma AddedDeadline(s: State, step: Step)
    requires Handshaken(s) && Enabled(s, step) && (step.NewTimer? || step.PutBack?)
    requires step.PutBack? ==> step.id !in s.timers.members
    ensures Brought(s, step).Some?
    ensures forall k :: k in Next(s, step).timers.keys <==> k in s.timers.keys || k == Brought(s, step).value
    ensures Next(s, step).decided - s.decided == (if !s.timers.tickled
          && forall k | k in s.timers.keys :: Brought(s, step).value <= k then 1 else 0)
    ensures Next(s, step).timers.tickled == (s.timers.tickled || Next(s, step).decided != s.decided)
  {
    hide AddTimer, LowerBound, Ascending, Covered, Rousing;
    var u := s.timers;
    match step
    case NewTimer(id, ms, cb, recurring, start) =>
      AddKeys(u.(recs := u.recs[id := Rec(ms, recurring, start + ms * MS, Some(cb))]), id);
    case PutBack(id, ms, fromNow, read) =>
      AddKeys(u.(recs := u.recs[id := Restarted(u.recs[id], ms, fromNow, read)]), id);
  }

  lemma CancelDeadlines(s: Timers, id: TimerId)
    requires Known(s) && Ascending(s.keys) && id in s.recs
    ensures forall k :: k in Cancel(s, id).0.keys <==> k in s.keys && !(s.recs[id].cb.Some? && s.recs[id].next == k)
  {
    hide EraseKey, Ascending;
    EraseKeys(s.(recs := s.recs[id := s.recs[id].(cb := None)]), s.recs[id].next);
  }

  lemma TakeDeadlines(s: Timers, id: TimerId) returns (t: Timers)
    requires Known(s) && Ascending(s.keys) && id in s.recs
    ensures Some(t) == match ResetErase(s, id) case None => Some(s) case r => r
    ensures forall k :: k in t.keys <==> k in s.keys && !(s.recs[id].cb.Some? && s.recs[id].next == k)
  {
    hide EraseKey, Ascending, LowerBound;
    OccupiedIff(s.keys, s.recs[id].next);
    EraseKeys(s, s.recs[id].next);
    t := if ResetErase(s, id).Some? then ResetErase(s, id).value else s;
  }

  lemma RefreshDeadlines(s: Timers, id: TimerId, now: int)
    requires Known(s) && Ascending(s.keys) && id in s.recs
    ensures var rec := s.recs[id];
            forall k :: k in Refresh(s, id, now).0.keys <==>
              if rec.cb.Some? && rec.next in s.keys then (k in s.keys && k != rec.next) || k == now + rec.ms * MS
              else k in s.keys
  {
    hide Insert, EraseKey, LowerBound, Ascending;
    var rec := s.recs[id];
    OccupiedIff(s.keys, rec.next);
    if rec.cb.Some? && rec.next in s.keys {
      EraseKeys(s, rec.next);
      var u := EraseKey(s, rec.next);
      InsertKeys(u.(recs := u.recs[id := rec.(next := now + rec.ms * MS)]), id);
    }
  }

  lemma TurnDeadlines(s: Timers, read: int)
    requires Known(s) && Ascending(s.keys) && s.members != []
    ensures var rec := s.recs[s.members[0]];
            forall k :: k in Turn(s, read).0.keys <==>
              (k in s.keys && k != s.keys[0]) || (rec.recurring && k == read + rec.ms * MS)
  {
    hide Insert;
    assert s.keys == [s.keys[0]] + s.keys[1..];
    if s.recs[s.members[0]].recurring { InsertKeys(Rest(s, read), s.members[0]); }
  }

  lemma TurnTickled(s: Timers, read: int)
    requires Known(s) && s.members != []
    ensures Turn(s, read).0.tickled == s.tickled
  {}

  /**
   What becomes of a tickle. A thread decides on it exactly when addTimer finds the new deadline first with
   nobody told yet, or a post finds the queue empty; it then looks at the idle count, and writes a byte only if
   that is raised; the drain empties the pipe.
   */
  lemma TickleFlow(s: State, step: Step)
    requires Handshaken(s) && Enabled(s, step)
    requires step.PutBack? ==> step.id !in s.timers.members
    ensures var t := Next(s, step);
            var first := (step.NewTimer? || step.PutBack?) && !s.timers.tickled
                         && forall k | k in s.timers.keys :: Brought(s, step).value <= k;
            && t.decided == s.decided +
                  (if first || step.PostTickles? then 1 else 0) - (if step.LookAtIdle? then 1 else 0)
            && t.writing == s.writing + (if step.LookAtIdle? && s.idle > 0 then 1 else 0)
                            - (if step.WriteByte? then 1 else 0)
            && t.pipe == (if step.Drain? then 0 else s.pipe + if step.WriteByte? then 1 else 0)
            && t.timers.tickled ==
               if step.Compute? || step.CheckStopping? || step.ForeignStopping? then false
                   else s.timers.tickled || first
  {
    if step.NewTimer? || step.PutBack? {
      AddedDeadline(s, step);
      hide ResetInsert, New;
    } else {
      hide Insert, EraseKey, LowerBound, Ascending, Covered, Rousing, AddTimer, New, Turn, Refresh;
      var u := s.timers;
      if step.CancelTimer? {
        CancelKeys(u, step.id, s.clock);
      } else if step.RefreshTimer? {
        RefreshKeys(u, step.id, s.clock);
      } else if step.TakeForReset? {
        EraseKeys(u, u.recs[step.id].next);
      } else if step.ExpireTurn? {
        TurnTickled(u, step.read);
      }
    }
  }

  /** Where the worker goes, and what the clock and the idle count do. */
  lemma PlaceFlow(s: State, step: Step)
    requires Handshaken(s) && Enabled(s, step)
    ensures var t := Next(s, step);
            && t.clock == s.clock + (if step.Tick? then step.d else 0)
            && t.idle == (if t.place.Busy? then 0 else 1)
            && (!step.Compute? ==>
                  t.place == if step.EnterIdle? || step.Interrupted? then Idle
                             else if step.WaitReturns? then Returned
                             else if step.LeaveIdle? then Busy else s.place)
            && (step.Compute? ==>
                  t.place.Armed? && t.place.at == s.clock
                  && t.place.wake == s.clock + WaitMs(GetNext(s.timers, s.clock).1) * 1_000_000)
  {
    hide Refresh, Cancel, New, ResetInsert, ResetErase, Turn, WaitMs, Startable;
  }

  // ---------------------------------------------------------------- every run

  ghost predicate LegalTrace(s: State, steps: seq<Step>)
    decreases |steps|
  {
    steps == [] || (Enabled(s, steps[0]) && LegalTrace(Next(s, steps[0]), steps[1..]))
  }

  function RunAll(s: State, steps: seq<Step>): (t: State)
    requires LegalTrace(s, steps)
    decreases |steps|
  {
    if steps == [] then s else RunAll(Next(s, steps[0]), steps[1..])
  }

  lemma {:induction false} HandshakeRun(s: State, steps: seq<Step>)
    requires Handshaken(s) && LegalTrace(s, steps)
    ensures Handshaken(RunAll(s, steps))
    decreases |steps|
  {
    hide Handshaken, Next, Enabled;
    if steps != [] {
      HandshakeStep(s, steps[0]);
      HandshakeRun(Next(s, steps[0]), steps[1..]);
    }
  }

  /**
   Whenever the worker waits in epoll_wait and neither a byte is in the pipe nor a thread on its way to
   write one, the wait ends at once or no later than the first deadline: no timer is slept through. A
   thread that looks at the idle count meanwhile does find it raised.
   */
  lemma NoTimerSleptThrough(now: int, steps: seq<Step>)
    requires LegalTrace(Init(now), steps)
    ensures var s := RunAll(Init(now), steps);
            s.place.Armed? && s.pipe == 0 && s.decided == 0 && s.writing == 0 && s.place.wake != s.place.at ==>
              forall k | k in s.timers.keys :: s.place.wake <= k
    ensures var s := RunAll(Init(now), steps);
            s.place.Armed? ==> s.idle == 1
  {
    HandshakeRun(Init(now), steps);
  }
}
