/**
 connect_with_timeout of code/hook.cpp from the point where the raw connect has returned EINPROGRESS: a
 timer and the write event race to wake the fiber. The timer is one timer of a whole timer set, the
 registration one entry of a whole event registry, and other threads go on using both while the call is
 under way: any operation on other timers, any operation on the registry. The timeout callback takes
 three steps, as it does in the source: it locks its weak handle, marks the shared record, and calls
 cancelEvent. The shared record lives while the call or the callback holds it. Clock readings are free;
 `rolled` remembers whether listExpireCb has taken one for a rollover.
 */
module Connect {
  import opened Prelude
  import opened TaskQueue
  import opened TimerSet
  import H = TimerRuns
  import R = EventRegistry
  import W = OwnWait

  /** The timer the call is to use, the fiber that calls, and where it registers. */
  datatype Call = Call(timer: TimerId, cb: nat, fiber: nat, scheduler: nat, key: R.Key, timeout: Option<nat>)

  datatype Place =
    | AtTimer     // about to set the timer
    | AtEvent     // about to call addEvent
    | Registered  // about to yield
    | Suspended
    | Woken       // about to cancel the timer
    | Checking    // about to look at the shared record
    | Refused     // addEvent failed, about to cancel the timer
    | TimedOut    // returned -1 with ETIMEDOUT
    | Completed   // went on to getsockopt and returned

  /** Listed: taken out by listExpireCb. Holding: has the record locked. Marked: has set `cancelled`. */
  datatype Callback = Absent | Listed | Holding | Marked | Finished

  /**
   `owners` counts the handles that keep the shared record alive, `began` is the reading the timer was
   started at, `mine` this call's registration, `cleared` what the callback's cancelEvent has posted, and
   `base` how much had been posted by the time it was made.
   */
  datatype State = State(
    call: Call, place: Place, h: H.History, r: R.Registry, base: nat, began: int,
    mine: Option<nat>, cb: Callback, owners: int, cancelled: bool, cleared: seq<nat>, rolled: bool)

  datatype Step =
    // the fiber
    | SetTimer(now: int)
    | Register(ok: bool)
    | Yield
    | Wake
    | StopTimer
    | Check
    // whoever runs the callback
    | Lock
    | Mark
    | CancelEvent(ok: bool)
    // others
    | TimerStep(timerOp: H.Op, now: int)
    | RegistryStep(op: R.Op)

  function Begin(call: Call, h: H.History, r: R.Registry): State {
    State(call, AtTimer, h, r, |r.posted|, 0, None, Absent, 1, false, [], false)
  }

  predicate Returned(s: State) { s.place.TimedOut? || s.place.Completed? }

  /** The call's own registration. */
  function Own(s: State): W.Wait { W.Wait(s.call.fiber, s.call.scheduler, s.call.key, s.base, s.mine) }

  predicate InSlot(s: State) { W.InSlot(s.r, Own(s)) }

  ghost predicate PostedMine(s: State) { W.Posted(s.r, Own(s)) }

  function New(s: State): H.Op
    requires s.call.timeout.Some?
  {
    H.NewOp(s.call.timer, s.call.timeout.value, s.call.cb, false)
  }

  function AddMine(s: State, ok: bool): R.Op {
    R.AddOp(s.call.key, s.call.scheduler, FiberBody(s.call.fiber), ok)
  }

  ghost predicate Enabled(s: State, step: Step) {
    match step
    case SetTimer(now) => s.place.AtTimer? && (s.call.timeout.Some? ==> H.Enabled(s.h, New(s), now))
    case Register(_) => s.place.AtEvent?
    case Yield => s.place.Registered?
    case Wake => s.place.Suspended? && W.Roused(s.r, Own(s))
    case StopTimer =>
      && (s.place.Woken? || s.place.Refused?)
      && (s.call.timeout.Some? ==> H.Enabled(s.h, H.CancelOp(s.call.timer), 0))
    case Check => s.place.Checking?
    case Lock => s.cb.Listed?
    case Mark => s.cb.Holding?
    case CancelEvent(_) => s.cb.Marked?
    case TimerStep(op, now) =>
      H.Enabled(s.h, op, now) && !H.Spoils(s.h, op, now) && H.Subject(op) != Some(s.call.timer)
    case RegistryStep(op) => R.Legal(s.r, op) && W.Foreign(Own(s), op)
  }

  ghost function Next(s: State, step: Step): State
    requires Enabled(s, step)
  {
    match step
    case SetTimer(now) =>
      if s.call.timeout.Some? then s.(place := AtEvent, h := H.Apply(s.h, New(s), now), began := now)
      else s.(place := AtEvent)
    case Register(ok) =>
      if s.call.key in s.r.slots || !ok then s.(place := Refused)
      else s.(place := Registered, base := |s.r.posted|, mine := Some(s.r.added),
             r := R.Apply(s.r, AddMine(s, true)))
    case Yield => s.(place := Suspended)
    case Wake => s.(place := Woken)
    case StopTimer =>
      var t := if s.call.timeout.Some? then s.(h := H.Apply(s.h, H.CancelOp(s.call.timer), 0)) else s;
      if s.place.Refused? then t.(place := Completed, owners := s.owners - 1) else t.(place := Checking)
    case Check => s.(place := if s.cancelled then TimedOut else Completed, owners := s.owners - 1)
    case Lock =>
      if s.owners == 0 || s.cancelled then s.(cb := Finished) else s.(cb := Holding, owners := s.owners + 1)
    case Mark => s.(cb := Marked, cancelled := true)
    case CancelEvent(ok) =>
      s.(cb := Finished, owners := s.owners - 1, r := R.Apply(s.r, R.CancelOp(s.call.key, ok)),
         cleared := if ok && s.call.key in s.r.slots then s.cleared + [s.r.slots[s.call.key].serial] else s.cleared)
    case TimerStep(op, now) =>
      var g := H.Apply(s.h, op, now);
      s.(h := g, cb := if s.cb.Absent? && H.Emitted(g, s.call.timer) then Listed else s.cb,
         rolled := s.rolled || !H.NoRollover(s.h, op))
    case RegistryStep(op) => s.(r := R.Apply(s.r, op))
  }

  // ---------------------------------------------------------------- the invariant

  /** The timer has been set. */
  predicate Timed(s: State) { s.call.timeout.Some? && !s.place.AtTimer? }

  predicate Stopped(s: State) { s.place.Checking? || Returned(s) }

  ghost predicate EmissionsTold(s: State) {
    forall i | 0 <= i < |s.h.emitted| && s.h.emitted[i].id == s.call.timer ::
      s.call.timeout.Some? && s.h.emitted[i].rec.next == s.began + s.call.timeout.value * MS
  }

  /** The timer, its record in the set, and whether it has been emitted. */
  ghost predicate TimerTie(s: State) {
    var id, recs := s.call.timer, s.h.timers.recs;
    && H.Sound(s.h) && (!s.rolled ==> H.Punctual(s.h))
    && (id in recs <==> Timed(s))
    && (Timed(s) ==> !recs[id].recurring && recs[id].next == s.began + s.call.timeout.value * MS)
    && (s.cb.Absent? <==> !H.Emitted(s.h, id))
    && EmissionsTold(s)
    && (Timed(s) && recs[id].cb.None? && !Stopped(s) ==> !s.cb.Absent?)
    && (Timed(s) && Stopped(s) ==> recs[id].cb.None?)
  }

  predicate Holds(cb: Callback) { cb.Holding? || cb.Marked? }

  /** The shared record and the handles on it. */
  predicate CallbackTie(s: State) {
    && s.owners == (if Returned(s) then 0 else 1) + (if Holds(s.cb) then 1 else 0)
    && (s.cancelled ==> s.cb.Marked? || s.cb.Finished?)
    && (s.cb.Marked? ==> s.cancelled)
    && (s.cb.Finished? && !Returned(s) ==> s.cancelled)
    && (s.place.TimedOut? ==> s.cancelled)
    && (!s.cb.Finished? ==> s.cleared == [])
  }

  predicate AfterRegister(p: Place) { p.Registered? || p.Suspended? || p.Woken? || p.Checking? || p.TimedOut? }

  /** Where the call is tells whether it has registered and whether it has been posted. */
  ghost predicate RegistryTie(s: State) {
    && W.Tie(s.r, Own(s))
    && (s.place.AtTimer? || s.place.AtEvent? || s.place.Refused? ==> s.mine.None?)
    && (AfterRegister(s.place) ==> s.mine.Some?)
    && (s.mine.Some? && !s.place.Registered? && !s.place.Suspended? ==> PostedMine(s))
    && (forall n | n in s.cleared :: R.Posted(s.r, n))
  }

  ghost predicate Sound(s: State) { TimerTie(s) && CallbackTie(s) && RegistryTie(s) }

  /** A call may start in any state of the timers and the registry. */
  lemma BeginSound(call: Call, h: H.History, r: R.Registry)
    requires H.Sound(h) && H.Punctual(h) && R.Inv(r) && call.timer !in h.timers.recs
    requires forall k | k in r.slots :: r.slots[k].body != FiberBody(call.fiber)
    ensures Sound(Begin(call, h, r))
  {}

  // ---------------------------------------------------------------- steps on the timers

  lemma SetTimerTie(s: State, now: int)
    requires Sound(s) && Enabled(s, SetTimer(now))
    ensures TimerTie(Next(s, SetTimer(now)))
  {
    hide H.Sound, H.Punctual, H.Enabled, H.Apply, H.Formed, RegistryTie;
    H.EmittedKnown(s.h, s.call.timer);
    if s.call.timeout.Some? {
      H.FormedOf(s.h);
      H.ApplySound(s.h, New(s), now);
      if !s.rolled { H.ApplyPunctual(s.h, New(s), now); }
      H.NothingEmitted(s.h, New(s), now);
      H.NewRecord(s.h, s.call.timer, s.call.timeout.value, s.call.cb, now);
    }
  }

  lemma StopTimerTie(s: State)
    requires Sound(s) && Enabled(s, StopTimer)
    ensures TimerTie(Next(s, StopTimer))
  {
    hide H.Sound, H.Punctual, H.Enabled, H.Apply, H.Formed, RegistryTie;
    if s.call.timeout.Some? {
      var op := H.CancelOp(s.call.timer);
      H.FormedOf(s.h);
      H.ApplySound(s.h, op, 0);
      if !s.rolled { H.ApplyPunctual(s.h, op, 0); }
      H.NothingEmitted(s.h, op, 0);
      H.CancelRecord(s.h, s.call.timer);
    }
  }

  lemma OthersTimerTie(s: State, op: H.Op, now: int)
    requires Sound(s) && Enabled(s, TimerStep(op, now))
    ensures TimerTie(Next(s, TimerStep(op, now)))
  {
    hide H.Sound, H.Punctual, H.Enabled, H.Apply, H.Formed, H.Emits, H.Emitted, RegistryTie;
    var id, t := s.call.timer, Next(s, TimerStep(op, now));
    H.FormedOf(s.h);
    H.ApplySound(s.h, op, now);
    if !t.rolled { H.ApplyPunctual(s.h, op, now); }
    H.Untouched(s.h, op, now, id);
    H.EmittedAfter(s.h, op, now, id);
  }

  // ---------------------------------------------------------------- steps on the registry

  /** What any operation but the call's own keeps. */
  lemma RegistryKept(s: State, op: R.Op)
    requires RegistryTie(s) && R.Legal(s.r, op) && W.Foreign(Own(s), op)
    ensures RegistryTie(s.(r := R.Apply(s.r, op)))
  {
    hide W.Tie, R.Apply, R.Posted;
    W.ForeignTie(s.r, Own(s), op);
    W.PostedStays(s.r, op);
  }

  lemma RegisterTie(s: State, ok: bool)
    requires RegistryTie(s) && s.place.AtEvent?
    ensures RegistryTie(Next(s, Register(ok)))
  {
    hide W.Tie, R.Apply;
    if s.call.key !in s.r.slots && ok {
      W.RegisterTie(s.r, Own(s));
      W.PostedStays(s.r, AddMine(s, true));
    }
  }

  /** The fiber goes on because its own registration was posted: it has no other. */
  lemma RousedByMine(s: State)
    requires RegistryTie(s) && W.Roused(s.r, Own(s))
    ensures PostedMine(s)
  {
    W.RousedByMine(s.r, Own(s));
  }

  lemma CancelTie(s: State, ok: bool)
    requires RegistryTie(s) && s.cb.Marked?
    ensures RegistryTie(Next(s, CancelEvent(ok)))
  {
    hide W.Tie;
    RegistryKept(s, R.CancelOp(s.call.key, ok));
    var t := Next(s, CancelEvent(ok));
    if ok && s.call.key in s.r.slots {
      assert t.r.posted[|s.r.posted|].serial == s.r.slots[s.call.key].serial;
    }
  }

  lemma SameRegistry(s: State, t: State)
    requires RegistryTie(s)
          && t == s.(place := t.place, h := t.h, began := t.began, cb := t.cb,
                     owners := t.owners, cancelled := t.cancelled, rolled := t.rolled)
    requires t.place == s.place || (s.place.AtTimer? && t.place.AtEvent?) || (s.place.Registered? && t.place.Suspended?)
          || (s.place.Suspended? && t.place.Woken? && PostedMine(s)) || (s.place.Woken? && t.place.Checking?)
          || (s.place.Refused? && t.place.Completed?) || (s.place.Checking? && Returned(t))
    ensures RegistryTie(t)
  {}

  lemma SoundStep(s: State, step: Step)
    requires Sound(s) && Enabled(s, step)
    ensures Sound(Next(s, step))
  {
    hide TimerTie, RegistryTie, H.Apply, R.Apply, H.Enabled;
    if step.SetTimer? {
      SetTimerTie(s, step.now);
      SameRegistry(s, Next(s, step));
    } else if step.StopTimer? {
      StopTimerTie(s);
      SameRegistry(s, Next(s, step));
    } else if step.TimerStep? {
      OthersTimerTie(s, step.timerOp, step.now);
      SameRegistry(s, Next(s, step));
      ListedTie(s, Next(s, step));
    } else {
      TimersLeft(s, step);
    }
  }

  lemma TimersLeft(s: State, step: Step)
    requires Sound(s) && Enabled(s, step) && !step.SetTimer? && !step.StopTimer? && !step.TimerStep?
    ensures Sound(Next(s, step))
  {
    hide TimerTie, RegistryTie, H.Apply, R.Apply, H.Enabled;
    SameTimers(s, Next(s, step));
    if step.Register? {
      RegisterTie(s, step.ok);
    } else if step.CancelEvent? {
      CancelTie(s, step.ok);
    } else if step.RegistryStep? {
      RegistryKept(s, step.op);
    } else {
      if step.Wake? { RousedByMine(s); }
      SameRegistry(s, Next(s, step));
    }
  }

  lemma ListedTie(s: State, t: State)
    requires CallbackTie(s) && t == s.(h := t.h, cb := t.cb, rolled := t.rolled)
          && (t.cb == s.cb || (s.cb.Absent? && t.cb.Listed?))
    ensures CallbackTie(t)
  {}

  /** Steps that leave the timers alone. */
  lemma SameTimers(s: State, t: State)
    requires TimerTie(s) && t.call == s.call && t.h == s.h && t.began == s.began && t.rolled == s.rolled
    requires t.cb.Absent? == s.cb.Absent? && (t.place.AtTimer? <==> s.place.AtTimer?) && (Stopped(t) <==> Stopped(s))
    ensures TimerTie(t)
  {}

  // ---------------------------------------------------------------- every run

  ghost predicate LegalTrace(s: State, steps: seq<Step>)
    decreases |steps|
  {
    steps == [] || (Enabled(s, steps[0]) && LegalTrace(Next(s, steps[0]), steps[1..]))
  }

  ghost function RunAll(s: State, steps: seq<Step>): (t: State)
    requires LegalTrace(s, steps)
    decreases |steps|
  {
    if steps == [] then s else RunAll(Next(s, steps[0]), steps[1..])
  }

  lemma {:induction false} SoundRun(s: State, steps: seq<Step>)
    requires Sound(s) && LegalTrace(s, steps)
    ensures Sound(RunAll(s, steps))
    decreases |steps|
  {
    hide Sound, Next, Enabled;
    if steps != [] {
      SoundStep(s, steps[0]);
      SoundRun(Next(s, steps[0]), steps[1..]);
    }
  }

  /** The timer has been emitted, no earlier than its deadline by the clock reading of the emission. */
  ghost predicate TimeoutDue(s: State) {
    s.call.timeout.Some? &&
    exists i ::
        0 <= i < |s.h.emitted| && s.h.emitted[i].id == s.call.timer
        && s.began + s.call.timeout.value * MS <= s.h.emitted[i].at
  }

  lemma DueIfEmitted(s: State)
    requires TimerTie(s) && H.Emitted(s.h, s.call.timer) && !s.rolled
    ensures TimeoutDue(s)
  {
    hide H.Sound;
    var i :| 0 <= i < |s.h.emitted| && s.h.emitted[i].id == s.call.timer;
    assert s.h.emitted[i].rec.next <= s.h.emitted[i].at;
  }

  /** This call's registration is in one place, once. */
  lemma MineOnce(s: State)
    requires RegistryTie(s) && s.mine.Some?
    ensures InSlot(s) ==> !PostedMine(s) && s.mine.value !in s.r.dropped
    ensures PostedMine(s) ==> s.mine.value !in s.r.dropped
    ensures InSlot(s) || PostedMine(s) || s.mine.value in s.r.dropped
    ensures forall i, j | 0 <= i < j < |s.r.posted| :: s.r.posted[i].serial != s.r.posted[j].serial
  {
    W.MineOnce(s.r, Own(s));
  }

  /**
   Whatever other threads do with the timers and the registry: this call's registration is in its slot,
   posted or dropped, never in two of them and never posted twice, whoever clears the bit; the fiber goes on
   only when it has been posted; and unless a clock reading was taken for a rollover the timeout is
   reported only when the timer was emitted at or after its deadline.
   */
  lemma ConnectRace(s: State, steps: seq<Step>)
    requires Sound(s) && LegalTrace(s, steps)
    ensures var t := RunAll(s, steps);
            && (t.mine.Some? && InSlot(t) ==> !PostedMine(t))
            && (t.mine.Some? ==> InSlot(t) || PostedMine(t) || t.mine.value in t.r.dropped)
            && (forall i, j | 0 <= i < j < |t.r.posted| :: t.r.posted[i].serial != t.r.posted[j].serial)
            && (t.place.Woken? || t.place.Checking? || t.place.TimedOut? ==> PostedMine(t))
            && (forall i | 0 <= i < |t.r.posted| && t.mine == Some(t.r.posted[i].serial) ::
                  t.r.posted[i].body == FiberBody(t.call.fiber) && t.r.posted[i].scheduler == t.call.scheduler)
            && (t.place.TimedOut? && !t.rolled ==> TimeoutDue(t))
  {
    hide RunAll, LegalTrace;
    SoundRun(s, steps);
    var t := RunAll(s, steps);
    hide W.Tie, H.Sound, H.Punctual, EmissionsTold;
    MinePosts(t);
    if t.mine.Some? { MineOnce(t); } else { DistinctPosts(t.r); }
    if t.place.TimedOut? && !t.rolled { DueIfEmitted(t); }
  }

  lemma MinePosts(s: State)
    requires RegistryTie(s)
    ensures forall i | 0 <= i < |s.r.posted| && s.mine == Some(s.r.posted[i].serial) :: W.IsMine(Own(s), s.r.posted[i])
  {}

  lemma DistinctPosts(r: R.Registry)
    requires R.Inv(r)
    ensures forall i, j | 0 <= i < j < |r.posted| :: r.posted[i].serial != r.posted[j].serial
  {}

  // ---------------------------------------------------------------- is the timeout on its way

  /** The timer is in the set, or its callback is under way. */
  predicate Pending(s: State) {
    s.call.timer in s.h.timers.members || s.cb.Listed? || s.cb.Holding? || s.cb.Marked?
  }

  predicate Waiting(s: State) { s.place.Registered? || s.place.Suspended? }

  /** No operation on another timer with the same deadline, and no refused cancelEvent of the callback. */
  ghost predicate Apart(s: State, step: Step)
    requires Enabled(s, step)
  {
    match step
    case TimerStep(op, _) => s.call.timer in s.h.timers.recs ==> !H.Erases(s.h, op, s.h.timers.recs[s.call.timer].next)
    case CancelEvent(ok) => ok
    case _ => true
  }

  lemma PendingStep(s: State, step: Step)
    requires Sound(s) && Enabled(s, step) && Apart(s, step) && Timed(s) && Waiting(s) && Waiting(Next(s, step))
    ensures Timed(Next(s, step))
    ensures InSlot(Next(s, step)) ==> InSlot(s) && (Pending(Next(s, step)) <==> Pending(s))
  {
    hide TimerTie, RegistryTie, H.Apply, R.Apply, H.Enabled;
    match step
    case TimerStep(op, now) => PendingTimers(s, op, now);
    case CancelEvent(ok) => ClearedSlot(s);
    case RegistryStep(op) => SlotBefore(s, op);
    case _ =>
  }

  lemma PendingTimers(s: State, op: H.Op, now: int)
    requires Sound(s) && Enabled(s, TimerStep(op, now)) && Apart(s, TimerStep(op, now)) && Timed(s) && Waiting(s)
    ensures Pending(Next(s, TimerStep(op, now))) <==> Pending(s)
  {
    hide H.Sound, H.Punctual, H.Enabled, H.Apply, H.Formed, H.Emits, H.Emitted, H.Erases, RegistryTie;
    var id := s.call.timer;
    H.FormedOf(s.h);
    H.EmittedKnown(s.h, id);
    H.MemberLive(s.h, id);
    H.EmittedAfter(s.h, op, now, id);
    H.Untouched(s.h, op, now, id);
    if op.ExpireOp? {
      H.ExpireBystander(s.h, now, op.now2, id);
      H.NotErased(s.h, op, s.h.timers.recs[id].next);
    } else {
      H.Bystander(s.h, op, now, id);
      H.OnlyExpiryEmits(s.h, op, now, id);
    }
  }

  /** The callback's cancelEvent empties the slot. */
  lemma ClearedSlot(s: State)
    requires RegistryTie(s)
    ensures s.call.key !in R.Apply(s.r, R.CancelOp(s.call.key, true)).slots
  {}

  lemma SlotBefore(s: State, op: R.Op)
    requires RegistryTie(s) && R.Legal(s.r, op)
    ensures var r := R.Apply(s.r, op);
            s.mine.Some? && s.call.key in r.slots && r.slots[s.call.key].serial == s.mine.value ==> InSlot(s)
  {
    hide R.Inv;
    R.OpTraces(s.r, op);
  }

  ghost predicate ApartTrace(s: State, steps: seq<Step>)
    requires LegalTrace(s, steps)
    decreases |steps|
  {
    steps == [] || (Apart(s, steps[0]) && ApartTrace(Next(s, steps[0]), steps[1..]))
  }

  function Rank(p: Place): nat {
    match p
    case AtTimer => 0
    case AtEvent => 1
    case Registered => 2
    case Suspended => 3
    case _ => 4
  }

  /** A call never goes back. */
  lemma {:induction false} RankRun(s: State, steps: seq<Step>)
    requires LegalTrace(s, steps)
    ensures Rank(s.place) <= Rank(RunAll(s, steps).place)
    decreases |steps|
  {
    if steps != [] {
      RankStep(s, steps[0]);
      RankRun(Next(s, steps[0]), steps[1..]);
    }
  }

  lemma RankStep(s: State, step: Step)
    requires Enabled(s, step)
    ensures Rank(s.place) <= Rank(Next(s, step).place)
  {
    hide H.Apply, R.Apply;
  }

  lemma {:induction false} PendingRun(s: State, steps: seq<Step>)
    requires Sound(s) && Timed(s) && Waiting(s) && LegalTrace(s, steps) && ApartTrace(s, steps)
    ensures var t := RunAll(s, steps);
            Waiting(t) && InSlot(t) ==> InSlot(s) && (Pending(t) <==> Pending(s))
    decreases |steps|
  {
    hide Sound, Next, Enabled, Apart, Pending, InSlot;
    if steps != [] {
      var u := Next(s, steps[0]);
      RankStep(s, steps[0]);
      RankRun(u, steps[1..]);
      if Waiting(RunAll(s, steps)) {
        SoundStep(s, steps[0]);
        PendingStep(s, steps[0]);
        PendingRun(u, steps[1..]);
      }
    }
  }

  /**
   A fiber that waits still has its timeout coming exactly when, as it called addEvent, its timer had not
   been dropped at a taken deadline and the callback had not been through already.
   */
  lemma TimeoutPendingIff(s: State, steps: seq<Step>)
    requires Sound(s) && s.place.AtEvent? && s.call.timeout.Some? && s.call.key !in s.r.slots
    requires LegalTrace(Next(s, Register(true)), steps) && ApartTrace(Next(s, Register(true)), steps)
    ensures var t := RunAll(Next(s, Register(true)), steps);
            Waiting(t) && InSlot(t) ==>
              (Pending(t) <==> !(s.cb.Absent? && s.call.timer !in s.h.timers.members) && !s.cb.Finished?)
  {
    hide TimerTie, RegistryTie, LegalTrace, RunAll, ApartTrace, H.Apply, R.Apply;
    var u := Next(s, Register(true));
    SoundStep(s, Register(true));
    PendingRun(u, steps);
    FinishedIsOut(s);
  }

  /** A timer that has been emitted is no member. */
  lemma FinishedIsOut(s: State)
    requires TimerTie(s)
    ensures !s.cb.Absent? ==> s.call.timer !in s.h.timers.members
  {
    hide H.Sound, H.Punctual, H.Emitted;
    H.EmittedKnown(s.h, s.call.timer);
    H.MemberLive(s.h, s.call.timer);
  }

  /**
   That other timers keep apart is needed: an operation on another timer that erases the deadline of this one
   takes it out, and nothing else but its own expiry does.
   */
  lemma DisplacedIff(s: State, op: H.Op, now: int)
    requires Sound(s) && Enabled(s, TimerStep(op, now)) && s.call.timer in s.h.timers.members && !op.ExpireOp?
    ensures s.call.timer in s.h.timers.recs
    ensures s.call.timer !in Next(s, TimerStep(op, now)).h.timers.members <==>
            H.Erases(s.h, op, s.h.timers.recs[s.call.timer].next)
  {
    hide H.Punctual, RegistryTie, H.Apply, H.Enabled, H.Erases;
    H.FormedOf(s.h);
    H.MemberLive(s.h, s.call.timer);
    H.Bystander(s.h, op, now, s.call.timer);
  }

  /** That the callback's cancelEvent is not refused is needed: the fiber then goes on waiting without a timeout. */
  lemma RefusedCancelLoses(s: State)
    requires Sound(s) && Waiting(s) && InSlot(s) && s.cb.Marked?
    ensures var t := Next(s, CancelEvent(false));
            Waiting(t) && InSlot(t) && Pending(s) && !Pending(t)
  {
    hide H.Sound, RegistryTie;
    FinishedIsOut(s);
  }

  // ---------------------------------------------------------------- building runs

  ghost predicate Reaches(s: State, t: State) {
    exists steps :: LegalTrace(s, steps) && RunAll(s, steps) == t
  }

  lemma Here(s: State)
    ensures Reaches(s, s)
  {
    assert LegalTrace(s, []) && RunAll(s, []) == s;
  }

  lemma Before(s: State, step: Step, t: State)
    requires Enabled(s, step) && Reaches(Next(s, step), t)
    ensures Reaches(s, t)
  {
    hide Next, Enabled;
    var steps :| LegalTrace(Next(s, step), steps) && RunAll(Next(s, step), steps) == t;
    assert ([step] + steps)[1..] == steps;
    assert LegalTrace(s, [step] + steps) && RunAll(s, [step] + steps) == t;
  }

  // ---------------------------------------------------------------- when the timeout is reported

  /** After a cancel that found the callback still in place, it stays away for good. */
  ghost predicate Silenced(s: State) {
    Sound(s) && Stopped(s) && !s.place.TimedOut? && s.cb.Absent? && !s.cancelled
  }

  lemma SilencedStep(s: State, step: Step)
    requires Silenced(s) && Enabled(s, step)
    ensures Silenced(Next(s, step))
  {
    hide TimerTie, RegistryTie, H.Apply, R.Apply, H.Enabled;
    SoundStep(s, step);
    if step.TimerStep? { StaysSilent(s, step.timerOp, step.now); }
  }

  lemma StaysSilent(s: State, op: H.Op, now: int)
    requires TimerTie(s) && Stopped(s) && s.cb.Absent? && Enabled(s, TimerStep(op, now))
    ensures !H.Emitted(H.Apply(s.h, op, now), s.call.timer)
  {
    hide H.Sound, H.Punctual, H.Enabled, H.Apply, H.Emits, H.Emitted;
    H.Untouched(s.h, op, now, s.call.timer);
    H.EmittedAfter(s.h, op, now, s.call.timer);
  }

  lemma {:induction false} SilencedRun(s: State, steps: seq<Step>)
    requires Silenced(s) && LegalTrace(s, steps)
    ensures Silenced(RunAll(s, steps))
    decreases |steps|
  {
    hide Silenced, Next, Enabled;
    if steps != [] {
      SilencedStep(s, steps[0]);
      SilencedRun(Next(s, steps[0]), steps[1..]);
    }
  }

  /** The callback may still mark the record before the fiber looks at it. */
  lemma MarkedInTime(s: State)
    requires Sound(s) && s.place.Checking? && !s.cb.Absent?
    ensures exists t :: Reaches(s, t) && t.place.TimedOut? && t.r == s.r && t.cleared == s.cleared
  {
    hide TimerTie, RegistryTie, Reaches, H.Apply, R.Apply;
    if s.cb.Listed? {
      LockStep(s);
      var u := Next(s, Lock);
      MarkedFromHolding(u);
      var t :| Reaches(u, t) && t.place.TimedOut? && t.r == u.r && t.cleared == u.cleared;
      Before(s, Lock, t);
    } else if s.cb.Holding? {
      MarkedFromHolding(s);
    } else {
      MarkedAlready(s);
    }
  }

  /** Before the return the record is alive, so the callback locks it. */
  lemma LockStep(s: State)
    requires CallbackTie(s) && s.cb.Listed? && !Returned(s)
    ensures Next(s, Lock) == s.(cb := Holding, owners := s.owners + 1)
  {}

  lemma MarkedFromHolding(s: State)
    requires s.place.Checking? && s.cb.Holding?
    ensures exists t :: Reaches(s, t) && t.place.TimedOut? && t.r == s.r && t.cleared == s.cleared
  {
    hide Reaches, H.Apply, R.Apply;
    var u := s.(cb := Marked, cancelled := true);
    MarkedAlready(u);
    var t :| Reaches(u, t) && t.place.TimedOut? && t.r == u.r && t.cleared == u.cleared;
    Before(s, Mark, t);
  }

  lemma MarkedAlready(s: State)
    requires s.place.Checking? && s.cancelled
    ensures exists t :: Reaches(s, t) && t.place.TimedOut? && t.r == s.r && t.cleared == s.cleared
  {
    hide Reaches, H.Apply, R.Apply;
    var t := Next(s, Check);
    Here(t);
    Before(s, Check, t);
  }

  /** Timer::cancel as `connect_with_timeout` sees it: whether the callback was still in place. */
  predicate CancelSucceeds(s: State)
    requires s.call.timer in s.h.timers.recs
  {
    s.h.timers.recs[s.call.timer].cb.Some?
  }

  /**
   The timeout can be reported exactly when the cancel of the timer comes too late: if it returns true no
   run reports it, if it returns false some run does.
   */
  lemma TimeoutReportedIff(s: State)
    requires Sound(s) && s.place.Woken? && s.call.timeout.Some?
    ensures s.call.timer in s.h.timers.recs && Enabled(s, StopTimer)
    ensures (exists t :: Reaches(Next(s, StopTimer), t) && t.place.TimedOut?) <==> !CancelSucceeds(s)
  {
    hide RegistryTie, H.Sound, H.Punctual, Reaches;
    H.FormedOf(s.h);
    assert Enabled(s, StopTimer) by { H.KnownOf(s.h); }
    hide H.Apply, H.Enabled;
    var u := Next(s, StopTimer);
    SoundStep(s, StopTimer);
    if CancelSucceeds(s) {
      H.EmittedKnown(s.h, s.call.timer);
      forall t | Reaches(u, t) ensures !t.place.TimedOut? {
        SilencedReach(u, t);
      }
    } else {
      MarkedInTime(u);
    }
  }

  lemma SilencedReach(s: State, t: State)
    requires Silenced(s) && Reaches(s, t)
    ensures !t.place.TimedOut?
  {
    hide Sound, Next, Enabled, RunAll, LegalTrace;
    var steps :| LegalTrace(s, steps) && RunAll(s, steps) == t;
    SilencedRun(s, steps);
  }

  /** It can be reported although the event won: whenever the callback has not been through when the fiber goes on. */
  lemma EventWinsYetTimeout(s: State)
    requires Sound(s) && s.place.Checking? && (s.cb.Listed? || s.cb.Holding? || s.cb.Marked?)
    ensures exists t :: Reaches(s, t) && t.place.TimedOut? && PostedMine(t) && t.cleared == []
  {
    hide TimerTie, W.Tie, Reaches, H.Apply, R.Apply;
    MarkedInTime(s);
    var t :| Reaches(s, t) && t.place.TimedOut? && t.r == s.r && t.cleared == s.cleared;
    ReachesSound(s, t);
  }

  lemma ReachesSound(s: State, t: State)
    requires Sound(s) && Reaches(s, t)
    ensures Sound(t)
  {
    hide Sound, Next, Enabled, RunAll, LegalTrace;
    var steps :| LegalTrace(s, steps) && RunAll(s, steps) == t;
    SoundRun(s, steps);
  }

  /** A callback that comes through between addTimer and addEvent finds nothing to cancel, and the timeout is lost. */
  lemma TimeoutLost(s: State)
    requires Sound(s) && s.place.AtEvent? && s.cb.Listed? && s.call.key !in s.r.slots
    ensures exists t :: Reaches(s, t) && t.place.Suspended? && InSlot(t) && !Pending(t)
  {
    hide TimerTie, RegistryTie, Reaches, H.Apply;
    LockStep(s);
    var s1 := Next(s, Lock);
    var s2 := Next(s1, Mark);
    var s3 := Next(s2, CancelEvent(true));
    assert s3.r == s.r;
    var s4 := Next(s3, Register(true));
    var s5 := Next(s4, Yield);
    FinishedIsOut(s);
    Here(s5);
    Before(s4, Yield, s5);
    Before(s3, Register(true), s5);
    Before(s2, CancelEvent(true), s5);
    Before(s1, Mark, s5);
    Before(s, Lock, s5);
  }

  /**
   On a new manager, once the timer is set, whatever its timeout, a worker may expire it before the fiber
   registers.
   */
  lemma ListedBeforeRegister(call: Call, created: int)
    requires call.timeout.Some?
    ensures var s := Begin(call, H.Start(created), R.EMPTY);
            exists t ::
                Reaches(s, t) && Sound(t) && t.place.AtEvent? && t.cb.Listed? && t.r == R.EMPTY && t.call == call
  {
    hide Reaches, H.Apply, H.Sound, H.Punctual, H.Formed, TimerTie, RegistryTie;
    var s := Begin(call, H.Start(created), R.EMPTY);
    H.StartSound(created);
    R.EmptyInv();
    BeginSound(call, s.h, s.r);
    FirstTimer(call, created);
    var s1 := Next(s, SetTimer(created));
    SoundStep(s, SetTimer(created));
    ListedNow(s1, created + call.timeout.value * MS);
    var s2 :| Reaches(s1, s2) && Sound(s2) && s2.cb.Listed? && s2.place.AtEvent? && s2.r == s1.r && s2.call == call;
    Before(s, SetTimer(created), s2);
  }

  /** A sole timer that is due is emitted, and its callback is on its way. */
  lemma ListedNow(s: State, due: int)
    requires Sound(s) && s.place.AtEvent? && s.cb.Absent? && s.h.timers.members == [s.call.timer]
          && s.h.timers.keys == [due]
    requires s.call.timer in s.h.timers.recs && !s.h.timers.recs[s.call.timer].recurring
    ensures exists t :: Reaches(s, t) && Sound(t) && t.cb.Listed? && t.place.AtEvent? && t.r == s.r && t.call == s.call
  {
    hide Reaches, H.Apply, H.Sound, H.Punctual, H.Formed, H.Emits, H.Emitted, RegistryTie;
    var op := H.ExpireOp(s.h.timers.preTime);
    OneShotExpires(s.h, s.call.timer, due, op.now2);
    hide H.Enabled;
    H.EmittedAfter(s.h, op, due, s.call.timer);
    var t := Next(s, TimerStep(op, due));
    SoundStep(s, TimerStep(op, due));
    Here(t);
    Before(s, TimerStep(op, due), t);
  }

  lemma FirstTimer(call: Call, created: int)
    requires call.timeout.Some?
    ensures var h := H.Start(created);
            var op := H.NewOp(call.timer, call.timeout.value, call.cb, false);
            var due := created + call.timeout.value * MS;
            && H.Enabled(h, op, created)
            && H.Apply(h, op, created).timers.members == [call.timer] && H.Apply(h, op, created).timers.keys == [due]
            && call.timer in H.Apply(h, op, created).timers.recs
                  && !H.Apply(h, op, created).timers.recs[call.timer].recurring
            && H.Apply(h, op, created).timers.preTime == created
  {}

  /** A sole one-shot timer that is due is emitted. */
  lemma OneShotExpires(h: H.History, id: TimerId, now: int, now2: int)
    requires H.Sound(h) && h.timers.members == [id] && id in h.timers.recs && !h.timers.recs[id].recurring
          && h.timers.keys == [now]
    ensures H.Enabled(h, H.ExpireOp(now2), now) && H.Emits(h, H.ExpireOp(now2), now, id)
  {
    var s := DetectRollover(h.timers, now2).0;
    assert LowerBound(s.keys, now + 1) == 1;
    assert id in s.members[..1];
  }

  /** So for every timeout the call can be left waiting without one. */
  lemma TimeoutLostFromStart(call: Call, created: int)
    requires call.timeout.Some?
    ensures exists t ::
          Reaches(Begin(call, H.Start(created), R.EMPTY), t) && t.place.Suspended? && InSlot(t) && !Pending(t)
  {
    hide Reaches, Sound, Pending, InSlot, Begin;
    var s := Begin(call, H.Start(created), R.EMPTY);
    ListedBeforeRegister(call, created);
    var u :| Reaches(s, u) && Sound(u) && u.place.AtEvent? && u.cb.Listed? && u.r == R.EMPTY && u.call == call;
    TimeoutLost(u);
    var t :| Reaches(u, t) && t.place.Suspended? && InSlot(t) && !Pending(t);
    Along(s, u, t);
  }

  lemma Along(s: State, u: State, t: State)
    requires Reaches(s, u) && Reaches(u, t)
    ensures Reaches(s, t)
  {
    hide Next, Enabled;
    var steps :| LegalTrace(s, steps) && RunAll(s, steps) == u;
    AlongRun(s, steps, t);
  }

  lemma {:induction false} AlongRun(s: State, steps: seq<Step>, t: State)
    requires LegalTrace(s, steps) && Reaches(RunAll(s, steps), t)
    ensures Reaches(s, t)
    decreases |steps|
  {
    hide Next, Enabled, Reaches;
    if steps != [] {
      AlongRun(Next(s, steps[0]), steps[1..], t);
      Before(s, steps[0], t);
    }
  }

  // ---------------------------------------------------------------- after the return

  /** The lock succeeds exactly while the call has not returned: the callback itself does not hold the record yet. */
  lemma LockIff(s: State)
    requires Sound(s) && Enabled(s, Lock)
    ensures Next(s, Lock).cb.Holding? <==> !Returned(s)
  {
    hide TimerTie, RegistryTie;
  }

  /** The record is gone, and with it everything the callback could do. */
  lemma LateStep(s: State, step: Step)
    requires Sound(s) && Returned(s) && !Holds(s.cb) && Enabled(s, step)
    ensures var t := Next(s, step);
            t.cancelled == s.cancelled && t.place == s.place && t.cleared == s.cleared && !Holds(t.cb)
  {
    hide TimerTie, RegistryTie, H.Apply, R.Apply;
  }

  /** A callback that does not hold the record when the call returns never does anything. */
  lemma {:induction false} LateCallbackDoesNothing(s: State, steps: seq<Step>)
    requires Sound(s) && Returned(s) && !Holds(s.cb) && LegalTrace(s, steps)
    ensures var t := RunAll(s, steps);
            t.cancelled == s.cancelled && t.place == s.place && t.cleared == s.cleared
    decreases |steps|
  {
    hide Sound, Next, Enabled;
    if steps != [] {
      SoundStep(s, steps[0]);
      LateStep(s, steps[0]);
      LateCallbackDoesNothing(Next(s, steps[0]), steps[1..]);
    }
  }

  /** The callback posts a registration that was made after the call had returned. */
  ghost predicate ClearsLater(s: State, t: State) {
    exists n :: n in t.cleared && s.r.added <= n
  }

  /** A callback that holds the record at the return can cancel a later wait on the descriptor, and only such a one. */
  lemma LaterWaitCancelledIff(s: State)
    requires Sound(s) && Returned(s)
    ensures (exists t :: Reaches(s, t) && ClearsLater(s, t)) <==> Holds(s.cb)
  {
    hide TimerTie, Reaches, ClearsLater;
    if s.cb.Holding? {
      var u := s.(cb := Marked, cancelled := true);
      CancelsLater(u);
      var t :| Reaches(u, t) && ClearsLater(u, t);
      Before(s, Mark, t);
      assert ClearsLater(s, t) by { SameAdded(s, u, t); }
    } else if s.cb.Marked? {
      CancelsLater(s);
    } else {
      forall t | Reaches(s, t) ensures !ClearsLater(s, t) {
        NeverLater(s, t);
      }
    }
  }

  lemma SameAdded(s: State, u: State, t: State)
    requires s.r == u.r && ClearsLater(u, t)
    ensures ClearsLater(s, t)
  {}

  lemma CancelsLater(s: State)
    requires s.cb.Marked?
    ensures exists t :: Reaches(s, t) && ClearsLater(s, t)
  {
    hide Reaches;
    var free := R.CancelOp(s.call.key, true);
    var u := Next(s, RegistryStep(free));
    FreedSlot(s.r, s.call.key);
    CancelsNext(u);
    var t :| Reaches(u, t) && ClearsLater(u, t);
    Before(s, RegistryStep(free), t);
    assert s.r.added <= u.r.added;
  }

  lemma FreedSlot(r: R.Registry, key: R.Key)
    ensures var q := R.Apply(r, R.CancelOp(key, true));
            key !in q.slots && q.added == r.added
  {}

  lemma CancelsNext(s: State)
    requires s.cb.Marked? && s.call.key !in s.r.slots
    ensures exists t :: Reaches(s, t) && ClearsLater(s, t)
  {
    hide Reaches;
    var op := R.AddOp(s.call.key, 0, CbBody(0), true);
    var u := Next(s, RegistryStep(op));
    var t := Next(u, CancelEvent(true));
    assert u.r.slots[s.call.key].serial == s.r.added;
    assert t.cleared[|s.cleared|] == s.r.added;
    assert s.r.added in t.cleared;
    Here(t);
    Before(u, CancelEvent(true), t);
    Before(s, RegistryStep(op), t);
  }

  lemma NeverLater(s: State, t: State)
    requires Sound(s) && Returned(s) && !Holds(s.cb) && Reaches(s, t)
    ensures !ClearsLater(s, t)
  {
    hide TimerTie, W.OnlyMine, Next, Enabled, RunAll, LegalTrace, Returned, Holds, CallbackTie;
    var steps :| LegalTrace(s, steps) && RunAll(s, steps) == t;
    LateCallbackDoesNothing(s, steps);
    assert t.cleared == s.cleared;
    PostedOld(s.r);
  }

  lemma PostedOld(r: R.Registry)
    requires R.Inv(r)
    ensures forall n: nat | R.Posted(r, n) :: n < r.added
  {}
}
