/**
 The rounds of do_io (code/hook.cpp:97-143) over timers and registry: each round that waits sets a timer of
 its own and registers the fiber, while one shared record tells all rounds of the call whether a timeout has
 struck. The timers are timers of a whole timer set and the registrations entries of a whole event registry
 that other threads go on using; clock readings are free, and `rolled` remembers whether listExpireCb has
 taken one for a rollover. A callback takes three steps, as in Connect. The record lives while the call or a
 callback holds it.
 */
module IoRounds {
  import opened Prelude
  import opened TimerSet
  import opened TaskQueue
  import H = TimerRuns
  import R = EventRegistry
  import W = OwnWait
  import D = DoIo

  datatype Place =
    | Calling      // about to make the raw call
    | Arming       // EAGAIN: about to set the timer
    | Registering  // about to call addEvent
    | Waiting      // yielded
    | Woken        // about to cancel the timer
    | Refused      // addEvent failed, about to cancel the timer
    | Checking     // about to look at the shared record
    | Done(reply: D.Reply)

  /** As in connect: listed by listExpireCb, holding the record, having marked it, through with cancelEvent. */
  datatype Callback = Absent | Listed | Holding | Marked | Finished

  /** The timer of one round and the reading it was started at. */
  datatype Round = Round(timer: TimerId, began: int, cb: Callback)

  /**
   `own` is the registration of the latest round that made one, and `cleared` what the callbacks' cancelEvent
   have posted.
   */
  datatype State = State(
    timeout: Option<nat>, place: Place, h: H.History, r: R.Registry, rounds: seq<Round>, own: W.Wait,
    cancelled: bool, cleared: seq<nat>, raws: seq<D.Outcome>, waits: seq<D.Wait>, rolled: bool)

  datatype Step =
    // the fiber
    | Raw(outcome: D.Outcome)
    | Arm(id: TimerId, cb: nat, now: int)
    | Register(ok: bool)
    | WaitEnds
    | StopTimer
    | Check
    // the callback of one round
    | Lock(j: nat)
    | Mark(j: nat)
    | CancelEvent(j: nat, ok: bool)
    // other threads
    | TimerStep(op: H.Op, now: int)
    | RegistryStep(edit: R.Op)

  function Begin(timeout: Option<nat>, fiber: nat, scheduler: nat, key: R.Key, h: H.History, r: R.Registry): State {
    State(timeout, Calling, h, r, [], W.Wait(fiber, scheduler, key, |r.posted|, None), false, [], [], [], false)
  }

  function AddMine(s: State, ok: bool): R.Op { R.AddOp(s.own.key, s.own.scheduler, FiberBody(s.own.fiber), ok) }

  predicate Holds(cb: Callback) { cb.Holding? || cb.Marked? }

  predicate Held(rounds: seq<Round>) { exists j :: 0 <= j < |rounds| && Holds(rounds[j].cb) }

  predicate Own(s: State, id: TimerId) { exists j :: 0 <= j < |s.rounds| && s.rounds[j].timer == id }

  ghost predicate Enabled(s: State, step: Step) {
    match step
    case Raw(_) => s.place.Calling?
    case Arm(id, cb, now) =>
      s.place.Arming? && (s.timeout.Some? ==> H.Enabled(s.h, H.NewOp(id, s.timeout.value, cb, false), now))
    case Register(_) => s.place.Registering?
    case WaitEnds => s.place.Waiting? && W.Roused(s.r, s.own)
    case StopTimer =>
      && (s.place.Woken? || s.place.Refused?)
      && (s.timeout.Some? ==> s.rounds != [] && H.Enabled(s.h, H.CancelOp(s.rounds[|s.rounds| - 1].timer), 0))
    case Check => s.place.Checking?
    case Lock(j) => j < |s.rounds| && s.rounds[j].cb.Listed?
    case Mark(j) => j < |s.rounds| && s.rounds[j].cb.Holding?
    case CancelEvent(j, _) => j < |s.rounds| && s.rounds[j].cb.Marked?
    case TimerStep(op, now) =>
      H.Enabled(s.h, op, now) && !H.Spoils(s.h, op, now) && (H.Subject(op).Some? ==> !Own(s, H.Subject(op).value))
    case RegistryStep(op) => R.Legal(s.r, op) && W.Foreign(s.own, op)
  }

  /** Callbacks that listExpireCb has taken out. */
  ghost function Told(rounds: seq<Round>, h: H.History): (r: seq<Round>)
    ensures |r| == |rounds|
    ensures forall j | 0 <= j < |rounds| ::
              r[j] == if rounds[j].cb.Absent? && H.Emitted(h, rounds[j].timer) then rounds[j].(cb := Listed)
                  else rounds[j]
  {
    seq(|rounds|, j requires 0 <= j < |rounds| =>
      if rounds[j].cb.Absent? && H.Emitted(h, rounds[j].timer) then rounds[j].(cb := Listed) else rounds[j])
  }

  function SetCallback(s: State, j: nat, cb: Callback): State
    requires j < |s.rounds|
  {
    s.(rounds := s.rounds[j := s.rounds[j].(cb := cb)])
  }

  ghost function Next(s: State, step: Step): State
    requires Enabled(s, step)
  {
    match step
    case Raw(o) =>
      var t := s.(raws := s.raws + [o]);
      if o == D.Error(D.EINTR) then t
      else if o == D.Error(D.EAGAIN) then t.(place := Arming)
      else t.(place := Done(D.Reply.Raw(o)))
    case Arm(id, cb, now) =>
      if s.timeout.None? then s.(place := Registering)
      else s.(place := Registering, h := H.Apply(s.h, H.NewOp(id, s.timeout.value, cb, false), now),
              rounds := s.rounds + [Round(id, now, Absent)])
    case Register(ok) =>
      if s.own.key in s.r.slots || !ok then s.(place := Refused)
      else
        s.(place := Waiting, own := s.own.(base := |s.r.posted|, mine := Some(s.r.added)),
           r := R.Apply(s.r, AddMine(s, true)))
    case WaitEnds => s.(place := Woken)
    case StopTimer =>
      var t := if s.timeout.None? then s else s.(h := H.Apply(s.h, H.CancelOp(s.rounds[|s.rounds| - 1].timer), 0));
      if s.place.Woken? then t.(place := Checking)
      else t.(place := Done(D.Reply.Refused), waits := s.waits + [D.Wait(true, s.cancelled)])
    case Check =>
      var t := s.(waits := s.waits + [D.Wait(false, s.cancelled)]);
      if s.cancelled then t.(place := Done(D.Fail(D.ETIMEDOUT))) else t.(place := Calling)
    case Lock(j) =>
      SetCallback(s, j, if (s.place.Done? && !Held(s.rounds)) || s.cancelled then Finished else Holding)
    case Mark(j) => SetCallback(s, j, Marked).(cancelled := true)
    case CancelEvent(j, ok) =>
      var clears := ok && s.own.key in s.r.slots;
      SetCallback(s, j, Finished).(
        r := R.Apply(s.r, R.CancelOp(s.own.key, ok)),
        cleared := if clears then s.cleared + [s.r.slots[s.own.key].serial] else s.cleared)
    case TimerStep(op, now) =>
      var g := H.Apply(s.h, op, now);
      s.(h := g, rounds := Told(s.rounds, g), rolled := s.rolled || !H.NoRollover(s.h, op))
    case RegistryStep(op) => s.(r := R.Apply(s.r, op))
  }

  // ---------------------------------------------------------------- the invariant

  /** The timer of the last round is set and has not been cancelled by this call yet. */
  predicate Armed(p: Place) { p.Registering? || p.Waiting? || p.Woken? || p.Refused? }

  predicate Current(s: State, j: nat) { Armed(s.place) && j + 1 == |s.rounds| }

  /** One round's timer, in the set or out of it. */
  ghost predicate RoundTie(s: State, j: nat)
    requires j < |s.rounds| && s.timeout.Some?
  {
    var id, recs := s.rounds[j].timer, s.h.timers.recs;
    && id in recs
    && !recs[id].recurring && recs[id].next == s.rounds[j].began + s.timeout.value * MS
    && (s.rounds[j].cb.Absent? <==> !H.Emitted(s.h, id))
    && (Current(s, j) && recs[id].cb.None? ==> !s.rounds[j].cb.Absent?)
    && (!Current(s, j) ==> recs[id].cb.None?)
  }

  ghost predicate EmissionsTold(s: State) {
    forall i, j | 0 <= i < |s.h.emitted| && 0 <= j < |s.rounds| && s.h.emitted[i].id == s.rounds[j].timer ::
      s.timeout.Some? && s.h.emitted[i].rec.next == s.rounds[j].began + s.timeout.value * MS
  }

  ghost predicate TimerTie(s: State) {
    && H.Sound(s.h) && (!s.rolled ==> H.Punctual(s.h))
    && (s.timeout.None? ==> s.rounds == [])
    && (s.timeout.Some? ==> forall j | 0 <= j < |s.rounds| :: RoundTie(s, j))
    && EmissionsTold(s)
    && (forall i, j | 0 <= i < j < |s.rounds| :: s.rounds[i].timer != s.rounds[j].timer)
  }

  /** The shared record. */
  predicate RecordTie(s: State) {
    && (s.cancelled ==> exists j :: 0 <= j < |s.rounds| && !s.rounds[j].cb.Absent?)
    && (forall j | 0 <= j < |s.rounds| && s.rounds[j].cb.Marked? :: s.cancelled)
    && (forall j | 0 <= j < |s.rounds| && s.rounds[j].cb.Finished? && !s.place.Done? :: s.cancelled)
  }

  predicate InRound(p: Place) { p.Arming? || p.Registering? || p.Waiting? || p.Woken? || p.Refused? || p.Checking? }

  /** The script of the call so far. */
  predicate ScriptTie(s: State) {
    && (s.timeout.Some? && !s.place.Done? ==>
          |s.rounds| == |s.waits| + if InRound(s.place) && !s.place.Arming? then 1 else 0)
    && (!s.place.Done? ==>
          && (forall q | 0 <= q < |s.raws| :: D.Transient(s.raws[q]))
          && D.Blocks(s.raws, |s.raws|) == |s.waits| + (if InRound(s.place) then 1 else 0)
          && (forall q | 0 <= q < |s.waits| :: !D.GivesUp(s.timeout.Some?, s.waits[q])))
    && (s.place.Done? ==> D.Meaning(s.timeout.Some?, s.raws, s.waits) == Some(s.place.reply))
  }

  /** The registration: while the fiber is suspended it is the round's, otherwise it has been posted. */
  ghost predicate RegistryTie(s: State) {
    && W.Tie(s.r, s.own)
    && (s.place.Waiting? || s.place.Woken? || s.place.Checking? ==> s.own.mine.Some?)
    && (s.own.mine.Some? && !s.place.Waiting? ==> W.Posted(s.r, s.own))
    && (forall n | n in s.cleared :: R.Posted(s.r, n))
  }

  ghost predicate Sound(s: State) { TimerTie(s) && RecordTie(s) && ScriptTie(s) && RegistryTie(s) }

  /** A call may start in any state of the timers and the registry. */
  lemma BeginSound(
    timeout: Option<nat>, fiber: nat, scheduler: nat, key: R.Key, h: H.History, r: R.Registry)
    requires H.Sound(h) && H.Punctual(h) && R.Inv(r)
    requires forall k | k in r.slots :: r.slots[k].body != FiberBody(fiber)
    ensures Sound(Begin(timeout, fiber, scheduler, key, h, r))
  {}

  // ---------------------------------------------------------------- the script

  lemma RawScript(s: State, o: D.Outcome)
    requires ScriptTie(s) && s.place.Calling?
    ensures ScriptTie(Next(s, Raw(o)))
  {
    var t := Next(s, Raw(o));
    D.BlocksPrefix(s.raws, o);
    assert forall q | 0 <= q < |s.raws| :: t.raws[q] == s.raws[q];
    if t.place.Done? {
      D.FinalMeaning(s.timeout.Some?, t.raws, t.waits, |s.raws|);
    }
  }

  /** A round ends: with the next raw call, or giving up. */
  lemma WaitScript(s: State, w: D.Wait, p: Place)
    requires ScriptTie(s) && (s.place.Checking? || s.place.Refused?)
    requires if D.GivesUp(s.timeout.Some?, w)
          then p == Done(if w.refused then D.Reply.Refused else D.Fail(D.ETIMEDOUT)) else p.Calling?
    ensures ScriptTie(s.(waits := s.waits + [w], place := p))
  {
    var t := s.(waits := s.waits + [w], place := p);
    assert forall q | 0 <= q < |s.waits| :: t.waits[q] == s.waits[q];
    if p.Done? {
      D.StoppedMeaning(s.timeout.Some?, t.raws, t.waits, |t.raws|, |s.waits|);
    }
  }

  lemma ScriptStep(s: State, step: Step)
    requires RecordTie(s) && ScriptTie(s) && TimerTie(s) && Enabled(s, step)
    ensures ScriptTie(Next(s, step))
  {
    hide TimerTie, H.Apply, H.Enabled, D.Meaning, D.Blocks;
    if step.Raw? {
      RawScript(s, step.outcome);
    } else if step.Check? {
      CancelledTimed(s);
      WaitScript(s, D.Wait(false, s.cancelled), Next(s, step).place);
    } else if step.StopTimer? && s.place.Refused? {
      WaitScript(s, D.Wait(true, s.cancelled), Next(s, step).place);
    }
  }

  lemma CancelledTimed(s: State)
    requires RecordTie(s) && TimerTie(s)
    ensures s.cancelled ==> s.timeout.Some?
  {
    hide RoundTie, EmissionsTold;
  }

  // ---------------------------------------------------------------- the timers

  lemma ArmTie(s: State, id: TimerId, cb: nat, now: int)
    requires TimerTie(s) && s.timeout.Some? && Enabled(s, Arm(id, cb, now))
    ensures TimerTie(Next(s, Arm(id, cb, now)))
  {
    hide H.Sound, H.Punctual, H.Enabled, H.Apply, H.Formed, H.Emitted;
    var op, t := H.NewOp(id, s.timeout.value, cb, false), Next(s, Arm(id, cb, now));
    H.FormedOf(s.h);
    H.ApplySound(s.h, op, now);
    if !s.rolled { H.ApplyPunctual(s.h, op, now); }
    H.NothingEmitted(s.h, op, now);
    H.EmittedKnown(s.h, id);
    H.NewRecord(s.h, id, s.timeout.value, cb, now);
    H.FreshKnown(s.h, op, now, id);
    assert forall j | 0 <= j < |s.rounds| :: t.rounds[j] == s.rounds[j] && RoundTie(s, j);
    forall j | 0 <= j < |t.rounds| ensures RoundTie(t, j) {
      if j < |s.rounds| { SameEmitted(s.h, t.h, s.rounds[j].timer); } else { SameEmitted(s.h, t.h, id); }
    }
    NotEmitted(s, t, id);
  }

  lemma SameEmitted(h: H.History, g: H.History, id: TimerId)
    requires g.emitted == h.emitted
    ensures H.Emitted(g, id) <==> H.Emitted(h, id)
  {}

  lemma NotEmitted(s: State, t: State, id: TimerId)
    requires EmissionsTold(s) && !H.Emitted(s.h, id) && t.h.emitted == s.h.emitted && t.timeout == s.timeout
    requires |t.rounds| == |s.rounds| + 1 && t.rounds[|s.rounds|].timer == id
    requires forall j | 0 <= j < |s.rounds| :: t.rounds[j] == s.rounds[j]
    ensures EmissionsTold(t)
  {}

  lemma StopTie(s: State)
    requires TimerTie(s) && s.timeout.Some? && Enabled(s, StopTimer)
    ensures TimerTie(Next(s, StopTimer))
  {
    hide H.Sound, H.Punctual, H.Enabled, H.Apply, H.Formed, H.Emitted;
    var last := |s.rounds| - 1;
    var id, t := s.rounds[last].timer, Next(s, StopTimer);
    var op := H.CancelOp(id);
    H.FormedOf(s.h);
    H.ApplySound(s.h, op, 0);
    if !s.rolled { H.ApplyPunctual(s.h, op, 0); }
    H.NothingEmitted(s.h, op, 0);
    H.CancelRecord(s.h, id);
    forall j | 0 <= j < |t.rounds| ensures RoundTie(t, j) {
      assert RoundTie(s, j);
      SameEmitted(s.h, t.h, s.rounds[j].timer);
      if j != last { H.OthersRecord(s.h, op, 0, s.rounds[j].timer); }
    }
  }

  lemma OthersTie(s: State, op: H.Op, now: int)
    requires TimerTie(s) && Enabled(s, TimerStep(op, now))
    ensures TimerTie(Next(s, TimerStep(op, now)))
  {
    hide H.Sound, H.Punctual, H.Enabled, H.Apply, H.Formed, H.Emits, H.Emitted, RoundTie, EmissionsTold;
    var t := Next(s, TimerStep(op, now));
    H.FormedOf(s.h);
    H.ApplySound(s.h, op, now);
    if !t.rolled { H.ApplyPunctual(s.h, op, now); }
    forall j | s.timeout.Some? && 0 <= j < |t.rounds| ensures RoundTie(t, j) {
      OthersRound(s, op, now, j);
    }
    OthersEmissions(s, op, now);
  }

  lemma OthersRound(s: State, op: H.Op, now: int, j: nat)
    requires H.Sound(s.h) && s.timeout.Some? && j < |s.rounds| && RoundTie(s, j) && Enabled(s, TimerStep(op, now))
    ensures RoundTie(Next(s, TimerStep(op, now)), j)
  {
    hide H.Sound, H.Enabled, H.Apply, H.Emits, H.Emitted;
    H.Untouched(s.h, op, now, s.rounds[j].timer);
    H.EmittedAfter(s.h, op, now, s.rounds[j].timer);
  }

  lemma OthersEmissions(s: State, op: H.Op, now: int)
    requires TimerTie(s) && Enabled(s, TimerStep(op, now))
    ensures EmissionsTold(Next(s, TimerStep(op, now)))
  {
    hide H.Sound, H.Punctual, H.Enabled, H.Apply, H.Emits, H.Emitted;
    var t := Next(s, TimerStep(op, now));
    forall i, j | 0 <= i < |t.h.emitted| && 0 <= j < |t.rounds| && t.h.emitted[i].id == t.rounds[j].timer
      ensures s.timeout.Some? && t.h.emitted[i].rec.next == t.rounds[j].began + s.timeout.value * MS
    {
      H.EmittedAfter(s.h, op, now, s.rounds[j].timer);
      assert RoundTie(s, j);
    }
  }

  /** Steps that leave the timers alone. */
  lemma SameTimers(s: State, t: State)
    requires TimerTie(s) && t.h == s.h && t.timeout == s.timeout && t.rolled == s.rolled && |t.rounds| == |s.rounds|
    requires forall j | 0 <= j < |s.rounds| ::
               t.rounds[j] == s.rounds[j].(cb := t.rounds[j].cb) && t.rounds[j].cb.Absent? == s.rounds[j].cb.Absent?
    requires s.timeout.Some? ==> Armed(t.place) == Armed(s.place)
    ensures TimerTie(t)
  {
    hide H.Sound, H.Punctual, H.Emitted;
    forall j | s.timeout.Some? && 0 <= j < |t.rounds| ensures RoundTie(t, j) {
      assert RoundTie(s, j);
    }
  }

  lemma RecordStep(s: State, step: Step)
    requires RecordTie(s) && Enabled(s, step)
    ensures RecordTie(Next(s, step))
  {
    hide H.Apply, H.Enabled;
    var t := Next(s, step);
    if s.cancelled {
      var j :| 0 <= j < |s.rounds| && !s.rounds[j].cb.Absent?;
      assert j < |t.rounds| && !t.rounds[j].cb.Absent?;
    } else if step.Mark? {
      assert t.rounds[step.j].cb.Marked?;
    }
  }

  // ---------------------------------------------------------------- the registry

  lemma RegistryKept(s: State, op: R.Op)
    requires RegistryTie(s) && R.Legal(s.r, op) && W.Foreign(s.own, op)
    ensures RegistryTie(s.(r := R.Apply(s.r, op)))
  {
    hide W.Tie, R.Apply, R.Posted;
    W.ForeignTie(s.r, s.own, op);
    W.PostedStays(s.r, op);
  }

  lemma RegisterTie(s: State, ok: bool)
    requires RegistryTie(s) && s.place.Registering?
    ensures RegistryTie(Next(s, Register(ok)))
  {
    hide W.Tie, R.Apply;
    if s.own.key !in s.r.slots && ok {
      W.RegisterTie(s.r, s.own);
      W.PostedStays(s.r, AddMine(s, true));
    }
  }

  lemma CancelTie(s: State, j: nat, ok: bool)
    requires RegistryTie(s) && Enabled(s, CancelEvent(j, ok))
    ensures RegistryTie(Next(s, CancelEvent(j, ok)))
  {
    hide W.Tie;
    RegistryKept(s, R.CancelOp(s.own.key, ok));
    var t := Next(s, CancelEvent(j, ok));
    if ok && s.own.key in s.r.slots {
      assert t.r.posted[|s.r.posted|].serial == s.r.slots[s.own.key].serial;
    }
  }

  lemma RegistryTieStep(s: State, step: Step)
    requires RegistryTie(s) && Enabled(s, step)
    ensures RegistryTie(Next(s, step))
  {
    hide W.Tie, W.Roused, W.Posted, H.Apply, H.Enabled, H.Spoils, R.Apply;
    if step.Register? {
      RegisterTie(s, step.ok);
    } else if step.CancelEvent? {
      CancelTie(s, step.j, step.ok);
    } else if step.RegistryStep? {
      RegistryKept(s, step.edit);
    } else if step.WaitEnds? {
      W.RousedByMine(s.r, s.own);
    }
  }

  lemma SoundStep(s: State, step: Step)
    requires Sound(s) && Enabled(s, step)
    ensures Sound(Next(s, step))
  {
    hide TimerTie, RecordTie, ScriptTie, RegistryTie, H.Apply, H.Enabled, R.Apply;
    RecordStep(s, step);
    ScriptStep(s, step);
    RegistryTieStep(s, step);
    if step.Arm? && s.timeout.Some? {
      ArmTie(s, step.id, step.cb, step.now);
    } else if step.StopTimer? && s.timeout.Some? {
      StopTie(s);
    } else if step.TimerStep? {
      OthersTie(s, step.op, step.now);
    } else {
      SameTimers(s, Next(s, step));
    }
  }

  // ---------------------------------------------------------------- every run

  ghost predicate LegalTrace(s: State, steps: seq<Step>)
    decreases |steps|
  {
    steps == [] || (Enabled(s, steps[0]) && LegalTrace(Next(s, steps[0]), steps[1..]))
  }

  ghost function RunAll(s: State, steps: seq<Step>): (t: State)
    requires LegalTrace(s, steps)
    decreases |steps|
  {
    if steps == [] then s else RunAll(Next(s, steps[0]), steps[1..])
  }

  lemma {:induction false} SoundRun(s: State, steps: seq<Step>)
    requires Sound(s) && LegalTrace(s, steps)
    ensures Sound(RunAll(s, steps))
    decreases |steps|
  {
    hide Sound, Next, Enabled;
    if steps != [] {
      SoundStep(s, steps[0]);
      SoundRun(Next(s, steps[0]), steps[1..]);
    }
  }

  /** A timer of the call has been emitted, no earlier than its own deadline by the reading of the emission. */
  ghost predicate SomeTimerDue(s: State) {
    s.timeout.Some? &&
    exists i, j :: 0 <= i < |s.h.emitted| && 0 <= j < |s.rounds| && s.h.emitted[i].id == s.rounds[j].timer
                && s.rounds[j].began + s.timeout.value * MS <= s.h.emitted[i].at
  }

  /**
   Over every run the reply is what Meaning makes of the raw outcomes and the waits, where a wait counts as
   timed out exactly when the shared record was marked as it was looked at; unless a clock reading was taken for
   a rollover a timeout is reported only if some timer of the call was due; a wait ends only when its own
   registration has been posted; and whenever the raw call is made, and at the return, no timer of the call
   has a callback left.
   */
  lemma CallMeaning(s: State, steps: seq<Step>)
    requires Sound(s) && LegalTrace(s, steps)
    ensures var t := RunAll(s, steps);
            && (t.place.Done? ==> D.Meaning(t.timeout.Some?, t.raws, t.waits) == Some(t.place.reply))
            && (t.cancelled && !t.rolled ==> SomeTimerDue(t))
            && (t.place.Woken? || t.place.Checking? ==> W.Posted(t.r, t.own))
            && (t.place.Calling? || t.place.Done? ==>
                  forall j | 0 <= j < |t.rounds| ::
                    t.rounds[j].timer in t.h.timers.recs && t.h.timers.recs[t.rounds[j].timer].cb.None?)
  {
    hide RunAll, LegalTrace, D.Meaning;
    SoundRun(s, steps);
    var t := RunAll(s, steps);
    if t.cancelled && !t.rolled { MarkedWasDue(t); }
    if t.place.Calling? || t.place.Done? { AllStopped(t); }
  }

  lemma MarkedWasDue(s: State)
    requires TimerTie(s) && RecordTie(s) && s.cancelled && !s.rolled
    ensures SomeTimerDue(s)
  {
    hide H.Sound;
    var j :| 0 <= j < |s.rounds| && !s.rounds[j].cb.Absent?;
    assert RoundTie(s, j);
    var i :| 0 <= i < |s.h.emitted| && s.h.emitted[i].id == s.rounds[j].timer;
    assert s.h.emitted[i].rec.next <= s.h.emitted[i].at;
  }

  lemma AllStopped(s: State)
    requires TimerTie(s) && !Armed(s.place)
    ensures forall j | 0 <= j < |s.rounds| ::
              s.rounds[j].timer in s.h.timers.recs && s.h.timers.recs[s.rounds[j].timer].cb.None?
  {
    hide H.Sound, H.Punctual, H.Emitted;
    forall j | 0 <= j < |s.rounds|
      ensures s.rounds[j].timer in s.h.timers.recs && s.h.timers.recs[s.rounds[j].timer].cb.None?
    {
      assert RoundTie(s, j);
    }
  }

  // ---------------------------------------------------------------- a late callback

  predicate InProgress(cb: Callback) { cb.Listed? || cb.Holding? || cb.Marked? }

  /** An earlier round's callback has struck, or is still under way. */
  predicate LateCallback(s: State, k: nat)
    requires k <= |s.rounds|
  {
    s.cancelled || exists j :: 0 <= j < k && InProgress(s.rounds[j].cb)
  }

  ghost predicate Reaches(s: State, t: State) {
    exists steps :: LegalTrace(s, steps) && RunAll(s, steps) == t
  }

  lemma Here(s: State)
    ensures Reaches(s, s)
  {
    assert LegalTrace(s, []) && RunAll(s, []) == s;
  }

  lemma Before(s: State, step: Step, u: State, t: State)
    requires Enabled(s, step) && u == Next(s, step) && Reaches(u, t)
    ensures Reaches(s, t)
  {
    hide Next, Enabled;
    var steps :| LegalTrace(u, steps) && RunAll(u, steps) == t;
    assert ([step] + steps)[1..] == steps;
    assert LegalTrace(s, [step] + steps) && RunAll(s, [step] + steps) == t;
  }

  /** The wait of round `k` is over and has been reported as timed out, although its own timer was not emitted. */
  predicate TimedOutEarly(s: State, t: State, k: nat) {
    && t.place == Done(D.Fail(D.ETIMEDOUT)) && |t.waits| == |s.waits| + 1
    && k < |t.rounds| && t.rounds[k].cb.Absent?
  }

  /** The registration of the wait has not been removed by a delEvent, which would leave the fiber for good. */
  predicate CanEnd(s: State) { s.own.mine.Some? && s.own.mine.value !in s.r.dropped }

  function Freeing(s: State): Step { RegistryStep(R.CancelOp(s.own.key, true)) }

  /** Another thread's cancelEvent empties the slot, and then the fiber has been posted. */
  lemma Freed(s: State)
    requires Sound(s) && s.place.Waiting? && CanEnd(s)
    ensures Enabled(s, Freeing(s))
    ensures var u := Next(s, Freeing(s));
            Sound(u) && W.Roused(u.r, u.own) && u.own.key !in u.r.slots && u == s.(r := u.r) && u.r.added == s.r.added
  {
    hide TimerTie, RecordTie, ScriptTie, W.Tie, W.Roused;
    var u := Next(s, Freeing(s));
    SoundStep(s, Freeing(s));
    W.MineOnce(s.r, s.own);
    W.MineOnce(u.r, u.own);
    NotDropped(s.r, s.own.key);
    PostedRoused(u.r, u.own);
  }

  lemma NotDropped(r: R.Registry, key: R.Key)
    ensures var t := R.Apply(r, R.CancelOp(key, true));
            key !in t.slots && t.dropped == r.dropped && t.added == r.added
  {}

  lemma PostedRoused(r: R.Registry, w: W.Wait)
    requires W.Tie(r, w) && W.Posted(r, w)
    ensures W.Roused(r, w)
  {}

  /** With the record marked the fiber only has to wake up. */
  lemma EndsEarly(s: State, k: nat)
    requires Sound(s) && s.timeout.Some? && s.place.Waiting? && s.cancelled && k + 1 == |s.rounds|
          && s.rounds[k].cb.Absent? && CanEnd(s)
    ensures exists t :: Reaches(s, t) && TimedOutEarly(s, t, k)
  {
    hide Reaches, H.Apply, H.Sound, H.Punctual, RecordTie, ScriptTie, RegistryTie, W.Roused, R.Apply;
    Freed(s);
    var s0 := Next(s, Freeing(s));
    assert RoundTie(s, k);
    H.FormedOf(s.h);
    var s1 := Next(s0, WaitEnds);
    assert Enabled(s1, StopTimer) by { H.KnownOf(s.h); }
    hide H.Enabled;
    var s2 := Next(s1, StopTimer);
    var s3 := Next(s2, Check);
    Here(s3);
    Before(s2, Check, s3, s3);
    Before(s1, StopTimer, s2, s3);
    Before(s0, WaitEnds, s1, s3);
    Before(s, Freeing(s), s0, s3);
  }

  lemma MarksEarly(s: State, k: nat, j: nat)
    requires Sound(s) && s.timeout.Some? && s.place.Waiting? && k + 1 == |s.rounds| && s.rounds[k].cb.Absent?
    requires j < k && s.rounds[j].cb.Holding? && CanEnd(s)
    ensures exists t :: Reaches(s, t) && TimedOutEarly(s, t, k)
  {
    hide Reaches, Sound, H.Apply;
    var u := Next(s, Mark(j));
    SoundStep(s, Mark(j));
    EndsEarly(u, k);
    var t :| Reaches(u, t) && TimedOutEarly(u, t, k);
    Before(s, Mark(j), u, t);
  }

  lemma LocksEarly(s: State, k: nat, j: nat)
    requires Sound(s) && s.timeout.Some? && s.place.Waiting? && k + 1 == |s.rounds| && s.rounds[k].cb.Absent?
    requires j < k && s.rounds[j].cb.Listed? && !s.cancelled && CanEnd(s)
    ensures exists t :: Reaches(s, t) && TimedOutEarly(s, t, k)
  {
    hide Reaches, Sound, H.Apply;
    var u := Next(s, Lock(j));
    SoundStep(s, Lock(j));
    MarksEarly(u, k, j);
    var t :| Reaches(u, t) && TimedOutEarly(u, t, k);
    Before(s, Lock(j), u, t);
  }

  /** Nothing can mark the record before the timer of round `k` is emitted, as long as wait number `w` lasts. */
  ghost predicate Calm(s: State, k: nat, w: nat) {
    && k < |s.rounds| && w <= |s.waits|
    && (s.rounds[k].cb.Absent? ==>
          if |s.waits| == w then
            (s.place.Waiting? || s.place.Woken? || s.place.Checking?) && k + 1 == |s.rounds| && !LateCallback(s, k)
          else |s.waits| == w + 1 ==> s.place != Done(D.Fail(D.ETIMEDOUT)))
  }

  lemma CalmStep(s: State, step: Step, k: nat, w: nat)
    requires Sound(s) && s.timeout.Some? && Calm(s, k, w) && Enabled(s, step)
    ensures Calm(Next(s, step), k, w) && Next(s, step).timeout == s.timeout
  {
    hide TimerTie, ScriptTie, RegistryTie, H.Apply, H.Enabled, H.Spoils, R.Apply;
    var t := Next(s, step);
    if step.TimerStep? && s.rounds[k].cb.Absent? && |s.waits| == w {
      forall j | 0 <= j < k ensures !InProgress(t.rounds[j].cb) {
        StaysAway(s, step.op, step.now, j);
      }
    }
  }

  /** A timer of an earlier round that was never emitted never will be. */
  lemma StaysAway(s: State, op: H.Op, now: int, j: nat)
    requires TimerTie(s) && s.timeout.Some? && j + 1 < |s.rounds| && Enabled(s, TimerStep(op, now))
    ensures s.rounds[j].cb.Absent? ==> !H.Emitted(H.Apply(s.h, op, now), s.rounds[j].timer)
  {
    hide H.Sound, H.Punctual, H.Enabled, H.Apply, H.Emits, H.Emitted, EmissionsTold;
    assert RoundTie(s, j);
    H.Untouched(s.h, op, now, s.rounds[j].timer);
    H.EmittedAfter(s.h, op, now, s.rounds[j].timer);
  }

  lemma {:induction false} CalmRun(s: State, steps: seq<Step>, k: nat, w: nat)
    requires Sound(s) && s.timeout.Some? && Calm(s, k, w) && LegalTrace(s, steps)
    ensures Calm(RunAll(s, steps), k, w)
    decreases |steps|
  {
    hide Sound, Calm, Next, Enabled;
    if steps != [] {
      SoundStep(s, steps[0]);
      CalmStep(s, steps[0], k, w);
      CalmRun(Next(s, steps[0]), steps[1..], k, w);
    }
  }

  /** A wait whose registration has been dropped never ends. */
  ghost predicate Stuck(s: State) { s.place.Waiting? && s.own.mine.Some? && s.own.mine.value in s.r.dropped }

  lemma StuckStep(s: State, step: Step)
    requires Sound(s) && Stuck(s) && Enabled(s, step)
    ensures Stuck(Next(s, step))
  {
    hide TimerTie, RecordTie, ScriptTie, W.Tie, W.Roused, H.Apply, H.Enabled, H.Spoils, R.Apply;
    if step.WaitEnds? {
      W.RousedByMine(s.r, s.own);
      W.MineOnce(s.r, s.own);
      assert false;
    } else if step.RegistryStep? {
      DroppedStays(s.r, step.edit);
    } else if step.CancelEvent? {
      DroppedStays(s.r, R.CancelOp(s.own.key, step.ok));
    }
  }

  lemma DroppedStays(r: R.Registry, op: R.Op)
    requires R.Legal(r, op)
    ensures r.dropped <= R.Apply(r, op).dropped
  {}

  lemma {:induction false} StuckRun(s: State, steps: seq<Step>)
    requires Sound(s) && Stuck(s) && LegalTrace(s, steps)
    ensures Stuck(RunAll(s, steps))
    decreases |steps|
  {
    hide Sound, Stuck, Next, Enabled;
    if steps != [] {
      SoundStep(s, steps[0]);
      StuckStep(s, steps[0]);
      StuckRun(Next(s, steps[0]), steps[1..]);
    }
  }

  /**
   A wait can be reported as timed out before its own timer is emitted exactly when the callback of an
   earlier round has struck after that round was over, or is still under way, and the registration has not
   been dropped: the record is shared.
   */
  lemma LateTimeoutIff(s: State, k: nat)
    requires Sound(s) && s.timeout.Some? && s.place.Waiting? && k + 1 == |s.rounds| && s.rounds[k].cb.Absent?
    ensures (exists t :: Reaches(s, t) && TimedOutEarly(s, t, k)) <==> LateCallback(s, k) && CanEnd(s)
  {
    hide Sound, Reaches, TimedOutEarly;
    if !CanEnd(s) {
      forall t | Reaches(s, t) ensures !TimedOutEarly(s, t, k) {
        NeverEnds(s, t, k);
      }
    } else if s.cancelled {
      EndsEarly(s, k);
    } else if LateCallback(s, k) {
      var j :| 0 <= j < k && InProgress(s.rounds[j].cb);
      MarkedIsCancelled(s, j);
      if s.rounds[j].cb.Listed? { LocksEarly(s, k, j); } else { MarksEarly(s, k, j); }
    } else {
      forall t | Reaches(s, t) ensures !TimedOutEarly(s, t, k) {
        NotEarly(s, t, k);
      }
    }
  }

  lemma NeverEnds(s: State, t: State, k: nat)
    requires Sound(s) && s.place.Waiting? && !CanEnd(s) && Reaches(s, t)
    ensures !TimedOutEarly(s, t, k)
  {
    hide TimerTie, RecordTie, ScriptTie, Next, Enabled, RunAll, LegalTrace;
    var steps :| LegalTrace(s, steps) && RunAll(s, steps) == t;
    StuckRun(s, steps);
  }

  /**
   From every wait whose timer has just been taken out, and whose registration has not been dropped: the
   event comes first, and the next wait has the callback upon it.
   */
  lemma LateCallbackReached(s: State, k: nat, id: TimerId, now: int)
    requires Sound(s) && s.timeout.Some? && s.place.Waiting? && k + 1 == |s.rounds| && s.rounds[k].cb.Listed?
          && !s.cancelled && CanEnd(s)
    requires id !in s.h.timers.recs
    ensures exists t ::
          Reaches(s, t) && t.place.Waiting? && k + 2 == |t.rounds| && t.rounds[k + 1].cb.Absent?
          && LateCallback(t, k + 1) && CanEnd(t)
  {
    hide Reaches, H.Apply, H.Sound, H.Punctual, RecordTie, ScriptTie, W.Roused, W.Tie;
    Freed(s);
    var s0 := Next(s, Freeing(s));
    EventEnds(s0, k, id);
    var s1 := Next(s0, WaitEnds);
    var s2 := Next(s1, StopTimer);
    NextRound(s2, k, id, now);
    var t :| Reaches(s2, t) && t.place.Waiting? && k + 2 == |t.rounds| && t.rounds[k + 1].cb.Absent?
          && LateCallback(t, k + 1) && CanEnd(t);
    Before(s1, StopTimer, s2, t);
    Before(s0, WaitEnds, s1, t);
    Before(s, Freeing(s), s0, t);
  }

  /** The fiber goes on and cancels its timer. */
  lemma EventEnds(s: State, k: nat, id: TimerId)
    requires Sound(s) && s.timeout.Some? && s.place.Waiting? && k + 1 == |s.rounds| && id !in s.h.timers.recs
          && W.Roused(s.r, s.own)
    ensures Enabled(s, WaitEnds) && Enabled(Next(s, WaitEnds), StopTimer)
    ensures var u := Next(Next(s, WaitEnds), StopTimer);
            Sound(u) && u == s.(place := Checking, h := u.h) && id !in u.h.timers.recs
  {
    hide H.Apply, H.Sound, H.Punctual, RecordTie, ScriptTie, W.Roused, W.Tie;
    assert RoundTie(s, k);
    H.FormedOf(s.h);
    var s1 := Next(s, WaitEnds);
    assert Enabled(s1, StopTimer) by { H.KnownOf(s.h); }
    H.StaysUnknown(s.h, H.CancelOp(s.rounds[k].timer), 0, id);
    hide TimerTie;
    SoundStep(s, WaitEnds);
    SoundStep(s1, StopTimer);
  }

  /** It finds the record unmarked, the raw call fails with EAGAIN again, and a new round begins. */
  lemma NextRound(s: State, k: nat, id: TimerId, now: int)
    requires Sound(s) && s.timeout.Some? && s.place.Checking? && k + 1 == |s.rounds| && s.rounds[k].cb.Listed?
          && !s.cancelled && id !in s.h.timers.recs && s.own.key !in s.r.slots
    ensures exists t ::
          Reaches(s, t) && t.place.Waiting? && k + 2 == |t.rounds| && t.rounds[k + 1].cb.Absent?
          && LateCallback(t, k + 1) && CanEnd(t)
  {
    hide Reaches, H.Apply, H.Sound, H.Punctual, RecordTie, ScriptTie, W.Tie;
    H.FormedOf(s.h);
    NewIsNotDropped(s);
    hide RegistryTie;
    var s3 := Next(s, Check);
    var s4 := Next(s3, Raw(D.Error(D.EAGAIN)));
    assert Enabled(s4, Arm(id, 0, now)) by { H.KnownOf(s.h); }
    hide H.Enabled;
    var s5 := Next(s4, Arm(id, 0, now));
    var s6 := Next(s5, Register(true));
    assert InProgress(s6.rounds[k].cb);
    Here(s6);
    Before(s5, Register(true), s6, s6);
    Before(s4, Arm(id, 0, now), s5, s6);
    Before(s3, Raw(D.Error(D.EAGAIN)), s4, s6);
    Before(s, Check, s3, s6);
  }

  lemma NewIsNotDropped(s: State)
    requires RegistryTie(s)
    ensures s.r.added !in s.r.dropped
  {}

  lemma MarkedIsCancelled(s: State, j: nat)
    requires Sound(s) && j < |s.rounds|
    ensures s.rounds[j].cb.Marked? ==> s.cancelled
  {
    hide TimerTie, ScriptTie;
  }

  lemma NotEarly(s: State, t: State, k: nat)
    requires Sound(s) && s.timeout.Some? && s.place.Waiting? && k + 1 == |s.rounds| && !LateCallback(s, k)
          && Reaches(s, t)
    ensures !TimedOutEarly(s, t, k)
  {
    hide Sound, Next, Enabled, RunAll, LegalTrace;
    var steps :| LegalTrace(s, steps) && RunAll(s, steps) == t;
    CalmRun(s, steps, k, |s.waits|);
  }

  // ---------------------------------------------------------------- after the return

  /** A lock succeeds exactly while no timeout has struck and the call, or some callback, holds the record. */
  lemma LockIff(s: State, j: nat)
    requires Enabled(s, Lock(j))
    ensures Next(s, Lock(j)).rounds[j].cb.Holding? <==>
            !s.cancelled
            && (!s.place.Done?
                || exists k :: 0 <= k < |s.rounds| && (s.rounds[k].cb.Holding? || s.rounds[k].cb.Marked?))
  {
    hide H.Apply, R.Apply;
    if Held(s.rounds) {
      var k :| 0 <= k < |s.rounds| && Holds(s.rounds[k].cb);
    }
    if k :| 0 <= k < |s.rounds| && (s.rounds[k].cb.Holding? || s.rounds[k].cb.Marked?) {
      assert Holds(s.rounds[k].cb);
    }
  }

  /** A callback posts a registration that was made after the call had returned. */
  ghost predicate ClearsLater(s: State, t: State) {
    exists n :: n in t.cleared && s.r.added <= n
  }

  /**
   After the return some callback can cancel a later wait on the descriptor exactly when one of them holds
   the record: with no owner left every lock fails.
   */
  lemma LaterWaitCancelledIff(s: State)
    requires Sound(s) && s.place.Done?
    ensures (exists t :: Reaches(s, t) && ClearsLater(s, t)) <==> Held(s.rounds)
  {
    hide Sound, Reaches, ClearsLater;
    if Held(s.rounds) {
      var j :| 0 <= j < |s.rounds| && Holds(s.rounds[j].cb);
      if s.rounds[j].cb.Holding? {
        var u := Next(s, Mark(j));
        CancelsLater(u, j);
        var t :| Reaches(u, t) && ClearsLater(u, t);
        Before(s, Mark(j), u, t);
        SameAdded(s, u, t);
      } else {
        CancelsLater(s, j);
      }
    } else {
      forall t | Reaches(s, t) ensures !ClearsLater(s, t) {
        NeverLater(s, t);
      }
    }
  }

  lemma SameAdded(s: State, u: State, t: State)
    requires s.r.added <= u.r.added && ClearsLater(u, t)
    ensures ClearsLater(s, t)
  {}

  lemma CancelsLater(s: State, j: nat)
    requires j < |s.rounds| && s.rounds[j].cb.Marked?
    ensures exists t :: Reaches(s, t) && ClearsLater(s, t)
  {
    hide Reaches;
    var u := Next(s, Freeing(s));
    NotDropped(s.r, s.own.key);
    CancelsNext(u, j);
    var t :| Reaches(u, t) && ClearsLater(u, t);
    Before(s, Freeing(s), u, t);
    SameAdded(s, u, t);
  }

  lemma CancelsNext(s: State, j: nat)
    requires j < |s.rounds| && s.rounds[j].cb.Marked? && s.own.key !in s.r.slots
    ensures exists t :: Reaches(s, t) && ClearsLater(s, t)
  {
    hide Reaches;
    var step := RegistryStep(R.AddOp(s.own.key, 0, CbBody(0), true));
    var u := Next(s, step);
    var t := Next(u, CancelEvent(j, true));
    assert u.r.slots[s.own.key].serial == s.r.added;
    assert t.cleared[|s.cleared|] == s.r.added;
    assert s.r.added in t.cleared;
    Here(t);
    Before(u, CancelEvent(j, true), t, t);
    Before(s, step, u, t);
  }

  /** The record is gone, and with it everything the callbacks could do. */
  lemma LateStep(s: State, step: Step)
    requires s.place.Done? && !Held(s.rounds) && Enabled(s, step)
    ensures var t := Next(s, step);
            t.cancelled == s.cancelled && t.place == s.place && t.cleared == s.cleared && !Held(t.rounds)
  {
    hide H.Apply, H.Enabled, H.Spoils, R.Apply;
  }

  /** Callbacks that do not hold the record when the call returns never do anything. */
  lemma {:induction false} LateCallbacksDoNothing(s: State, steps: seq<Step>)
    requires s.place.Done? && !Held(s.rounds) && LegalTrace(s, steps)
    ensures var t := RunAll(s, steps);
            t.cancelled == s.cancelled && t.place == s.place && t.cleared == s.cleared
    decreases |steps|
  {
    hide Next, Enabled, Held;
    if steps != [] {
      LateStep(s, steps[0]);
      LateCallbacksDoNothing(Next(s, steps[0]), steps[1..]);
    }
  }

  lemma NeverLater(s: State, t: State)
    requires Sound(s) && s.place.Done? && !Held(s.rounds) && Reaches(s, t)
    ensures !ClearsLater(s, t)
  {
    hide TimerTie, RecordTie, ScriptTie, Next, Enabled, RunAll, LegalTrace, Held;
    var steps :| LegalTrace(s, steps) && RunAll(s, steps) == t;
    LateCallbacksDoNothing(s, steps);
    PostedBelow(s.r);
  }

  lemma PostedBelow(r: R.Registry)
    requires R.Inv(r)
    ensures forall n: nat | R.Posted(r, n) :: n < r.added
  {}
}
