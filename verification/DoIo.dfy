/**
 The hooked blocking calls of code/hook.cpp (do_io). What the kernel and the other threads do is a
 script: the outcomes of the raw calls in order, and one entry for every wait. A script that ends before
 the call returns leaves the caller still at it.
 */
module DoIo {
  import opened Prelude

  const EINTR: nat := 4
  const EBADF: nat := 9
  const EAGAIN: nat := 11
  const ETIMEDOUT: nat := 110

  datatype Outcome = Value(n: int) | Error(errno: nat)

  /** One wait: whether addEvent is refused, and whether a timer callback has set `cancelled` when the wait is over. */
  datatype Wait = Wait(refused: bool, fired: bool)

  /** What the caller gets; after a refused addEvent errno is whatever that left behind. */
  datatype Reply = Raw(outcome: Outcome) | Fail(errno: nat) | Refused

  /** What FdManager knows of a descriptor; no timeout is the all-ones value. */
  datatype FdState = FdState(closed: bool, socket: bool, userNonblock: bool, timeout: Option<nat>)

  /** The visible acts of a call; timers are numbered by round. */
  datatype Act = Call | Arm(timer: nat) | Register(ok: bool) | Yield | Disarm(timer: nat)

  // ---------------------------------------------------------------- what the call means

  predicate Transient(o: Outcome) {
    o == Error(EINTR) || o == Error(EAGAIN)
  }

  /** The first outcome a blocking call would have reported. */
  function FirstFinal(raws: seq<Outcome>): (p: nat)
    ensures p <= |raws|
    ensures forall i | 0 <= i < p :: Transient(raws[i])
    ensures p < |raws| ==> !Transient(raws[p])
  {
    if raws == [] || !Transient(raws[0]) then 0 else 1 + FirstFinal(raws[1..])
  }

  /** A wait after which the call gives up. */
  predicate GivesUp(timed: bool, w: Wait) {
    w.refused || (timed && w.fired)
  }

  function FirstGivingUp(timed: bool, waits: seq<Wait>): (p: nat)
    ensures p <= |waits|
    ensures forall i | 0 <= i < p :: !GivesUp(timed, waits[i])
    ensures p < |waits| ==> GivesUp(timed, waits[p])
  {
    if waits == [] || GivesUp(timed, waits[0]) then 0 else 1 + FirstGivingUp(timed, waits[1..])
  }

  /** The waits begun by the time `n` raw calls have been made. */
  function Blocks(raws: seq<Outcome>, n: nat): (k: nat)
    requires n <= |raws|
  {
    if n == 0 then 0 else Blocks(raws, n - 1) + if raws[n - 1] == Error(EAGAIN) then 1 else 0
  }

  /** The first final outcome, unless a wait before it gives up; None while the script leaves it open. */
  function Meaning(timed: bool, raws: seq<Outcome>, waits: seq<Wait>): Option<Reply> {
    var first, stop := FirstFinal(raws), FirstGivingUp(timed, waits);
    if stop < Blocks(raws, first) then
      if stop == |waits| then None else Some(if waits[stop].refused then Refused else Fail(ETIMEDOUT))
    else if first < |raws| then Some(Raw(raws[first])) else None
  }

  lemma {:induction false} BlocksMonotone(raws: seq<Outcome>, m: nat, n: nat)
    requires m <= n <= |raws|
    ensures Blocks(raws, m) <= Blocks(raws, n)
  {
    if m < n {
      BlocksMonotone(raws, m, n - 1);
    }
  }

  /** One more raw call, and the wait it may begin. */
  lemma BlocksPrefix(raws: seq<Outcome>, o: Outcome)
    ensures Blocks(raws + [o], |raws|) == Blocks(raws, |raws|)
    ensures Blocks(raws + [o], |raws| + 1) == Blocks(raws, |raws|) + if o == Error(EAGAIN) then 1 else 0
  {
    BlocksSame(raws, raws + [o], |raws|);
  }

  lemma {:induction false} BlocksSame(raws: seq<Outcome>, more: seq<Outcome>, n: nat)
    requires n <= |raws| <= |more| && raws == more[..|raws|]
    ensures Blocks(more, n) == Blocks(raws, n)
  {
    if n > 0 {
      BlocksSame(raws, more, n - 1);
      assert more[n - 1] == more[..|raws|][n - 1];
    }
  }

  lemma {:induction false} FirstFinalUnique(raws: seq<Outcome>, p: nat)
    requires p <= |raws| && (forall i | 0 <= i < p :: Transient(raws[i])) && (p < |raws| ==> !Transient(raws[p]))
    ensures p == FirstFinal(raws)
  {
    if p > 0 {
      FirstFinalUnique(raws[1..], p - 1);
    }
  }

  lemma {:induction false} FirstGivingUpUnique(timed: bool, waits: seq<Wait>, p: nat)
    requires p <= |waits| && (forall i | 0 <= i < p :: !GivesUp(timed, waits[i]))
          && (p < |waits| ==> GivesUp(timed, waits[p]))
    ensures p == FirstGivingUp(timed, waits)
  {
    if p > 0 {
      FirstGivingUpUnique(timed, waits[1..], p - 1);
    }
  }

  /** The call reports the first outcome that is neither EINTR nor EAGAIN exactly when no wait before it gives up. */
  lemma LikeBlockingCall(timed: bool, raws: seq<Outcome>, waits: seq<Wait>, m: nat)
    requires m < |raws| && raws[m] != Error(4) && raws[m] != Error(11)
    requires forall i | 0 <= i < m :: raws[i] == Error(4) || raws[i] == Error(11)
    ensures Meaning(timed, raws, waits) == Some(Raw(raws[m])) <==>
            && Blocks(raws, m) <= |waits|
            && forall k | 0 <= k < Blocks(raws, m) :: !waits[k].refused && !(timed && waits[k].fired)
  {
    FirstFinalUnique(raws, m);
  }

  // ---------------------------------------------------------------- the call, outcome by outcome

  /**
   What the call does with a script, one outcome after the other: reply and visible acts. EINTR (4) repeats the
   raw call; EAGAIN (11) waits, numbered from `k`, unless addEvent is refused, and then repeats it, unless the
   wait has timed out (110); anything else is the reply.
   */
  function Play(timed: bool, raws: seq<Outcome>, waits: seq<Wait>, k: nat): (r: (Option<Reply>, seq<Act>))
    decreases |raws|
  {
    if raws == [] then (None, [])
    else if raws[0] == Error(4) then After([Call], Play(timed, raws[1..], waits, k))
    else if raws[0] != Error(11) then (Some(Raw(raws[0])), [Call])
    else
      var arm, disarm := if timed then [Arm(k)] else [], if timed then [Disarm(k)] else [];
      if waits == [] then (None, [Call] + arm + [Register(true), Yield])
      else if waits[0].refused then (Some(Refused), [Call] + arm + [Register(false)] + disarm)
      else
        var acts := [Call] + arm + [Register(true), Yield] + disarm;
        if timed && waits[0].fired then (Some(Fail(110)), acts)
        else After(acts, Play(timed, raws[1..], waits[1..], k + 1))
  }

  function After(acts: seq<Act>, r: (Option<Reply>, seq<Act>)): (Option<Reply>, seq<Act>) {
    (r.0, acts + r.1)
  }

  /** The reply told outcome by outcome is the one told by the first final outcome and the first wait that gives up. */
  lemma {:induction false} PlayMeaning(timed: bool, raws: seq<Outcome>, waits: seq<Wait>, k: nat)
    ensures Play(timed, raws, waits, k).0 == Meaning(timed, raws, waits)
    decreases |raws|
  {
    if raws != [] && Transient(raws[0]) {
      var rest := raws[1..];
      assert raws == [raws[0]] + rest;
      BlocksShift(raws, 1 + FirstFinal(rest));
      if raws[0] == Error(EINTR) {
        PlayMeaning(timed, rest, waits, k);
      } else if waits != [] && !GivesUp(timed, waits[0]) {
        PlayMeaning(timed, rest, waits[1..], k + 1);
      }
    }
  }

  /** The waits begun, counted from the front. */
  lemma {:induction false} BlocksShift(raws: seq<Outcome>, n: nat)
    requires 0 < n <= |raws|
    ensures Blocks(raws, n) == (if raws[0] == Error(EAGAIN) then 1 else 0) + Blocks(raws[1..], n - 1)
  {
    if n > 1 {
      BlocksShift(raws, n - 1);
    }
  }

  /** The fiber yields only when addEvent has just succeeded, and with a timeout only under a timer of its own. */
  predicate Guarded(timed: bool, log: seq<Act>) {
    forall j | 0 <= j < |log| && log[j].Yield? ::
      j > 1 && log[j - 1] == Register(true) && (timed ==> j > 2 && log[j - 2].Arm?)
  }

  lemma {:induction false} PlayGuards(timed: bool, raws: seq<Outcome>, waits: seq<Wait>, k: nat)
    ensures Guarded(timed, Play(timed, raws, waits, k).1)
    decreases |raws|
  {
    if raws != [] {
      if raws[0] == Error(4) {
        PlayGuards(timed, raws[1..], waits, k);
      } else if raws[0] == Error(11) && waits != [] {
        PlayGuards(timed, raws[1..], waits[1..], k + 1);
      }
    }
  }

  // ---------------------------------------------------------------- timers of a call

  /** Every timer armed in the first `n` acts has been cancelled by then. */
  predicate Disarmed(log: seq<Act>, n: nat)
    requires n <= |log|
  {
    forall i | 0 <= i < n && log[i].Arm? :: Disarm(log[i].timer) in log[i..n]
  }

  /** No raw call is made while a timer of the call is armed. */
  predicate Tidy(log: seq<Act>) {
    forall j | 0 <= j < |log| && log[j].Call? :: Disarmed(log, j)
  }

  lemma DisarmedPrefix(log: seq<Act>, more: seq<Act>, n: nat)
    requires n <= |log|
    ensures Disarmed(log + more, n) <==> Disarmed(log, n)
  {
    assert forall i | 0 <= i < n :: (log + more)[i] == log[i] && (log + more)[i..n] == log[i..n];
  }

  /** More acts with no raw call among them. */
  lemma TidyMore(log: seq<Act>, more: seq<Act>)
    requires Tidy(log) && forall j | 0 <= j < |more| :: !more[j].Call?
    ensures Tidy(log + more)
  {
    forall j | 0 <= j < |log + more| && (log + more)[j].Call? ensures Disarmed(log + more, j) {
      assert j < |log|;
      DisarmedPrefix(log, more, j);
    }
  }

  lemma TidyCall(log: seq<Act>)
    requires Tidy(log) && Disarmed(log, |log|)
    ensures Tidy(log + [Call]) && Disarmed(log + [Call], |log| + 1)
  {
    var more := log + [Call];
    forall j | 0 <= j < |more| && more[j].Call? ensures Disarmed(more, j) {
      DisarmedPrefix(log, [Call], j);
    }
    DisarmedMore(log, [Call]);
  }

  /** Acts that leave no timer armed. */
  lemma DisarmedMore(log: seq<Act>, more: seq<Act>)
    requires Disarmed(log, |log|) && Disarmed(more, |more|)
    ensures Disarmed(log + more, |log + more|)
  {
    var all := log + more;
    forall i | 0 <= i < |all| && all[i].Arm? ensures Disarm(all[i].timer) in all[i..|all|] {
      if i < |log| {
        assert all[i..|all|] == log[i..|log|] + more;
      } else {
        assert all[i..|all|] == more[i - |log|..|more|];
      }
    }
  }

  /** The acts of one wait: a timer if there is a timeout, the registration, the yield, the timer's cancel. */
  function Round(timed: bool, k: nat, ok: bool): (acts: seq<Act>) {
    (if timed then [Arm(k)] else []) + (if ok then [Register(true), Yield] else [Register(false)]) +
        (if timed then [Disarm(k)] else [])
  }

  /** The acts of a wait that has not ended. */
  function Left(timed: bool, k: nat): seq<Act> {
    (if timed then [Arm(k)] else []) + [Register(true), Yield]
  }

  lemma LeftTidy(log: seq<Act>, timed: bool, k: nat)
    requires Tidy(log)
    ensures Tidy(log + Left(timed, k))
  {
    TidyMore(log, Left(timed, k));
  }

  lemma RoundTidy(log: seq<Act>, timed: bool, k: nat, ok: bool)
    requires Tidy(log) && Disarmed(log, |log|)
    ensures var all := log + Round(timed, k, ok); Tidy(all) && Disarmed(all, |all|)
  {
    var acts := Round(timed, k, ok);
    assert forall i | 0 <= i < |acts| && acts[i].Arm? :: i == 0 && acts[i..|acts|][|acts| - 1] == Disarm(k);
    TidyMore(log, acts);
    DisarmedMore(log, acts);
  }

  // ---------------------------------------------------------------- the call

  /** Descriptors whose calls go to the raw function unchanged. */
  predicate PassedThrough(enabled: bool, ctx: Option<FdState>) {
    !enabled || ctx.None? || (!ctx.value.closed && (ctx.value.socket || ctx.value.userNonblock))
  }

  lemma FinalMeaning(timed: bool, raws: seq<Outcome>, waits: seq<Wait>, m: nat)
    requires m < |raws| && !Transient(raws[m]) && forall j | 0 <= j < m :: Transient(raws[j])
    requires Blocks(raws, m) <= |waits| && forall q | 0 <= q < Blocks(raws, m) :: !GivesUp(timed, waits[q])
    ensures Meaning(timed, raws, waits) == Some(Raw(raws[m]))
  {
    LikeBlockingCall(timed, raws, waits, m);
  }

  /** The call gives up at wait `k`, or is left there when the script ends. */
  lemma StoppedMeaning(timed: bool, raws: seq<Outcome>, waits: seq<Wait>, i: nat, k: nat)
    requires i <= |raws| && (forall j | 0 <= j < i :: Transient(raws[j])) && k < Blocks(raws, i)
    requires k <= |waits| && (forall q | 0 <= q < k :: !GivesUp(timed, waits[q]))
          && (k < |waits| ==> GivesUp(timed, waits[k]))
    ensures Meaning(timed, raws, waits) == if k == |waits| then None
          else Some(if waits[k].refused then Refused else Fail(ETIMEDOUT))
  {
    FirstGivingUpUnique(timed, waits, k);
    BlocksMonotone(raws, i, FirstFinal(raws));
  }

  /** One round: set the timer, register, yield, cancel the timer, look at the record. */
  method Await(timed: bool, k: nat, wait: Option<Wait>)
    returns (acts: seq<Act>, ended: bool, refused: bool, cancelled: bool)
    ensures ended == wait.Some?
    ensures acts == if ended then Round(timed, k, !wait.value.refused) else Left(timed, k)
    ensures ended ==> refused == wait.value.refused && cancelled == (!refused && timed && wait.value.fired)
  {
    refused, cancelled := false, false;
    acts := if timed then [Arm(k)] else [];
    if wait.None? { return acts + [Register(true), Yield], false, false, false; }
    if wait.value.refused {
      acts := acts + [Register(false)];
      if timed { acts := acts + [Disarm(k)]; }
      return acts, true, true, false;
    }
    acts := acts + [Register(true), Yield];
    cancelled := timed && wait.value.fired;
    if timed { acts := acts + [Disarm(k)]; }
    return acts, true, false, cancelled;
  }

  /** From the label `retry` on. */
  method Retry(timed: bool, raws: seq<Outcome>, waits: seq<Wait>) returns (reply: Option<Reply>, log: seq<Act>)
    ensures reply == Meaning(timed, raws, waits)
    ensures (reply, log) == Play(timed, raws, waits, 0)
    ensures Tidy(log) && (reply.Some? ==> Disarmed(log, |log|))
  {
    hide Meaning, Tidy, Disarmed, Play, Round, Left;
    ghost var all := Play(timed, raws, waits, 0);
    var i, k := 0, 0;
    log := [];
    EmptyTidy();
    PlayMeaning(timed, raws, waits, 0);
    assert raws[0..] == raws && waits[0..] == waits;
    assert [] + all.1 == all.1;
    while i < |raws|
      invariant 0 <= i <= |raws| && 0 <= k <= |waits|
      invariant After(log, Play(timed, raws[i..], waits[k..], k)) == all
      invariant Tidy(log) && Disarmed(log, |log|)
      decreases |raws| - i
    {
      ghost var start, made := i, log;
      TidyCall(log);
      var n := raws[i];
      i, log := i + 1, log + [Call];
      while n == Error(EINTR) && i < |raws|
        invariant start < i <= |raws| && n == raws[i - 1]
        invariant log == made + [Call] && After(made, Play(timed, raws[i - 1..], waits[k..], k)) == all
        invariant Tidy(log) && Disarmed(log, |log|)
      {
        TidyCall(log);
        PlayOn(made, timed, raws[i - 1..], waits[k..], k);
        assert raws[i - 1..][1..] == raws[i..];
        made := log;
        n := raws[i];
        i, log := i + 1, log + [Call];
      }
      PlayOn(made, timed, raws[i - 1..], waits[k..], k);
      assert raws[i - 1..][1..] == raws[i..];
      if n == Error(EINTR) { break; }
      if n != Error(EAGAIN) {
        return Some(Raw(n)), log;
      }
      var acts, ended, refused, cancelled := Await(timed, k, if k < |waits| then Some(waits[k]) else None);
      if !ended {  // still waiting when the script ends
        assert waits[k..] == [];
        LeftTidy(log, timed, k);
        return None, log + acts;
      }
      assert waits[k..][0] == waits[k];
      RoundTidy(log, timed, k, !refused);
      log := log + acts;
      if refused { return Some(Refused), log; }
      if cancelled { return Some(Fail(ETIMEDOUT)), log; }
      assert waits[k..][1..] == waits[k + 1..];
      k := k + 1;
    }
    assert raws[i..] == [];
    PlayEnds(timed, waits[k..], k);
    assert log + [] == log;
    return None, log;
  }

  /** What one raw call and its outcome come to, after the acts made so far. */
  lemma PlayOn(made: seq<Act>, timed: bool, raws: seq<Outcome>, waits: seq<Wait>, k: nat)
    requires raws != []
    ensures var done := After(made, Play(timed, raws, waits, k));
            var called := made + [Call];
            if raws[0] == Error(EINTR) then done == After(called, Play(timed, raws[1..], waits, k))
            else if raws[0] != Error(EAGAIN) then done == (Some(Raw(raws[0])), called)
            else if waits == [] then done == (None, called + Left(timed, k))
            else if waits[0].refused then done == (Some(Refused), called + Round(timed, k, false))
            else if timed && waits[0].fired then done == (Some(Fail(ETIMEDOUT)), called + Round(timed, k, true))
            else done == After(called + Round(timed, k, true), Play(timed, raws[1..], waits[1..], k + 1))
  {
    if raws[0] == Error(EINTR) {
      Joined(made, [Call], Play(timed, raws[1..], waits, k).1);
    } else if raws[0] == Error(EAGAIN) {
      RoundActs(timed, k);
      if waits == [] {
        Joined([Call], if timed then [Arm(k)] else [], [Register(true), Yield]);
        Joined(made, [Call], Left(timed, k));
      } else {
        Joined(made, [Call], Round(timed, k, !waits[0].refused));
        if !GivesUp(timed, waits[0]) {
          Joined(made, [Call] + Round(timed, k, true), Play(timed, raws[1..], waits[1..], k + 1).1);
        }
      }
    }
  }

  lemma Joined(a: seq<Act>, b: seq<Act>, c: seq<Act>)
    ensures a + (b + c) == a + b + c
  {}

  lemma RoundActs(timed: bool, k: nat)
    ensures var arm, disarm := if timed then [Arm(k)] else [], if timed then [Disarm(k)] else [];
            && [Call] + arm + [Register(true), Yield] + disarm == [Call] + Round(timed, k, true)
            && [Call] + arm + [Register(false)] + disarm == [Call] + Round(timed, k, false)
  {}

  lemma PlayEnds(timed: bool, waits: seq<Wait>, k: nat)
    ensures Play(timed, [], waits, k) == (None, [])
  {}

  lemma EmptyTidy()
    ensures Tidy([]) && Disarmed([], 0)
  {}

  /**
   do_io. On the retry path the reply is the one `Meaning` gives, and every timer armed in a round has had
   `cancel` called on it before the next raw call and before the return.
   */
  method Perform(enabled: bool, ctx: Option<FdState>, raws: seq<Outcome>, waits: seq<Wait>)
    returns (reply: Option<Reply>, log: seq<Act>)
    ensures PassedThrough(enabled, ctx) ==> reply == (if raws == [] then None else Some(Raw(raws[0]))) && log == [Call]
    ensures !enabled || ctx.None? ==> PassedThrough(enabled, ctx)
    ensures enabled && ctx.Some? && ctx.value.closed ==> reply == Some(Fail(9)) && log == []
    ensures enabled && ctx.Some? && !ctx.value.closed ==>
              if ctx.value.socket || ctx.value.userNonblock then PassedThrough(enabled, ctx)
              else (reply, log) == Play(ctx.value.timeout.Some?, raws, waits, 0)
    ensures Tidy(log) && (reply.Some? ==> Disarmed(log, |log|))
  {
    if !enabled || ctx.None? {
      return if raws == [] then None else Some(Raw(raws[0])), [Call];
    }
    if ctx.value.closed {
      return Some(Fail(EBADF)), [];
    }
    if ctx.value.socket || ctx.value.userNonblock {
      return if raws == [] then None else Some(Raw(raws[0])), [Call];
    }
    reply, log := Retry(ctx.value.timeout.Some?, raws, waits);
  }
}
