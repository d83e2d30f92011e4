/**
 The loop of TimerManager::listExpireCb on values: one turn, exactly when the loop ends, and what it
 has emitted and left behind when it does.
 */
module TimerExpiry {
  import opened Prelude
  import opened TimerSet
  import opened TimerLaws

  /** The loop condition: on a rollover everything counts as expired. */
  predicate Guard(s: Timers, now: int, rollover: bool)
    requires Shaped(s)
  {
    s.members != [] && (rollover || s.keys[0] <= now)
  }

  /** Fields of an expired timer after its turn: a new deadline if it is recurring, else no callback. */
  function Spent(rec: Rec, now: int): Rec {
    if rec.recurring then rec.(next := now + rec.ms * MS) else rec.(cb := None)
  }

  /** The set without its first timer, whose fields are brought up to date outside. */
  function Rest(s: Timers, now: int): (r: Timers)
    requires Known(s) && s.members != []
    ensures Shaped(r) && s.members[0] in r.recs
  {
    var id := s.members[0];
    s.(members := s.members[1..], keys := s.keys[1..], recs := s.recs[id := Spent(s.recs[id], now)])
  }

  /** One turn: take the first timer out, emit its callback, re-enter it if it is recurring. */
  function Turn(s: Timers, now: int): (r: (Timers, Option<nat>))
    requires Known(s) && s.members != []
  {
    var rec := s.recs[s.members[0]];
    (if rec.recurring then Insert(Rest(s, now), s.members[0]).0 else Rest(s, now), rec.cb)
  }

  /** How many members, from the front, the loop regards as expired. */
  function Due(s: Timers, now: int, rollover: bool): (n: nat)
    requires Shaped(s)
    ensures n <= |s.members|
  {
    if rollover then |s.members| else LowerBound(s.keys, now + 1)
  }

  /** A recurring timer whose next deadline the loop would regard as expired again. */
  predicate Stays(rec: Rec, rollover: bool) {
    rec.recurring && (rollover || rec.ms == 0)
  }

  /** Re-entering member `i` is dropped because a later member already holds its next deadline. */
  predicate Dropped(s: Timers, i: nat, now: int)
    requires Known(s) && i < |s.members|
  {
    exists j | i < j < |s.members| :: s.keys[j] == now + s.recs[s.members[i]].ms * MS
  }

  /** The caller's view of when the loop ends. */
  predicate Ends(s: Timers, now: int, rollover: bool)
    requires Known(s)
  {
    forall i | 0 <= i < Due(s, now, rollover) && Stays(s.recs[s.members[i]], rollover) :: Dropped(s, i, now)
  }

  // ---------------------------------------------------------------- one turn

  lemma DueIff(s: Timers, now: int, rollover: bool)
    requires Valid(s)
    ensures forall i | 0 <= i < |s.members| :: i < Due(s, now, rollover) <==> rollover || s.keys[i] <= now
    ensures Guard(s, now, rollover) <==> Due(s, now, rollover) > 0
  {
    OccupiedIff(s.keys, now + 1);
  }

  lemma DistinctHead(s: Timers)
    requires Valid(s) && s.members != []
    ensures forall i | 0 < i < |s.members| :: s.members[i] != s.members[0]
    ensures s.members[0] !in s.members[1..]
    ensures s.recs[s.members[0]].cb.Some?
  {
    forall i | 0 < i < |s.members| ensures s.members[i] != s.members[0] {
      assert s.keys[0] < s.keys[i];
    }
    assert s.members[0] in s.members;
  }

  lemma RestFacts(s: Timers, now: int)
    requires Valid(s) && s.members != []
    ensures Valid(Rest(s, now))
    ensures s.members[0] !in Rest(s, now).members
    ensures Deadlines(Rest(s, now)) == Deadlines(s) - {s.keys[0]}
  {
    hide Schedule, LowerBound;
    DistinctHead(s);
    var t := Rest(s, now);
    RestDeadlines(s, now);
    assert s.members == [s.members[0]] + t.members;
    assert forall i | 0 <= i < |t.members| :: t.members[i] == s.members[i + 1] && t.keys[i] == s.keys[i + 1];
  }

  lemma RestDeadlines(s: Timers, now: int)
    requires Valid(s) && s.members != []
    ensures Deadlines(Rest(s, now)) == Deadlines(s) - {s.keys[0]}
  {
    var ks := s.keys;
    assert ks == [ks[0]] + ks[1..];
    assert forall i | 0 < i < |ks| :: ks[0] < ks[i];
  }

  /** The first timer takes a place in the set again. */
  ghost predicate Reenters(s: Timers, now: int)
    requires Known(s) && s.members != []
  {
    var rec := s.recs[s.members[0]];
    rec.recurring && now + rec.ms * MS !in s.keys[1..]
  }

  /** The place it takes. */
  ghost function Landing(s: Timers, now: int): nat
    requires Known(s) && s.members != []
  {
    LowerBound(s.keys[1..], now + s.recs[s.members[0]].ms * MS)
  }

  /** Where the member at `i > 0` is after the turn. */
  ghost function After(s: Timers, now: int, i: nat): nat
    requires Known(s) && 0 < i < |s.members|
  {
    if Reenters(s, now) && Landing(s, now) < i then i else i - 1
  }

  /** One turn by position: everything but the first timer keeps its place in the order. */
  ghost predicate Reordered(s: Timers, t: Timers, now: int)
    requires Known(s) && s.members != []
  {
    && Known(t)
    && |t.members| == |s.members| - (if Reenters(s, now) then 0 else 1)
    && (Reenters(s, now) ==>
        && Landing(s, now) < |t.members|
        && t.members[Landing(s, now)] == s.members[0]
        && t.keys[Landing(s, now)] == now + s.recs[s.members[0]].ms * MS)
    && (forall i | 0 < i < |s.members| ::
        && After(s, now, i) < |t.members|
        && t.members[After(s, now, i)] == s.members[i]
        && t.keys[After(s, now, i)] == s.keys[i])
  }

  ghost predicate Turned(s: Timers, t: Timers, now: int)
    requires Known(s) && s.members != []
  {
    var rec := s.recs[s.members[0]];
    && Valid(t)
    && Reordered(s, t, now)
    && t.recs == s.recs[s.members[0] := Spent(rec, now)]
    && Deadlines(t) == Deadlines(s) - {s.keys[0]} + (if rec.recurring then {now + rec.ms * MS} else {})
    && t.tickled == s.tickled && t.preTime == s.preTime
  }

  lemma TurnShape(s: Timers, now: int)
    requires Valid(s) && s.members != []
    ensures Turned(s, Turn(s, now).0, now)
  {
    hide Ascending, LowerBound, Insert, Reordered, Schedule;
    RestFacts(s, now);
    var u, id := Rest(s, now), s.members[0];
    if s.recs[id].recurring {
      DistinctHead(s);
      InsertEdits(u, id);
      if Reenters(s, now) { ReentryLands(s, now); } else { ReentryDrops(s, now); }
    } else {
      DroppedOrder(s, u, now);
    }
  }

  lemma ReentryLands(s: Timers, now: int)
    requires Valid(s) && s.members != [] && Valid(Rest(s, now)) && Reenters(s, now)
    ensures Reordered(s, Insert(Rest(s, now), s.members[0]).0, now)
  {
    hide Reordered, Ascending, Insert, Deadlines, LowerBound, Schedule;
    var u, id := Rest(s, now), s.members[0];
    assert Landing(s, now) <= |s.keys[1..]|;
    assert u.members == s.members[1..] && u.keys == s.keys[1..];
    assert u.recs[id].next == now + s.recs[id].ms * MS;
    InsertFree(u, id);
    LandedOrder(s, Insert(u, id).0, now);
  }

  lemma ReentryDrops(s: Timers, now: int)
    requires Valid(s) && s.members != [] && Valid(Rest(s, now)) && s.recs[s.members[0]].recurring && !Reenters(s, now)
    ensures Reordered(s, Insert(Rest(s, now), s.members[0]).0, now)
  {
    hide Reordered, Ascending, LowerBound;
    var u := Rest(s, now);
    OccupiedIff(u.keys, u.recs[s.members[0]].next);
    DroppedOrder(s, u, now);
  }

  lemma LandedOrder(s: Timers, t: Timers, now: int)
    requires Known(s) && s.members != [] && Known(t) && Reenters(s, now) && Landing(s, now) < |s.members|
    requires t.members == s.members[1..][..Landing(s, now)] + [s.members[0]] + s.members[1..][Landing(s, now)..]
    requires t.keys == s.keys[1..][..Landing(s, now)] + [now + s.recs[s.members[0]].ms * MS] +
          s.keys[1..][Landing(s, now)..]
    ensures Reordered(s, t, now)
  {
    hide Landing, LowerBound, Reenters;
    Interleave(s.members, s.members[0], Landing(s, now));
    Interleave(s.keys, now + s.recs[s.members[0]].ms * MS, Landing(s, now));
  }

  lemma DroppedOrder(s: Timers, t: Timers, now: int)
    requires Known(s) && s.members != [] && Known(t) && !Reenters(s, now)
    requires t.members == s.members[1..] && t.keys == s.keys[1..]
    ensures Reordered(s, t, now)
  {}

  /** Moving the first element behind `p` others. */
  lemma Interleave<T>(xs: seq<T>, x: T, p: nat)
    requires p < |xs|
    ensures var ys := xs[1..][..p] + [x] + xs[1..][p..];
            && |ys| == |xs| && ys[p] == x
            && forall i | 0 < i < |xs| :: ys[if p < i then i else i - 1] == xs[i]
  {}

  /** A terminating loop takes one expired member off the front, and stays terminating. */
  lemma TurnProgress(s: Timers, t: Timers, now: int, rollover: bool)
    requires Valid(s) && Guard(s, now, rollover) && Ends(s, now, rollover) && Turned(s, t, now)
    ensures var n := Due(s, now, rollover);
            && n > 0 && Due(t, now, rollover) == n - 1
            && (forall i | 0 <= i < n - 1 :: t.members[i] == s.members[i + 1])
            && (forall i | 0 <= i < n - 1 :: t.recs[t.members[i]] == s.recs[s.members[i + 1]])
    ensures Ends(t, now, rollover)
  {
    hide Due, Deadlines, Dropped, Ascending, Reordered, Landing;
    assert Due(s, now, rollover) > 0 by { DueIff(s, now, rollover); }
    if Stays(s.recs[s.members[0]], rollover) {
      StaysOut(s, now, rollover);
    }
    DueAfter(s, t, now, rollover);
    SameRecsBehind(s, t, now, Due(s, now, rollover));
    forall i | 0 <= i < Due(t, now, rollover) && Stays(t.recs[t.members[i]], rollover) ensures Dropped(t, i, now) {
      assert Stays(s.recs[s.members[i + 1]], rollover);
      DroppedAfter(s, t, now, i + 1);
    }
  }

  lemma SameRecsBehind(s: Timers, t: Timers, now: int, n: nat)
    requires Valid(s) && 0 < n <= |s.members| && n - 1 <= |t.members|
    requires t.recs == s.recs[s.members[0] := Spent(s.recs[s.members[0]], now)]
    requires forall i | 0 <= i < n - 1 :: t.members[i] == s.members[i + 1]
    ensures forall i | 0 <= i < n - 1 :: t.members[i] in t.recs && t.recs[t.members[i]] == s.recs[s.members[i + 1]]
  {
    DistinctHead(s);
  }

  lemma DroppedAfter(s: Timers, t: Timers, now: int, i: nat)
    requires Known(s) && 0 < i < |s.members| && Reordered(s, t, now) && Dropped(s, i, now)
    requires i - 1 < |t.members| && t.recs[t.members[i - 1]] == s.recs[s.members[i]]
    ensures Dropped(t, i - 1, now)
  {
    var j :| i < j < |s.members| && s.keys[j] == now + s.recs[s.members[i]].ms * MS;
    assert t.keys[After(s, now, j)] == s.keys[j];
  }

  /** In a terminating loop a timer whose next deadline has expired too does not re-enter. */
  lemma StaysOut(s: Timers, now: int, rollover: bool)
    requires Valid(s) && Guard(s, now, rollover) && Ends(s, now, rollover) && Stays(s.recs[s.members[0]], rollover)
    ensures !Reenters(s, now)
  {
    hide Ascending, LowerBound, Due;
    DueIff(s, now, rollover);
    assert Dropped(s, 0, now);
    var j :| 0 < j < |s.members| && s.keys[j] == now + s.recs[s.members[0]].ms * MS;
    assert s.keys[1..][j - 1] == s.keys[j];
  }

  lemma DueAfter(s: Timers, t: Timers, now: int, rollover: bool)
    requires Valid(s) && Guard(s, now, rollover) && Valid(t) && Reordered(s, t, now)
    requires Reenters(s, now) ==> !rollover && now < now + s.recs[s.members[0]].ms * MS
    ensures Due(t, now, rollover) == Due(s, now, rollover) - 1
    ensures forall i | 0 <= i < Due(t, now, rollover) :: t.members[i] == s.members[i + 1]
  {
    hide Due, Deadlines, Ascending;
    var n := Due(s, now, rollover);
    DueIff(s, now, rollover);
    DueIff(t, now, rollover);
    assert Reenters(s, now) ==> n - 1 <= Landing(s, now) by {
      var p := Landing(s, now);
      assert p < |s.keys| - 1 ==> s.keys[1..][p] == s.keys[p + 1];
    }
    forall i | 0 < i < n ensures After(s, now, i) == i - 1 && i - 1 < Due(t, now, rollover) {
      assert t.keys[After(s, now, i)] == s.keys[i];
    }
    assert Due(t, now, rollover) >= n - 1 by {
      if n > 1 { assert After(s, now, n - 1) == n - 2; }
    }
    if n - 1 < |t.members| {
      if n < |s.members| { assert t.keys[After(s, now, n)] == s.keys[n]; }
      assert t.keys[n - 1] > now;
    }
  }

  // ---------------------------------------------------------------- the loop when it ends

  function Expire(s: Timers, now: int, rollover: bool): (r: (Timers, seq<Option<nat>>))
    requires Valid(s) && Ends(s, now, rollover)
    decreases Due(s, now, rollover)
  {
    if !Guard(s, now, rollover) then (s, [])
    else
      var (t, cb) := Turn(s, now);
      assert Valid(t) && Ends(t, now, rollover) && Due(t, now, rollover) < Due(s, now, rollover) by {
        TurnShape(s, now);
        TurnProgress(s, t, now, rollover);
      }
      var (u, cbs) := Expire(t, now, rollover);
      (u, [cb] + cbs)
  }

  /** Next deadlines of the expired recurring timers that do not expire again at once. */
  ghost function Renewed(s: Timers, now: int, rollover: bool): set<int>
    requires Known(s)
  {
    set i | 0 <= i < Due(s, now, rollover) && s.recs[s.members[i]].recurring && !Stays(s.recs[s.members[i]], rollover)
      :: now + s.recs[s.members[i]].ms * MS
  }

  ghost function Later(s: Timers, now: int, rollover: bool): set<int>
    requires Known(s)
  {
    set k | k in Deadlines(s) && !rollover && now < k
  }

  /**
   The loop emits the callbacks that were due on entry, once each, in deadline order; it leaves the
   deadlines that were later together with the next deadlines of the expired recurring timers; it
   touches no timer that was not due.
   */
  lemma {:induction false} ExpireMeaning(s: Timers, now: int, rollover: bool)
    requires Valid(s) && Ends(s, now, rollover)
    ensures Expired(s, Expire(s, now, rollover).0, Expire(s, now, rollover).1, now, rollover)
    decreases Due(s, now, rollover)
  {
    DueIff(s, now, rollover);
    if Due(s, now, rollover) == 0 {
      assert Later(s, now, rollover) == Deadlines(s);
    } else {
      var (t, cb) := Turn(s, now);
      TurnShape(s, now);
      TurnProgress(s, t, now, rollover);
      ExpireMeaning(t, now, rollover);
      var (u, cbs) := Expire(t, now, rollover);
      TurnPrefix(s, t, now, rollover);
      ExpireSplit(s, t, now, rollover);
      ExpiredFrom(s, t, u, cbs, now, rollover);
    }
  }

  /** The loop restarts an expired recurring timer from its reading, and takes a one-shot timer its callback. */
  lemma ExpireFields(s: Timers, now: int, rollover: bool)
    requires Valid(s) && Ends(s, now, rollover)
    ensures var (t, cbs) := Expire(s, now, rollover);
            forall i | 0 <= i < |s.members| && (rollover || s.keys[i] <= now) ::
              var id, rec := s.members[i], s.recs[s.members[i]];
              && i < |cbs| && cbs[i] == rec.cb && id in t.recs
              && t.recs[id] == if rec.recurring then rec.(next := now + rec.ms * MS) else rec.(cb := None)
  {
    hide Due, Ends, Expire, Later, Renewed, Ascending;
    DueIff(s, now, rollover);
    ExpireMeaning(s, now, rollover);
  }

  /** The outcome of the loop in terms of the set on entry. */
  ghost predicate Expired(s: Timers, t: Timers, cbs: seq<Option<nat>>, now: int, rollover: bool)
    requires Known(s)
  {
    var n := Due(s, now, rollover);
    && Valid(t) && !Guard(t, now, rollover)
    && |cbs| == n && (forall i | 0 <= i < n :: cbs[i] == s.recs[s.members[i]].cb && cbs[i].Some?)
    && Deadlines(t) == Later(s, now, rollover) + Renewed(s, now, rollover)
    && t.recs.Keys == s.recs.Keys
    && (forall i | 0 <= i < n :: t.recs[s.members[i]] == Spent(s.recs[s.members[i]], now))
    && (forall m | m in s.recs && m !in s.members[..n] :: t.recs[m] == s.recs[m])
    && t.tickled == s.tickled && t.preTime == s.preTime
  }

  /** The outcome of the rest of the loop, carried over one turn. */
  lemma ExpiredFrom(s: Timers, t: Timers, u: Timers, cbs: seq<Option<nat>>, now: int, rollover: bool)
    requires Known(s) && Known(t) && s.members != [] && Expired(t, u, cbs, now, rollover)
    requires 0 < Due(s, now, rollover) == Due(t, now, rollover) + 1
    requires t.members[..Due(t, now, rollover)] == s.members[1..Due(s, now, rollover)]
    requires s.members[0] !in s.members[1..] && s.recs[s.members[0]].cb.Some?
    requires t.recs == s.recs[s.members[0] := Spent(s.recs[s.members[0]], now)]
    requires t.tickled == s.tickled && t.preTime == s.preTime
    requires Later(t, now, rollover) + Renewed(t, now, rollover) == Later(s, now, rollover) + Renewed(s, now, rollover)
    ensures Expired(s, u, [s.recs[s.members[0]].cb] + cbs, now, rollover)
  {
    var n := Due(s, now, rollover);
    SpentFrom(s, t, u, n, now);
    EmittedFrom(s, t, cbs, n, now);
  }

  lemma EmittedFrom(s: Timers, t: Timers, cbs: seq<Option<nat>>, n: nat, now: int)
    requires Known(s) && Known(t) && 0 < n <= |s.members| && |cbs| == n - 1 <= |t.members|
    requires t.members[..n - 1] == s.members[1..n] && s.members[0] !in s.members[1..]
    requires t.recs == s.recs[s.members[0] := Spent(s.recs[s.members[0]], now)]
    requires forall i | 0 <= i < n - 1 :: cbs[i] == t.recs[t.members[i]].cb
    ensures forall i | 0 <= i < n :: ([s.recs[s.members[0]].cb] + cbs)[i] == s.recs[s.members[i]].cb
  {
    forall i | 0 < i < n ensures cbs[i - 1] == s.recs[s.members[i]].cb {
      assert s.members[i] == s.members[1..n][i - 1] == t.members[..n - 1][i - 1] == t.members[i - 1];
      assert s.members[i] == s.members[1..][i - 1];
    }
  }

  lemma TurnPrefix(s: Timers, t: Timers, now: int, rollover: bool)
    requires Valid(s) && Guard(s, now, rollover) && Ends(s, now, rollover) && Turned(s, t, now)
    ensures var n := Due(s, now, rollover);
            && 0 < n == Due(t, now, rollover) + 1
            && t.members[..n - 1] == s.members[1..n]
    ensures s.members[0] !in s.members[1..] && s.recs[s.members[0]].cb.Some?
  {
    TurnProgress(s, t, now, rollover);
    DistinctHead(s);
  }

  lemma SpentFrom(s: Timers, t: Timers, u: Timers, n: nat, now: int)
    requires Known(s) && Known(t) && 0 < n <= |s.members| && n - 1 <= |t.members|
    requires t.members[..n - 1] == s.members[1..n] && s.members[0] !in s.members[1..]
    requires t.recs == s.recs[s.members[0] := Spent(s.recs[s.members[0]], now)] && u.recs.Keys == t.recs.Keys
    requires forall i | 0 <= i < n - 1 :: u.recs[t.members[i]] == Spent(t.recs[t.members[i]], now)
    requires forall m | m in t.recs && m !in t.members[..n - 1] :: u.recs[m] == t.recs[m]
    ensures forall i | 0 <= i < n :: u.recs[s.members[i]] == Spent(s.recs[s.members[i]], now)
    ensures forall m | m in s.recs && m !in s.members[..n] :: u.recs[m] == s.recs[m]
  {
    assert s.members[..n] == [s.members[0]] + s.members[1..n];
    assert s.members[1..n] == s.members[1..][..n - 1];
    forall i | 0 <= i < n ensures u.recs[s.members[i]] == Spent(s.recs[s.members[i]], now) {
      if i > 0 {
        assert s.members[i] == s.members[1..n][i - 1] == t.members[..n - 1][i - 1] == t.members[i - 1];
        assert s.members[i] in s.members[1..];
      }
    }
  }

  /** The deadline sets before and after a turn lead to the same end. */
  lemma ExpireSplit(s: Timers, t: Timers, now: int, rollover: bool)
    requires Valid(s) && Guard(s, now, rollover) && Ends(s, now, rollover) && Turned(s, t, now)
    ensures Later(t, now, rollover) + Renewed(t, now, rollover) == Later(s, now, rollover) + Renewed(s, now, rollover)
  {
    TurnProgress(s, t, now, rollover);
    RenewedSplit(s, t, now, rollover);
    LaterSplit(s, t, now, rollover);
  }

  /** The deadline the first timer contributes to those that remain. */
  ghost function HeadRenewed(s: Timers, now: int, rollover: bool): set<int>
    requires Known(s) && s.members != []
  {
    var rec := s.recs[s.members[0]];
    if rec.recurring && !Stays(rec, rollover) then {now + rec.ms * MS} else {}
  }

  lemma LaterSplit(s: Timers, t: Timers, now: int, rollover: bool)
    requires Valid(s) && Guard(s, now, rollover) && Turned(s, t, now)
    ensures Later(t, now, rollover) == Later(s, now, rollover) + HeadRenewed(s, now, rollover)
  {
    hide Reordered, Ascending;
    var rec := s.recs[s.members[0]];
    assert rec.recurring && rec.ms == 0 ==> now + rec.ms * MS == now;
    assert !rollover ==> s.keys[0] <= now;
  }

  lemma RenewedSplit(s: Timers, t: Timers, now: int, rollover: bool)
    requires Known(s) && Known(t) && s.members != [] && 0 < Due(s, now, rollover) == Due(t, now, rollover) + 1
    requires forall i | 0 <= i < Due(t, now, rollover) :: t.recs[t.members[i]] == s.recs[s.members[i + 1]]
    ensures Renewed(s, now, rollover) == Renewed(t, now, rollover) + HeadRenewed(s, now, rollover)
  {
    var head := HeadRenewed(s, now, rollover);
    var n := Due(s, now, rollover);
    forall k | k in Renewed(s, now, rollover) ensures k in Renewed(t, now, rollover) + head {
      var i :| 0 <= i < n && s.recs[s.members[i]].recurring && !Stays(s.recs[s.members[i]], rollover)
            && k == now + s.recs[s.members[i]].ms * MS;
      if i > 0 { assert t.recs[t.members[i - 1]] == s.recs[s.members[i]]; }
    }
    forall k | k in Renewed(t, now, rollover) + head ensures k in Renewed(s, now, rollover) {
      if k in Renewed(t, now, rollover) {
        var i :| 0 <= i < n - 1 && t.recs[t.members[i]].recurring && !Stays(t.recs[t.members[i]], rollover)
              && k == now + t.recs[t.members[i]].ms * MS;
        assert t.recs[t.members[i]] == s.recs[s.members[i + 1]];
      } else {
        assert s.recs[s.members[0]].recurring;
      }
    }
  }

  /** Nobody enters the set through the loop, and whoever was not due stays. */
  lemma {:induction false} ExpireMembers(s: Timers, now: int, rollover: bool)
    requires Valid(s) && Ends(s, now, rollover)
    ensures var t := Expire(s, now, rollover).0;
            && (forall m | m in t.members :: m in s.members)
            && (forall i | Due(s, now, rollover) <= i < |s.members| :: s.members[i] in t.members)
    decreases Due(s, now, rollover)
  {
    hide Ascending, Dropped, Later, Renewed, Deadlines;
    DueIff(s, now, rollover);
    if Due(s, now, rollover) > 0 {
      var t := Turn(s, now).0;
      TurnShape(s, now);
      TurnProgress(s, t, now, rollover);
      TurnMembers(s, now);
      LaterStay(s, t, now, rollover);
      ExpireMembers(t, now, rollover);
    }
  }

  lemma TurnMembers(s: Timers, now: int)
    requires Valid(s) && s.members != []
    ensures forall m | m in Turn(s, now).0.members :: m in s.members
  {
    hide Insert, LowerBound, Ascending;
    RestFacts(s, now);
    if s.recs[s.members[0]].recurring { InsertMembers(Rest(s, now), s.members[0]); }
  }

  lemma LaterStay(s: Timers, t: Timers, now: int, rollover: bool)
    requires Valid(s) && Guard(s, now, rollover) && Turned(s, t, now)
    ensures forall i | Due(s, now, rollover) <= i < |s.members| ::
              exists j :: Due(t, now, rollover) <= j < |t.members| && t.members[j] == s.members[i]
  {
    hide Ascending, Due, Deadlines;
    DueIff(s, now, rollover);
    DueIff(t, now, rollover);
    forall i | Due(s, now, rollover) <= i < |s.members|
      ensures exists j :: Due(t, now, rollover) <= j < |t.members| && t.members[j] == s.members[i]
    {
      assert t.members[After(s, now, i)] == s.members[i] && t.keys[After(s, now, i)] == s.keys[i];
    }
  }

  // ---------------------------------------------------------------- who is re-entered

  /** An expired member that re-enters: recurring, at a free deadline, and first to ask for it. */
  predicate Renews(s: Timers, i: nat, now: int)
    requires Known(s) && i < |s.members|
  {
    var rec := s.recs[s.members[i]];
    && rec.recurring
    && now + rec.ms * MS !in s.keys
    && forall j | 0 <= j < i && s.recs[s.members[j]].recurring :: s.recs[s.members[j]].ms != rec.ms
  }

  /** The timer taken out by a turn is back in the set exactly when it re-enters. */
  lemma HeadBack(s: Timers, now: int)
    requires Valid(s) && s.members != []
    ensures s.members[0] in Turn(s, now).0.members <==> Reenters(s, now)
  {
    hide Insert, LowerBound, Ascending;
    RestFacts(s, now);
    if s.recs[s.members[0]].recurring { InsertMembers(Rest(s, now), s.members[0]); }
  }

  /** The first timer re-enters exactly when its deadline is free. */
  lemma HeadFree(s: Timers, now: int)
    requires Valid(s) && Guard(s, now, false) && Ends(s, now, false)
    ensures Reenters(s, now) <==> Renews(s, 0, now)
    ensures Reenters(s, now) ==> s.recs[s.members[0]].ms > 0
  {
    hide Ends, Ascending, Due, Deadlines, Dropped;
    var rec := s.recs[s.members[0]];
    if Stays(rec, false) { StaysOut(s, now, false); }
    assert s.keys == [s.keys[0]] + s.keys[1..];
  }

  /** It comes back beyond the expired ones. */
  lemma HeadRenews(s: Timers, t: Timers, now: int)
    requires Valid(s) && Guard(s, now, false) && Ends(s, now, false) && t == Turn(s, now).0 && Turned(s, t, now)
    ensures Renews(s, 0, now) ==>
              exists j :: Due(t, now, false) <= j < |t.members| && t.members[j] == s.members[0]
    ensures !Renews(s, 0, now) ==> s.members[0] !in t.members
  {
    hide Ends, Turn, Ascending, Due, Deadlines, Renews;
    HeadFree(s, now);
    HeadBack(s, now);
    DueIff(t, now, false);
    if Reenters(s, now) {
      assert now + s.recs[s.members[0]].ms * MS > now;
      assert t.members[Landing(s, now)] == s.members[0];
    }
  }

  /** A later timer finds its deadline held after the turn exactly when it was before or the first one has taken it. */
  lemma RenewsAfter(s: Timers, t: Timers, now: int, i: nat)
    requires Valid(s) && Guard(s, now, false) && Turned(s, t, now) && 0 < i < Due(s, now, false)
    requires i <= |t.members| && forall j | 0 < j <= i :: t.recs[t.members[j - 1]] == s.recs[s.members[j]]
    ensures Renews(t, i - 1, now) <==> Renews(s, i, now)
  {
    hide Due, Reordered, Ascending;
    DueIff(s, now, false);
    AscendingAt(s.keys, 0, i);
    var rec, first := s.recs[s.members[i]], s.recs[s.members[0]];
    var key := now + rec.ms * MS;
    assert key > s.keys[0];
    assert key in t.keys <==> key in Deadlines(t);
    assert key in s.keys <==> key in Deadlines(s);
    assert now + first.ms * MS == key <==> first.ms == rec.ms;
    assert key in t.keys <==> key in s.keys || (first.recurring && first.ms == rec.ms);
    if Renews(t, i - 1, now) {
      forall j | 0 <= j < i && s.recs[s.members[j]].recurring ensures s.recs[s.members[j]].ms != rec.ms {
        if j > 0 { assert t.recs[t.members[j - 1]] == s.recs[s.members[j]]; }
      }
    }
    if Renews(s, i, now) {
      forall j | 0 <= j < i - 1 && t.recs[t.members[j]].recurring ensures t.recs[t.members[j]].ms != rec.ms {
        assert t.recs[t.members[j + 1 - 1]] == s.recs[s.members[j + 1]];
      }
    }
  }

  lemma AscendingAt(keys: seq<int>, i: nat, j: nat)
    requires Ascending(keys) && i < j < |keys|
    ensures keys[i] < keys[j]
  {}

  /**
   Without a rollover an expired timer is a member after the loop exactly when it is recurring, nobody holds
   its next deadline, and no earlier expired recurring timer has the same period; a recurring timer that is
   left out stays out with a live callback.
   */
  lemma {:induction false} RenewsIff(s: Timers, now: int)
    requires Valid(s) && Ends(s, now, false)
    ensures var t := Expire(s, now, false).0;
            forall i | 0 <= i < Due(s, now, false) ::
              && (s.members[i] in t.members <==> Renews(s, i, now))
              && s.members[i] in t.recs && t.recs[s.members[i]] == Spent(s.recs[s.members[i]], now)
    decreases Due(s, now, false)
  {
    hide Ascending, Dropped, Later, Renewed, Deadlines, Renews, Ends;
    DueIff(s, now, false);
    ExpireMeaning(s, now, false);
    if Due(s, now, false) > 0 {
      var t := Turn(s, now).0;
      TurnShape(s, now);
      TurnProgress(s, t, now, false);
      RenewsIff(t, now);
      ExpireMembers(t, now, false);
      HeadRenews(s, t, now);
      assert Expire(s, now, false).0 == Expire(t, now, false).0;
      forall i | 0 < i < Due(s, now, false) ensures Renews(t, i - 1, now) <==> Renews(s, i, now) {
        RenewsAfter(s, t, now, i);
      }
      forall i | 0 <= i < Due(s, now, false)
            ensures s.members[i] in Expire(s, now, false).0.members <==> Renews(s, i, now) {
        if i > 0 { assert t.members[i - 1] == s.members[i]; }
      }
    }
  }

  /** Two recurring timers of one period that expire together: the second one drops out. */
  lemma SecondDropsOut()
    ensures var s :=
          Timers([1, 2], [100, 110], map[1 := Rec(5, true, 100, Some(8)), 2 := Rec(5, true, 110, Some(9))], false, 0);
            && Valid(s) && Ends(s, 200, false)
            && var t := Expire(s, 200, false).0;
               1 in t.members && 2 !in t.members && 2 in t.recs && t.recs[2].cb == Some(9)
  {
    hide Turn, Expire;
    var s := Timers([1, 2], [100, 110], map[1 := Rec(5, true, 100, Some(8)), 2 := Rec(5, true, 110, Some(9))], false,
          0);
    assert s.members[0] == 1 && s.members[1] == 2;
    DueIff(s, 200, false);
    RenewsIff(s, 200);
  }

  /** A rollover that ends empties the set. */
  lemma RolloverEmpties(s: Timers, now: int)
    requires Valid(s) && Ends(s, now, true)
    ensures var (t, cbs) := Expire(s, now, true);
            t.members == [] && |cbs| == |s.members| && forall i | 0 <= i < |cbs| :: cbs[i] == s.recs[s.members[i]].cb
  {
    ExpireMeaning(s, now, true);
  }

  // ---------------------------------------------------------------- exactly when it ends

  /** The set after `n` turns of the loop body, whatever the loop condition says. */
  function Turns(s: Timers, now: int, n: nat): (t: Timers)
    requires Valid(s)
    ensures Valid(t)
    decreases n
  {
    if n == 0 || s.members == [] then s
    else
      assert Valid(Turn(s, now).0) by { TurnShape(s, now); }
      Turns(Turn(s, now).0, now, n - 1)
  }

  /** A timer that is re-entered as expired keeps the loop going: the next turn has such a timer too. */
  lemma StuckStep(s: Timers, t: Timers, now: int, rollover: bool)
    requires Valid(s) && s.members != [] && !Ends(s, now, rollover) && Turned(s, t, now)
    ensures Guard(s, now, rollover) && !Ends(t, now, rollover)
  {
    DueIff(s, now, rollover);
    var i :| 0 <= i < Due(s, now, rollover) && Stays(s.recs[s.members[i]], rollover) && !Dropped(s, i, now);
    var rec := s.recs[s.members[0]];
    if rec.recurring && !Reenters(s, now) {
      HeldIsDropped(s, now);
    }
    if Reenters(s, now) && rec.ms == s.recs[s.members[i]].ms {
      StuckOnItself(s, t, now, rollover);
    } else {
      StuckBehind(s, t, now, rollover, i);
    }
  }

  lemma HeldIsDropped(s: Timers, now: int)
    requires Valid(s) && s.members != [] && s.recs[s.members[0]].recurring && !Reenters(s, now)
    ensures Dropped(s, 0, now)
  {
    var j :| 0 <= j < |s.keys[1..]| && s.keys[1..][j] == now + s.recs[s.members[0]].ms * MS;
    assert s.keys[j + 1] == now + s.recs[s.members[0]].ms * MS;
  }

  /** The re-entered timer itself is the next obstacle. */
  lemma StuckOnItself(s: Timers, t: Timers, now: int, rollover: bool)
    requires Valid(s) && s.members != [] && Turned(s, t, now) && Reenters(s, now)
    requires rollover || s.recs[s.members[0]].ms == 0
    ensures !Ends(t, now, rollover)
  {
    DueIff(t, now, rollover);
    var p := Landing(s, now);
    assert !Dropped(t, p, now);
    assert Stays(t.recs[t.members[p]], rollover) && p < Due(t, now, rollover);
  }

  /** An obstacle behind the first timer is still one after the turn. */
  lemma StuckBehind(s: Timers, t: Timers, now: int, rollover: bool, i: nat)
    requires Valid(s) && 0 < i < Due(s, now, rollover) && Turned(s, t, now)
    requires Stays(s.recs[s.members[i]], rollover) && !Dropped(s, i, now)
    requires Reenters(s, now) ==> s.recs[s.members[0]].ms != s.recs[s.members[i]].ms
    ensures !Ends(t, now, rollover)
  {
    hide Due, Deadlines, Ascending;
    DueIff(s, now, rollover);
    DueIff(t, now, rollover);
    DistinctHead(s);
    var i', keyI := After(s, now, i), now + s.recs[s.members[i]].ms * MS;
    assert t.members[i'] == s.members[i] && t.keys[i'] == s.keys[i];
    forall j | i' < j < |t.members| ensures t.keys[j] != keyI {
      if !(Reenters(s, now) && j == Landing(s, now)) {
        var k := if Reenters(s, now) && Landing(s, now) < j then j else j + 1;
        assert t.keys[After(s, now, k)] == s.keys[k] && After(s, now, k) == j;
        assert i < k;
      }
    }
    assert !Dropped(t, i', now);
  }

  lemma StuckGuard(s: Timers, now: int, rollover: bool)
    requires Valid(s) && !Ends(s, now, rollover)
    ensures Guard(s, now, rollover)
  {
    hide Due, Dropped, Ascending;
    DueIff(s, now, rollover);
  }

  lemma {:induction false} NeverEnds(s: Timers, now: int, rollover: bool, n: nat)
    requires Valid(s) && !Ends(s, now, rollover)
    ensures Guard(Turns(s, now, n), now, rollover)
    decreases n
  {
    hide Ends, Turn, Ascending, Reordered, Deadlines;
    StuckGuard(s, now, rollover);
    if n > 0 {
      TurnShape(s, now);
      StuckStep(s, Turn(s, now).0, now, rollover);
      NeverEnds(Turn(s, now).0, now, rollover, n - 1);
    }
  }

  lemma {:induction false} EndsAfter(s: Timers, now: int, rollover: bool, n: nat)
    requires Valid(s) && Ends(s, now, rollover) && n == Due(s, now, rollover)
    ensures Turns(s, now, n) == Expire(s, now, rollover).0
    decreases n
  {
    DueIff(s, now, rollover);
    if n > 0 {
      var t := Turn(s, now).0;
      assert Valid(t) && Ends(t, now, rollover) && Due(t, now, rollover) == n - 1 by {
        TurnShape(s, now);
        TurnProgress(s, t, now, rollover);
      }
      EndsAfter(t, now, rollover, n - 1);
    }
  }

  /**
   The loop ends exactly when every expired recurring timer that would be re-entered as expired (any on a
   rollover, otherwise those with period 0) finds its next deadline held by a later member.
   */
  lemma EndsExactly(s: Timers, now: int, rollover: bool)
    requires Valid(s)
    ensures Ends(s, now, rollover) <==> exists n: nat :: !Guard(Turns(s, now, n), now, rollover)
  {
    if Ends(s, now, rollover) {
      EndsAfter(s, now, rollover, Due(s, now, rollover));
      ExpireMeaning(s, now, rollover);
    } else {
      forall n: nat ensures Guard(Turns(s, now, n), now, rollover) {
        NeverEnds(s, now, rollover, n);
      }
    }
  }

  /** A concrete set on which the loop runs for ever: one expired recurring timer with period 0. */
  lemma ZeroPeriodNeverEnds(n: nat)
    ensures var s := Timers([7], [100], map[7 := Rec(0, true, 100, Some(1))], false, 0);
            Valid(s) && Guard(Turns(s, 200, n), 200, false)
  {
    var s := Timers([7], [100], map[7 := Rec(0, true, 100, Some(1))], false, 0);
    DueIff(s, 200, false);
    assert !Dropped(s, 0, 200);
    NeverEnds(s, 200, false, n);
  }
}
