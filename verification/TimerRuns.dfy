/**
 Whole histories of one timer manager: any interleaving of the critical sections of its operations, each
 with the clock reading it takes. `reset` is two sections, and anything may come between them: other
 timers' operations, the worker, and a cancel, refresh or reset of the same timer by another thread. The
 history remembers what has been emitted, which timers have been cancelled and which clock readings have
 been taken.
 */
module TimerRuns {
  import opened Prelude
  import opened TimerSet
  import opened TimerLaws
  import opened TimerExpiry

  datatype Op =
    | NewOp(id: TimerId, ms: nat, cb: nat, recurring: bool)
    | CancelOp(id: TimerId)
    | RefreshOp(id: TimerId)
    | TakeOp(id: TimerId, ms: nat, fromNow: bool, call: nat)  // reset up to its unlock
    | PutBackOp(id: TimerId, call: nat)                       // reset from its unlock on
    | NextOp
    | ExpireOp(now2: int)  // the second reading, taken under the lock to detect a rollover

  /** An emitted callback with the timer's fields at that moment. */
  datatype Emission = Emission(id: TimerId, rec: Rec, at: int)

  /** A call of `reset` that is between its sections. */
  datatype Args = Args(id: TimerId, ms: nat, fromNow: bool)

  datatype History = History(timers: Timers, resetting: map<nat, Args>, emitted: seq<Emission>,
      cancelled: set<TimerId>, readings: set<int>)

  function Start(created: int): (h: History) {
    History(Timers([], [], map[], false, created), map[], [], {}, {created})
  }

  /** The timer an operation is called on. */
  function Subject(op: Op): (id: Option<TimerId>) {
    match op
    case NextOp => None
    case ExpireOp(_) => None
    case _ => Some(op.id)
  }

  ghost predicate Enabled(h: History, op: Op, now: int) {
    && Known(h.timers)
    && match op
       case NewOp(id, _, _, _) => id !in h.timers.recs
       case TakeOp(id, _, _, call) => id in h.timers.recs && call !in h.resetting
       case PutBackOp(id, call) => id in h.timers.recs && call in h.resetting && h.resetting[call].id == id
       case NextOp => true
       case ExpireOp(now2) =>
         var (s, rollover) := DetectRollover(h.timers, now2);
         Valid(s) && Ends(s, now, rollover)
       case _ => op.id in h.timers.recs
  }

  /** What listExpireCb reports for the expired members. */
  function Emissions(s: Timers, n: nat, now: int): (es: seq<Emission>)
    requires Known(s) && n <= |s.members|
  {
    seq(n, i requires 0 <= i < n => Emission(s.members[i], s.recs[s.members[i]], now))
  }

  ghost function Apply(h: History, op: Op, now: int): History
    requires Enabled(h, op, now)
  {
    var s := h.timers;
    var g := h.(readings := h.readings + {now});
    match op
    case NewOp(id, ms, cb, recurring) => g.(timers := New(s, id, ms, cb, recurring, now).0)
    case CancelOp(id) =>
      var (t, done) := Cancel(s, id);
      h.(timers := t, cancelled := if done then h.cancelled + {id} else h.cancelled)
    case RefreshOp(id) => g.(timers := Refresh(s, id, now).0)
    case TakeOp(id, ms, fromNow, call) =>
      if (ms == s.recs[id].ms && !fromNow) || ResetErase(s, id).None? then h
      else h.(timers := ResetErase(s, id).value, resetting := h.resetting[call := Args(id, ms, fromNow)])
    case PutBackOp(id, call) =>
      var args := h.resetting[call];
      g.(timers := ResetInsert(s, id, args.ms, args.fromNow, now).0, resetting := h.resetting - {call})
    case NextOp => g.(timers := GetNext(s, now).0)
    case ExpireOp(now2) =>
      var (t, rollover) := DetectRollover(h.timers, now2);
      g.(timers := Expire(t, now, rollover).0, emitted := h.emitted + Emissions(t, Due(t, now, rollover), now),
         readings := h.readings + {now, now2})
  }

  ghost predicate Formed(h: History) { Valid(h.timers) }

  /**
   The second section of a reset finds that a cancel has come in between and would enter the timer without
   callback, or that another thread has put the timer back and moves it past another deadline.
   */
  ghost predicate Spoils(h: History, op: Op, now: int)
    requires Enabled(h, op, now)
  {
    op.PutBackOp? &&
    var rec, args := h.timers.recs[op.id], h.resetting[op.call];
    var key := Restarted(rec, args.ms, args.fromNow, now).next;
    if op.id in h.timers.members then !KeepsPlace(h.timers, op.id, key)
    else rec.cb.None? && key !in Deadlines(h.timers)
  }

  // ---------------------------------------------------------------- one operation, seen by one timer

  /** An operation on another timer erases the holder of this deadline. */
  ghost predicate Erases(h: History, op: Op, key: int) {
    && (op.CancelOp? || op.RefreshOp? || op.TakeOp?)
    && op.id in h.timers.recs && h.timers.recs[op.id].cb.Some? && h.timers.recs[op.id].next == key
    && (op.TakeOp? ==> op.fromNow || op.ms != h.timers.recs[op.id].ms)
  }

  /** Whether listExpireCb emits a timer. */
  ghost predicate Emits(h: History, op: Op, now: int, id: TimerId)
    requires Enabled(h, op, now)
  {
    op.ExpireOp? &&
    var (s, rollover) := DetectRollover(h.timers, op.now2);
    id in s.members[..Due(s, now, rollover)]
  }

  /** The timer has been left alone; it is still a member unless its deadline has been erased. */
  ghost predicate Spared(h: History, g: History, erased: bool, id: TimerId) {
    && id in h.timers.recs && id in g.timers.recs && g.timers.recs[id] == h.timers.recs[id]
    && (id in g.timers.members <==> id in h.timers.members && !erased)
  }

  /** An operation on another timer. */
  lemma Bystander(h: History, op: Op, now: int, id: TimerId)
    requires Formed(h) && Enabled(h, op, now) && !Spoils(h, op, now)
    requires !op.ExpireOp? && Subject(op) != Some(id) && id in h.timers.recs
    ensures Valid(Apply(h, op, now).timers)
    ensures Spared(h, Apply(h, op, now), Erases(h, op, h.timers.recs[id].next), id)
  {
    hide Ascending, LowerBound, Schedule, Deadlines;
    var s := h.timers;
    match op
    case NewOp(other, ms, cb, recurring) => NewSpares(s, other, ms, cb, recurring, now);
    case CancelOp(other) => CancelSpares(s, other);
    case RefreshOp(other) => RefreshSpares(s, other, now);
    case TakeOp(other, _, _, _) => TakeRefines(s, other); MembersHeld(s);
    case PutBackOp(other, call) =>
      PutBackRefines(s, other, h.resetting[call].ms, h.resetting[call].fromNow, now);
    case NextOp =>
  }

  lemma NewSpares(s: Timers, other: TimerId, ms: nat, cb: nat, recurring: bool, now: int)
    requires Valid(s) && other !in s.recs
    ensures var t := New(s, other, ms, cb, recurring, now).0;
            && Valid(t)
            && (forall m | m in s.recs :: m in t.recs && t.recs[m] == s.recs[m])
            && (forall m | m in s.recs :: m in t.members <==> m in s.members)
  {
    hide Ascending, LowerBound, Schedule, Insert;
    var rec := Rec(ms, recurring, now + ms * MS, Some(cb));
    NewRefines(s, other, ms, cb, recurring, now);
    NotMember(s, other);
    OutsideFrame(s, other, rec);
    InsertMembers(s.(recs := s.recs[other := rec]), other);
  }

  lemma CancelSpares(s: Timers, other: TimerId)
    requires Valid(s) && other in s.recs
    ensures var t := Cancel(s, other).0;
            && Valid(t)
            && (forall m | m in s.recs && m != other :: t.recs[m] == s.recs[m])
            && (s.recs[other].cb.Some? ==> forall m :: m in t.members <==>
                  m in s.members && s.recs[m].next != s.recs[other].next)
            && (s.recs[other].cb.None? ==> t == s)
  {
    hide Ascending, LowerBound, Schedule;
    CancelRefines(s, other);
    EraseMembers(s, s.recs[other].next);
  }

  lemma RefreshSpares(s: Timers, other: TimerId, now: int)
    requires Valid(s) && other in s.recs
    ensures var t := Refresh(s, other, now).0;
            && Valid(t)
            && (forall m | m in s.recs && m != other :: t.recs[m] == s.recs[m])
            && (s.recs[other].cb.Some? ==>
                  forall m | m in s.recs && m != other ::
                    m in t.members <==> m in s.members && s.recs[m].next != s.recs[other].next)
            && (s.recs[other].cb.None? ==> t == s)
  {
    hide Ascending, LowerBound, Schedule, Insert, EraseKey, Rekeyed;
    var rec := s.recs[other];
    RefreshRefines(s, other, now);
    OccupiedIff(s.keys, rec.next);
    if rec.cb.Some? && rec.next in Deadlines(s) {
      RefreshValid(s, other, now);
      var moved := rec.(next := now + rec.ms * MS);
      EraseMembers(s, rec.next);
      RekeySafe(s, other, moved);
      var t := EraseKey(s, rec.next);
      InsertMembers(t.(recs := t.recs[other := moved]), other);
      RefreshRecs(s, other, now);
    } else {
      MembersHeld(s);
    }
  }

  /** The deadline of a member is in the set. */
  lemma MembersHeld(s: Timers)
    requires Valid(s)
    ensures forall m | m in s.members :: s.recs[m].next in Deadlines(s)
  {
    forall m | m in s.members ensures s.recs[m].next in Deadlines(s) {
      var i :| 0 <= i < |s.members| && s.members[i] == m;
      assert s.keys[i] in s.keys;
    }
  }

  lemma RefreshRecs(s: Timers, other: TimerId, now: int)
    requires Valid(s) && other in s.recs
    ensures forall m | m in s.recs && m != other ::
          m in Refresh(s, other, now).0.recs && Refresh(s, other, now).0.recs[m] == s.recs[m]
  {
    RefreshRefines(s, other, now);
  }

  /** listExpireCb spares the timers it does not emit and spends those it does. */
  lemma ExpireBystander(h: History, now: int, now2: int, id: TimerId)
    requires Formed(h) && Enabled(h, ExpireOp(now2), now) && id in h.timers.recs
    ensures var g := Apply(h, ExpireOp(now2), now);
            && Valid(g.timers)
            && (if Emits(h, ExpireOp(now2), now, id)
                then id in h.timers.members && id in g.timers.recs && g.timers.recs[id] == Spent(h.timers.recs[id], now)
                else Spared(h, g, false, id))
  {
    hide Ascending, Deadlines, Later, Renewed, Expire, Due, Ends, Valid;
    var (s, rollover) := DetectRollover(h.timers, now2);
    var n := Due(s, now, rollover);
    ExpireMeaning(s, now, rollover);
    ExpireMembers(s, now, rollover);
    SpentOrSame(s, Expire(s, now, rollover).0, n, now, id);
    NotDue(s.members, n, id);
  }

  lemma NotDue(members: seq<TimerId>, n: nat, id: TimerId)
    requires n <= |members|
    ensures id in members[..n] ==> id in members
    ensures id in members && id !in members[..n] ==> exists i :: n <= i < |members| && members[i] == id
  {
    if id in members && id !in members[..n] {
      assert members == members[..n] + members[n..];
      var i :| 0 <= i < |members[n..]| && members[n..][i] == id;
      assert members[n + i] == id;
    }
  }

  lemma SpentOrSame(s: Timers, t: Timers, n: nat, now: int, id: TimerId)
    requires Known(s) && n <= |s.members| && id in s.recs && t.recs.Keys == s.recs.Keys
    requires forall i | 0 <= i < n :: t.recs[s.members[i]] == Spent(s.recs[s.members[i]], now)
    requires forall m | m in s.recs && m !in s.members[..n] :: t.recs[m] == s.recs[m]
    ensures t.recs[id] == if id in s.members[..n] then Spent(s.recs[id], now) else s.recs[id]
  {
    if id in s.members[..n] {
      var i :| 0 <= i < n && s.members[..n][i] == id;
      assert s.members[i] == id;
    }
  }

  // ---------------------------------------------------------------- one operation, by timer

  /** The fields an operation may give to a timer. */
  ghost predicate Evolves(h: History, g: History) {
    forall id | id in h.timers.recs ::
      && id in g.timers.recs
      && g.timers.recs[id].recurring == h.timers.recs[id].recurring
      && (h.timers.recs[id].cb.None? ==> g.timers.recs[id].cb.None?)
  }

  /** What an operation does to the timer it is called on. */
  lemma OwnEvolves(h: History, op: Op, now: int)
    requires Formed(h) && Enabled(h, op, now) && Subject(op).Some? && !op.NewOp?
    ensures var g, id := Apply(h, op, now), op.id;
            && (Valid(g.timers) <==> !Spoils(h, op, now))
            && id in g.timers.recs
            && g.timers.recs[id].recurring == h.timers.recs[id].recurring
            && (h.timers.recs[id].cb.None? ==> g.timers.recs[id].cb.None?)
  {
    hide Ascending, LowerBound, Schedule, Deadlines, Insert, EraseKey, Occupied;
    var s := h.timers;
    match op
    case CancelOp(id) => CancelRefines(s, id);
    case RefreshOp(id) => RefreshRefines(s, id, now);
    case TakeOp(id, _, _, _) => TakeRefines(s, id);
    case PutBackOp(id, call) =>
      PutBackRefines(s, id, h.resetting[call].ms, h.resetting[call].fromNow, now);
  }

  /** The fields with which an operation leaves the timer it is called on. */
  lemma OwnFields(h: History, op: Op, now: int)
    requires Formed(h) && Enabled(h, op, now) && Subject(op).Some?
    ensures var g, id := Apply(h, op, now), op.id;
            && id in g.timers.recs
            && (op.NewOp? ==> g.timers.recs[id] == Rec(op.ms, op.recurring, now + op.ms * MS, Some(op.cb)))
            && (!op.NewOp? ==>
                  var rec := h.timers.recs[id];
                  && (op.CancelOp? ==> g.timers.recs[id] == rec.(cb := None))
                  && (op.RefreshOp? ==>
                        g.timers.recs[id] ==
                        if rec.cb.Some? && rec.next in Deadlines(h.timers) then rec.(next := now + rec.ms * MS)
                            else rec)
                  && (op.TakeOp? ==> g.timers.recs[id] == rec)
                  && (op.PutBackOp? ==>
                        var args := h.resetting[op.call];
                        g.timers.recs[id] ==
                        rec.(ms := args.ms,
                             next := (if args.fromNow then now else rec.next - rec.ms * MS) + args.ms * MS)))
  {
    hide Ascending, LowerBound, Schedule, Insert, EraseKey, Occupied, KeysRead, KeepsPlace;
    var s := h.timers;
    match op
    case NewOp(id, ms, cb, recurring) => NewRefines(s, id, ms, cb, recurring, now);
    case CancelOp(id) => CancelRefines(s, id);
    case RefreshOp(id) => RefreshRefines(s, id, now);
    case TakeOp(id, _, _, _) => TakeRefines(s, id);
    case PutBackOp(id, call) => PutBackRefines(s, id, h.resetting[call].ms, h.resetting[call].fromNow, now);
  }

  /** Whether it leaves the timer in the set, and whom a `cancel` that returns true is noted for. */
  lemma OwnPlace(h: History, op: Op, now: int)
    requires Formed(h) && Enabled(h, op, now) && Subject(op).Some? && !Spoils(h, op, now)
    ensures var g, id := Apply(h, op, now), op.id;
            && id in g.timers.recs
            && (op.NewOp? ==> (id in g.timers.members <==> now + op.ms * MS !in Deadlines(h.timers)))
            && (op.CancelOp? ==>
                  && id !in g.timers.members
                  && (id in g.cancelled <==> id in h.cancelled || h.timers.recs[id].cb.Some?))
            && (op.RefreshOp? ==>
                  var rec := h.timers.recs[id];
                  (id in g.timers.members <==>
                     if rec.cb.Some? && rec.next in Deadlines(h.timers)
                     then now + rec.ms * MS !in Deadlines(h.timers) - {rec.next} else id in h.timers.members))
            && (op.TakeOp? ==>
                  var rec := h.timers.recs[id];
                  var takes := rec.cb.Some? && rec.next in Deadlines(h.timers) && (op.fromNow || op.ms != rec.ms);
                  && (takes ==>
                        id !in g.timers.members && g.resetting == h.resetting[op.call := Args(id, op.ms, op.fromNow)])
                  && (!takes ==> g == h))
            && (op.PutBackOp? ==>
                  && g.resetting == h.resetting - {op.call}
                  && (id in g.timers.members <==>
                        id in h.timers.members || g.timers.recs[id].next !in Deadlines(h.timers)))
  {
    hide Ascending, LowerBound, Schedule, Insert, EraseKey, Occupied, KeysRead;
    var s := h.timers;
    match op
    case NewOp(id, ms, cb, recurring) => NewPlace(s, id, ms, cb, recurring, now);
    case CancelOp(id) => CancelRefines(s, id);
    case RefreshOp(id) =>
      RefreshRefines(s, id, now);
      if Refresh(s, id, now).1 { RefreshMembers(s, id, now); }
    case TakeOp(id, _, _, _) => TakeRefines(s, id);
    case PutBackOp(id, call) =>
      hide KeepsPlace, ResetInsert, Deadlines;
      var args := h.resetting[call];
      PutBackRefines(s, id, args.ms, args.fromNow, now);
      assert Apply(h, op, now).timers == ResetInsert(s, id, args.ms, args.fromNow, now).0;
  }

  lemma NewPlace(s: Timers, id: TimerId, ms: nat, cb: nat, recurring: bool, now: int)
    requires Valid(s) && id !in s.recs
    ensures var t := New(s, id, ms, cb, recurring, now).0;
            id in t.recs && (id in t.members <==> now + ms * MS !in Deadlines(s))
  {
    hide Ascending, LowerBound, Insert;
    var rec := Rec(ms, recurring, now + ms * MS, Some(cb));
    NotMember(s, id);
    OutsideFrame(s, id, rec);
    NewRefines(s, id, ms, cb, recurring, now);
    var u := s.(recs := s.recs[id := rec]);
    InsertMembers(u, id);
    assert New(s, id, ms, cb, recurring, now).0.members == Insert(u, id).0.members;
    assert Deadlines(u) == Deadlines(s);
  }

  /**
   Every operation keeps the set well formed unless it is the second section of a reset that spoils it; all
   keep the kind of every timer, and none revives a callback.
   */
  lemma ApplyEvolves(h: History, op: Op, now: int)
    requires Formed(h) && Enabled(h, op, now)
    ensures Formed(Apply(h, op, now)) <==> !Spoils(h, op, now)
    ensures Evolves(h, Apply(h, op, now))
  {
    hide Valid, Apply, Enabled, Spoils;
    ApplyValid(h, op, now);
    forall id | id in h.timers.recs
      ensures id in Apply(h, op, now).timers.recs
      ensures Apply(h, op, now).timers.recs[id].recurring == h.timers.recs[id].recurring
      ensures h.timers.recs[id].cb.None? ==> Apply(h, op, now).timers.recs[id].cb.None?
    {
      OneEvolves(h, op, now, id);
    }
  }

  lemma ApplyValid(h: History, op: Op, now: int)
    requires Formed(h) && Enabled(h, op, now)
    ensures Valid(Apply(h, op, now).timers) <==> !Spoils(h, op, now)
  {
    hide Valid, Ascending, LowerBound, Schedule, Deadlines, Insert, EraseKey, Occupied, Ends, Due, KeepsPlace;
    match op
    case NewOp(id, ms, cb, recurring) => NewSpares(h.timers, id, ms, cb, recurring, now);
    case NextOp => NextValid(h.timers, now);
    case ExpireOp(now2) =>
      var (s, rollover) := DetectRollover(h.timers, now2);
      ExpireMeaning(s, now, rollover);
    case _ => OwnEvolves(h, op, now);
  }

  lemma NextValid(s: Timers, now: int)
    requires Valid(s)
    ensures Valid(GetNext(s, now).0)
  {}

  lemma OneEvolves(h: History, op: Op, now: int, id: TimerId)
    requires Formed(h) && Enabled(h, op, now) && id in h.timers.recs
    ensures var g := Apply(h, op, now);
            && id in g.timers.recs
            && g.timers.recs[id].recurring == h.timers.recs[id].recurring
            && (h.timers.recs[id].cb.None? ==> g.timers.recs[id].cb.None?)
  {
    hide Valid, Ends, Expire, Due, New, Cancel, Refresh, ResetErase, ResetInsert, GetNext;
    if op.ExpireOp? {
      ExpireBystander(h, now, op.now2, id);
    } else if Subject(op) == Some(id) {
      OwnEvolves(h, op, now);
    } else {
      OthersRecord(h, op, now, id);
    }
  }

  /** The record of every other timer through an operation that emits nothing. */
  lemma OthersRecord(h: History, op: Op, now: int, id: TimerId)
    requires Formed(h) && Enabled(h, op, now) && !op.ExpireOp? && Subject(op) != Some(id) && id in h.timers.recs
    ensures var g := Apply(h, op, now);
            id in g.timers.recs && g.timers.recs[id] == h.timers.recs[id]
  {
    hide KeysRead;
    if op.PutBackOp? {
      var args := h.resetting[op.call];
      PutBackRefines(h.timers, op.id, args.ms, args.fromNow, now);
    } else {
      Bystander(h, op, now, id);
    }
  }

  // ---------------------------------------------------------------- emitted at most once

  ghost predicate Sound(h: History) {
    && Formed(h)
    && (forall i | 0 <= i < |h.emitted| :: h.emitted[i].rec.cb.Some?)
    && (forall i | 0 <= i < |h.emitted| :: h.emitted[i].id in h.timers.recs)
    && (forall i | 0 <= i < |h.emitted| && !h.timers.recs[h.emitted[i].id].recurring ::
          h.timers.recs[h.emitted[i].id].cb.None?)
    && (forall i, j | 0 <= i < j < |h.emitted| && h.emitted[i].id == h.emitted[j].id ::
          h.timers.recs[h.emitted[i].id].recurring)
    && (forall id | id in h.cancelled :: id in h.timers.recs && h.timers.recs[id].cb.None?)
  }

  lemma DistinctMembers(s: Timers)
    requires Valid(s)
    ensures forall i, j | 0 <= i < j < |s.members| :: s.members[i] != s.members[j]
  {
    assert forall i, j | 0 <= i < j < |s.members| :: s.keys[i] < s.keys[j];
  }

  /** What listExpireCb adds to the emissions. */
  lemma EmittedNow(h: History, now: int, now2: int)
    requires Formed(h) && Enabled(h, ExpireOp(now2), now)
    ensures var g, k := Apply(h, ExpireOp(now2), now), |h.emitted|;
            && h.emitted <= g.emitted
            && (forall i | k <= i < |g.emitted| ::
                  var e := g.emitted[i];
                  && Emits(h, ExpireOp(now2), now, e.id)
                  && e.id in h.timers.recs && e.id in g.timers.recs && e.rec == h.timers.recs[e.id] && e.rec.cb.Some?
                        && e.at == now
                  && g.timers.recs[e.id] == Spent(h.timers.recs[e.id], now))
            && (forall i, j | k <= i < j < |g.emitted| :: g.emitted[i].id != g.emitted[j].id)
            && (forall id | Emits(h, ExpireOp(now2), now, id) :: exists i ::
                  k <= i < |g.emitted| && g.emitted[i].id == id)
  {
    hide Ascending, Deadlines, Later, Renewed, Ends, Expire, Due, Valid;
    var (s, rollover) := DetectRollover(h.timers, now2);
    var n, g, k := Due(s, now, rollover), Apply(h, ExpireOp(now2), now), |h.emitted|;
    ExpireMeaning(s, now, rollover);
    DistinctMembers(s);
    forall i | k <= i < |g.emitted|
      ensures g.emitted[i] == Emission(s.members[i - k], s.recs[s.members[i - k]], now)
            && s.members[i - k] in s.members[..n]
      ensures s.members[i - k] in s.members
    {
      assert s.members[..n][i - k] == s.members[i - k];
    }
    forall id | Emits(h, ExpireOp(now2), now, id) ensures exists i :: k <= i < |g.emitted| && g.emitted[i].id == id {
      var i :| 0 <= i < n && s.members[..n][i] == id;
      assert g.emitted[k + i].id == id;
    }
  }

  lemma ExpireSound(h: History, now: int, now2: int)
    requires Sound(h) && Enabled(h, ExpireOp(now2), now)
    ensures Sound(Apply(h, ExpireOp(now2), now))
  {
    hide Formed, Enabled, Emits;
    var k, g := |h.emitted|, Apply(h, ExpireOp(now2), now);
    ApplyEvolves(h, ExpireOp(now2), now);
    EmittedNow(h, now, now2);
    SameCancelled(h, now, now2);
    assert forall i | 0 <= i < k :: g.emitted[i] == h.emitted[i];
    forall i, j | 0 <= i < j < |g.emitted| && g.emitted[i].id == g.emitted[j].id
      ensures g.timers.recs[g.emitted[i].id].recurring
    {
      // emitted earlier and live now, so it cannot be a one-shot timer
      assert i < k <= j ==> h.timers.recs[g.emitted[j].id].cb.Some?;
    }
  }

  lemma SameCancelled(h: History, now: int, now2: int)
    requires Enabled(h, ExpireOp(now2), now)
    ensures Apply(h, ExpireOp(now2), now).cancelled == h.cancelled
  {}

  /** The other operations emit nothing, and cancel at most their own timer, for good. */
  lemma NothingEmitted(h: History, op: Op, now: int)
    requires Formed(h) && Enabled(h, op, now) && !op.ExpireOp?
    ensures var g := Apply(h, op, now);
            && g.emitted == h.emitted
            && forall id | id in g.cancelled :: id in h.cancelled || (id in g.timers.recs && g.timers.recs[id].cb.None?)
  {
    hide Ascending, LowerBound, Schedule, Deadlines;
    if op.CancelOp? { CancelRefines(h.timers, op.id); }
  }

  lemma ApplySound(h: History, op: Op, now: int)
    requires Sound(h) && Enabled(h, op, now) && !Spoils(h, op, now)
    ensures Sound(Apply(h, op, now))
  {
    hide Formed, Enabled, Apply, Spoils;
    if op.ExpireOp? {
      ExpireSound(h, now, op.now2);
    } else {
      ApplyEvolves(h, op, now);
      NothingEmitted(h, op, now);
    }
  }

  ghost predicate Emitted(h: History, id: TimerId) {
    exists i :: 0 <= i < |h.emitted| && h.emitted[i].id == id
  }

  /** Only known timers are emitted; a one-shot timer has no callback afterwards. */
  lemma EmittedKnown(h: History, id: TimerId)
    requires Sound(h)
    ensures Emitted(h, id) ==> id in h.timers.recs && (!h.timers.recs[id].recurring ==> h.timers.recs[id].cb.None?)
  {}

  lemma MemberLive(h: History, id: TimerId)
    requires Sound(h)
    ensures id in h.timers.members ==> id in h.timers.recs && h.timers.recs[id].cb.Some?
  {}

  lemma KnownOf(h: History)
    requires Formed(h)
    ensures Known(h.timers)
  {}

  lemma NotErased(h: History, op: Op, key: int)
    ensures op.ExpireOp? ==> !Erases(h, op, key)
  {}

  /** The record of a timer through an operation that is not called on it. */
  lemma Untouched(h: History, op: Op, now: int, id: TimerId)
    requires Sound(h) && Enabled(h, op, now) && Subject(op) != Some(id)
    ensures var g := Apply(h, op, now);
            && (id !in h.timers.recs ==> id !in g.timers.recs && !Emits(h, op, now, id))
            && (id in h.timers.recs ==> id in g.timers.recs)
            && (id in h.timers.recs && !Emits(h, op, now, id) ==> g.timers.recs[id] == h.timers.recs[id])
            && (Emits(h, op, now, id) ==>
                  && id in h.timers.members && h.timers.recs[id].cb.Some?
                  && g.timers.recs[id] == Spent(h.timers.recs[id], now))
  {
    hide Apply, Enabled, Valid, Emits;
    if id in h.timers.recs {
      if op.ExpireOp? {
        ExpireBystander(h, now, op.now2, id);
      } else {
        OthersRecord(h, op, now, id);
      }
      EmitsExpires(h, op, now, id);
    } else {
      StaysUnknown(h, op, now, id);
    }
  }

  lemma NewRecord(h: History, id: TimerId, ms: nat, cb: nat, now: int)
    requires Formed(h) && Enabled(h, NewOp(id, ms, cb, false), now)
    ensures var g := Apply(h, NewOp(id, ms, cb, false), now);
            id in g.timers.recs && g.timers.recs[id] == Rec(ms, false, now + ms * MS, Some(cb))
  {
    NewSpares(h.timers, id, ms, cb, false, now);
  }

  lemma CancelRecord(h: History, id: TimerId)
    requires Formed(h) && Enabled(h, CancelOp(id), 0)
    ensures var g := Apply(h, CancelOp(id), 0);
            id in g.timers.recs && g.timers.recs[id] == h.timers.recs[id].(cb := None)
  {
    hide Valid, Schedule, Deadlines;
    CancelRefines(h.timers, id);
  }

  /** A new timer was not known, and its operation leaves all known ones alone. */
  lemma FreshKnown(h: History, op: Op, now: int, id: TimerId)
    requires Formed(h) && op.NewOp? && op.id == id && Enabled(h, op, now)
    ensures id !in h.timers.recs
    ensures forall m | m in h.timers.recs ::
              m in Apply(h, op, now).timers.recs && Apply(h, op, now).timers.recs[m] == h.timers.recs[m]
  {
    NewSpares(h.timers, id, op.ms, op.cb, op.recurring, now);
  }

  lemma EmitsExpires(h: History, op: Op, now: int, id: TimerId)
    requires Valid(h.timers) && Enabled(h, op, now)
    ensures Emits(h, op, now, id) ==>
          op.ExpireOp? && id in h.timers.members && id in h.timers.recs && h.timers.recs[id].cb.Some?
  {}

  lemma StaysUnknown(h: History, op: Op, now: int, id: TimerId)
    requires Formed(h) && Enabled(h, op, now) && Subject(op) != Some(id) && id !in h.timers.recs
    ensures id !in Apply(h, op, now).timers.recs && !Emits(h, op, now, id)
  {
    hide Ascending, LowerBound, Schedule, Deadlines;
    var s := h.timers;
    match op
    case NewOp(other, ms, cb, recurring) => NewRefines(s, other, ms, cb, recurring, now);
    case CancelOp(other) => CancelRefines(s, other);
    case RefreshOp(other) => RefreshRefines(s, other, now);
    case TakeOp(other, _, _, _) => TakeRefines(s, other);
    case PutBackOp(other, call) =>
      PutBackRefines(s, other, h.resetting[call].ms, h.resetting[call].fromNow, now);
    case NextOp =>
    case ExpireOp(now2) =>
      var (t, rollover) := DetectRollover(s, now2);
      ExpireMeaning(t, now, rollover);
  }

  /** What has been emitted after an operation, for one timer. */
  lemma EmittedAfter(h: History, op: Op, now: int, id: TimerId)
    requires Sound(h) && Enabled(h, op, now)
    ensures Emitted(Apply(h, op, now), id) <==> Emitted(h, id) || Emits(h, op, now, id)
    ensures forall i | 0 <= i < |Apply(h, op, now).emitted| && Apply(h, op, now).emitted[i].id == id ::
              (i < |h.emitted| && Apply(h, op, now).emitted[i] == h.emitted[i]) ||
              (Emits(h, op, now, id) && id in h.timers.recs && Apply(h, op, now).emitted[i].rec == h.timers.recs[id])
  {
    hide Apply, Enabled, Emits, Formed;
    var g := Apply(h, op, now);
    if op.ExpireOp? {
      EmittedNow(h, now, op.now2);
      assert forall i | 0 <= i < |h.emitted| :: g.emitted[i] == h.emitted[i];
    } else {
      NothingEmitted(h, op, now);
      OnlyExpiryEmits(h, op, now, id);
    }
  }

  lemma OnlyExpiryEmits(h: History, op: Op, now: int, id: TimerId)
    requires Enabled(h, op, now)
    ensures Emits(h, op, now, id) ==> op.ExpireOp?
  {}

  // ---------------------------------------------------------------- histories

  /** No second section of a reset spoils the set. */
  ghost predicate Legal(h: History, ops: seq<(Op, int)>)
    decreases |ops|
  {
    ops == [] ||
    (Enabled(h, ops[0].0, ops[0].1) && !Spoils(h, ops[0].0, ops[0].1) && Legal(Apply(h, ops[0].0, ops[0].1), ops[1..]))
  }

  ghost function Run(h: History, ops: seq<(Op, int)>): History
    requires Legal(h, ops)
    decreases |ops|
  {
    if ops == [] then h else Run(Apply(h, ops[0].0, ops[0].1), ops[1..])
  }

  /**
   Over every history the members are in strict deadline order with live callbacks, and one-shot timers are
   emitted at most once.
   */
  lemma {:induction false} OneShotOnce(h: History, ops: seq<(Op, int)>)
    requires Sound(h) && Legal(h, ops)
    ensures var g := Run(h, ops);
            && Sound(g)
            && h.emitted <= g.emitted
            && forall i, j | 0 <= i < j < |g.emitted| && g.emitted[i].id == g.emitted[j].id ::
                  g.timers.recs[g.emitted[i].id].recurring
    decreases |ops|
  {
    if ops != [] {
      ApplySound(h, ops[0].0, ops[0].1);
      OneShotOnce(Apply(h, ops[0].0, ops[0].1), ops[1..]);
    }
  }

  /** A timer without callback stays silent: after `cancel` returned true, whatever refresh or reset is called. */
  lemma {:induction false} SilentForever(h: History, ops: seq<(Op, int)>, id: TimerId)
    requires Sound(h) && Legal(h, ops) && id in h.timers.recs && h.timers.recs[id].cb.None?
    ensures var g := Run(h, ops);
            && h.emitted <= g.emitted
            && forall i | |h.emitted| <= i < |g.emitted| :: g.emitted[i].id != id
    decreases |ops|
  {
    if ops != [] {
      var (op, now) := ops[0];
      var g := Apply(h, op, now);
      ApplySound(h, op, now);
      ApplyEvolves(h, op, now);
      SilentForever(g, ops[1..], id);
      if op.ExpireOp? { SilentNow(h, now, op.now2, id); }
    }
  }

  lemma SilentNow(h: History, now: int, now2: int, id: TimerId)
    requires Sound(h) && Enabled(h, ExpireOp(now2), now) && id in h.timers.recs && h.timers.recs[id].cb.None?
    ensures var g := Apply(h, ExpireOp(now2), now);
            forall i | |h.emitted| <= i < |g.emitted| :: g.emitted[i].id != id
  {
    hide Enabled, Formed, Emits;
    EmittedNow(h, now, now2);
  }

  /** In one history: `cancel` of a live timer returns true, and nothing after it emits the timer. */
  lemma CancelSilences(h: History, id: TimerId, after: seq<(Op, int)>)
    requires Sound(h) && Enabled(h, CancelOp(id), 0) && h.timers.recs[id].cb.Some?
    requires Legal(Apply(h, CancelOp(id), 0), after)
    ensures Cancel(h.timers, id).1
    ensures var g := Run(Apply(h, CancelOp(id), 0), after);
            h.emitted <= g.emitted && forall i | |h.emitted| <= i < |g.emitted| :: g.emitted[i].id != id
  {
    var g := Apply(h, CancelOp(id), 0);
    ApplySound(h, CancelOp(id), 0);
    NothingEmitted(h, CancelOp(id), 0);
    CancelRefines(h.timers, id);
    SilentForever(g, after, id);
  }

  /** The two clauses of the promise, from a new manager on. */
  lemma CancelIsFinal(created: int, before: seq<(Op, int)>, after: seq<(Op, int)>, id: TimerId)
    requires Legal(Start(created), before)
    requires id in Run(Start(created), before).cancelled
    requires Legal(Run(Start(created), before), after)
    ensures var h, g := Run(Start(created), before), Run(Run(Start(created), before), after);
            h.emitted <= g.emitted && forall i | |h.emitted| <= i < |g.emitted| :: g.emitted[i].id != id
  {
    OneShotOnce(Start(created), before);
    SilentForever(Run(Start(created), before), after, id);
  }

  // ---------------------------------------------------------------- no early firing

  ghost predicate StartsRead(recs: map<TimerId, Rec>, readings: set<int>) {
    forall id | id in recs :: Started(recs[id]) in readings
  }

  /** Every timer was last started at a reading that has been taken, and every emission was due by the clock. */
  ghost predicate Punctual(h: History) {
    && StartsRead(h.timers.recs, h.readings)
    && (forall i | 0 <= i < |h.emitted| ::
          Started(h.emitted[i].rec) in h.readings && h.emitted[i].rec.next <= h.emitted[i].at)
  }

  /**
   The clock has not stepped back by more than an hour between two readings taken under the lock, which is
   what listExpireCb takes for a rollover; other readings may be as old as their thread is slow.
   */
  predicate NoRollover(h: History, op: Op) {
    op.ExpireOp? ==> h.timers.preTime - ROLLOVER <= op.now2
  }

  lemma ApplyPunctual(h: History, op: Op, now: int)
    requires Formed(h) && Punctual(h) && Enabled(h, op, now) && NoRollover(h, op)
    ensures Punctual(Apply(h, op, now))
  {
    if op.ExpireOp? {
      ExpirePunctual(h, now, op.now2);
    } else {
      hide Apply, Enabled, Formed;
      OneStart(h, op, now);
      NothingEmitted(h, op, now);
    }
  }

  /** Apart from expiry, an operation changes at most one timer, which keeps its start or takes the new reading. */
  lemma OneStart(h: History, op: Op, now: int)
    requires Formed(h) && Enabled(h, op, now) && !op.ExpireOp?
    ensures var g := Apply(h, op, now);
            && h.readings <= g.readings
            && forall id | id in g.timers.recs ::
                 (Started(g.timers.recs[id]) == now && now in g.readings)
                     || (id in h.timers.recs && Started(g.timers.recs[id]) == Started(h.timers.recs[id]))
  {
    hide Ascending, LowerBound, Schedule, Deadlines, Valid;
    var s := h.timers;
    match op
    case NewOp(id, ms, cb, recurring) => NewRefines(s, id, ms, cb, recurring, now);
    case CancelOp(id) => CancelRefines(s, id);
    case RefreshOp(id) => RefreshRefines(s, id, now);
    case TakeOp(id, _, _, _) => TakeRefines(s, id);
    case PutBackOp(id, call) =>
      PutBackRefines(s, id, h.resetting[call].ms, h.resetting[call].fromNow, now);
    case NextOp =>
  }

  lemma ExpirePunctual(h: History, now: int, now2: int)
    requires Formed(h) && Punctual(h) && Enabled(h, ExpireOp(now2), now) && NoRollover(h, ExpireOp(now2))
    ensures Punctual(Apply(h, ExpireOp(now2), now))
  {
    var (s, rollover) := DetectRollover(h.timers, now2);
    assert !rollover;
    var n, g := Due(s, now, false), Apply(h, ExpireOp(now2), now);
    ExpireMeaning(s, now, false);
    ExpireStarts(s, g.timers, n, now, h.readings);
    EmissionsDue(s, now, h.readings);
    assert h.readings <= g.readings;
  }

  /**
   A timer is emitted early exactly on a rollover that finds a deadline still to come: otherwise every
   emission was due by its reading.
   */
  lemma EarlyFiringIff(h: History, now: int, now2: int)
    requires Formed(h) && Enabled(h, ExpireOp(now2), now)
    ensures var g := Apply(h, ExpireOp(now2), now);
            (forall i | |h.emitted| <= i < |g.emitted| :: OnTime(g.emitted[i])) <==>
              NoRollover(h, ExpireOp(now2)) || forall d | d in Deadlines(h.timers) :: d <= now
  {
    hide Expire, Due, Ends, Ascending, Emissions, AllDue;
    var (s, rollover) := DetectRollover(h.timers, now2);
    var n := Due(s, now, rollover);
    EmissionKeys(s, n, now);
    AppendedDue(h.emitted, Emissions(s, n, now), Apply(h, ExpireOp(now2), now).emitted);
    DueByKeys(Emissions(s, n, now), s, n, now);
    AllDueIff(s, now, rollover);
    assert Deadlines(s) == Deadlines(h.timers);
  }

  predicate OnTime(e: Emission) { e.rec.next <= e.at }

  lemma AppendedDue(before: seq<Emission>, es: seq<Emission>, after: seq<Emission>)
    requires after == before + es
    ensures (forall i | |before| <= i < |after| :: OnTime(after[i])) <==> forall i | 0 <= i < |es| :: OnTime(es[i])
  {
    assert forall i | 0 <= i < |es| :: after[|before| + i] == es[i];
    assert forall i | |before| <= i < |after| :: after[i] == es[i - |before|];
  }

  lemma DueByKeys(es: seq<Emission>, s: Timers, n: nat, now: int)
    requires n <= |s.keys| && |es| == n
    requires forall i | 0 <= i < n :: es[i].rec.next == s.keys[i] && es[i].at == now
    ensures (forall i | 0 <= i < |es| :: OnTime(es[i])) <==> AllDue(s, n, now)
  {}

  /** The first `n` deadlines are due. */
  predicate AllDue(s: Timers, n: nat, now: int)
    requires n <= |s.keys|
  {
    forall i | 0 <= i < n :: s.keys[i] <= now
  }

  lemma EmissionKeys(s: Timers, n: nat, now: int)
    requires Valid(s) && n <= |s.members|
    ensures |Emissions(s, n, now)| == n
    ensures forall i | 0 <= i < n :: Emissions(s, n, now)[i].rec.next == s.keys[i] && Emissions(s, n, now)[i].at == now
  {}

  lemma AllDueIff(s: Timers, now: int, rollover: bool)
    requires Valid(s)
    ensures AllDue(s, Due(s, now, rollover), now) <==> !rollover || forall d | d in Deadlines(s) :: d <= now
  {
    DueIff(s, now, rollover);
    assert forall i | 0 <= i < |s.keys| :: s.keys[i] in Deadlines(s);
    if rollover && AllDue(s, |s.keys|, now) {
      forall d | d in Deadlines(s) ensures d <= now {
        var i :| 0 <= i < |s.keys| && s.keys[i] == d;
      }
    }
  }

  lemma ExpireStarts(s: Timers, t: Timers, n: nat, now: int, readings: set<int>)
    requires Known(s) && n <= |s.members| && t.recs.Keys == s.recs.Keys && StartsRead(s.recs, readings)
    requires forall i | 0 <= i < n :: t.recs[s.members[i]] == Spent(s.recs[s.members[i]], now)
    requires forall m | m in s.recs && m !in s.members[..n] :: t.recs[m] == s.recs[m]
    ensures StartsRead(t.recs, readings + {now})
  {
    forall id | id in t.recs ensures Started(t.recs[id]) in readings + {now} {
      SpentOrSame(s, t, n, now, id);
    }
  }

  lemma EmissionsDue(s: Timers, now: int, readings: set<int>)
    requires Valid(s) && StartsRead(s.recs, readings)
    ensures var es := Emissions(s, Due(s, now, false), now);
            forall i | 0 <= i < |es| :: Started(es[i].rec) in readings && es[i].rec.next <= es[i].at
  {
    DueIff(s, now, false);
  }

  ghost predicate NoRolloverRun(h: History, ops: seq<(Op, int)>)
    requires Legal(h, ops)
    decreases |ops|
  {
    ops == [] || (NoRollover(h, ops[0].0) && NoRolloverRun(Apply(h, ops[0].0, ops[0].1), ops[1..]))
  }

  /**
   Without a rollover every emitted timer had last been started at a clock reading
   taken before, and its whole period had passed since then.
   */
  lemma {:induction false} NoEarlyFiring(h: History, ops: seq<(Op, int)>)
    requires Sound(h) && Punctual(h) && Legal(h, ops) && NoRolloverRun(h, ops)
    ensures var g := Run(h, ops);
            && Punctual(g)
            && forall i | 0 <= i < |g.emitted| ::
                 var e := g.emitted[i];
                 Started(e.rec) in g.readings && e.at - Started(e.rec) >= e.rec.ms * MS
    decreases |ops|
  {
    hide Sound, Apply, Enabled;
    if ops != [] {
      var (op, now) := ops[0];
      FormedOf(h);
      ApplySound(h, op, now);
      ApplyPunctual(h, op, now);
      NoEarlyFiring(Apply(h, op, now), ops[1..]);
    }
  }

  lemma StartSound(created: int)
    ensures Sound(Start(created)) && Punctual(Start(created))
  {}

  lemma FormedOf(h: History)
    requires Sound(h)
    ensures Formed(h)
  {}

  // ---------------------------------------------------------------- one thread at a time on a timer

  /** A timer being reset is outside the set with its callback, and one call resets it. */
  ghost predicate Apart(h: History) {
    && (forall c | c in h.resetting ::
          var id := h.resetting[c].id;
          id in h.timers.recs && id !in h.timers.members && h.timers.recs[id].cb.Some?)
    && (forall c, d | c in h.resetting && d in h.resetting && h.resetting[c].id == h.resetting[d].id :: c == d)
  }

  /** No thread cancels, refreshes or resets a timer that another one is resetting. */
  ghost predicate Alone(h: History, op: Op) {
    op.CancelOp? || op.RefreshOp? || op.TakeOp? ==> forall c | c in h.resetting :: h.resetting[c].id != op.id
  }

  /** Then nothing is ever spoilt. */
  lemma AloneSpoilsNothing(h: History, op: Op, now: int)
    requires Formed(h) && Apart(h) && Enabled(h, op, now) && Alone(h, op)
    ensures !Spoils(h, op, now) && Apart(Apply(h, op, now))
  {
    var g := Apply(h, op, now);
    ResettingAfter(h, op, now);
    if op.PutBackOp? { assert op.call in h.resetting; }
    assert !Spoils(h, op, now);
    hide Valid, Enabled, Apply, Spoils;
    forall c | c in g.resetting
      ensures var id := g.resetting[c].id;
              id in g.timers.recs && id !in g.timers.members && g.timers.recs[id].cb.Some?
    {
      StaysApart(h, op, now, c);
    }
  }

  /** Which calls are between their sections after an operation. */
  lemma ResettingAfter(h: History, op: Op, now: int)
    requires Enabled(h, op, now)
    ensures var g := Apply(h, op, now);
            forall c | c in g.resetting ::
              if c in h.resetting then g.resetting[c] == h.resetting[c] && op != PutBackOp(h.resetting[c].id, c)
              else op.TakeOp? && g.resetting[c].id == op.id
    ensures op.PutBackOp? ==> op.call in h.resetting && h.resetting[op.call].id == op.id
  {}

  lemma StaysApart(h: History, op: Op, now: int, c: nat)
    requires Formed(h) && Apart(h) && Enabled(h, op, now) && Alone(h, op) && !Spoils(h, op, now)
    requires c in Apply(h, op, now).resetting
    ensures var g := Apply(h, op, now);
            var id := g.resetting[c].id;
            id in g.timers.recs && id !in g.timers.members && g.timers.recs[id].cb.Some?
  {
    ResettingAfter(h, op, now);
    if c in h.resetting {
      var id := h.resetting[c].id;
      assert Subject(op) != Some(id);
      hide *;
      StaysOutside(h, op, now, id);
    } else {
      assert ResetErase(h.timers, op.id).Some?;
      hide Valid, Ascending, LowerBound, Schedule, Deadlines;
      TakeRefines(h.timers, op.id);
    }
  }

  lemma StaysOutside(h: History, op: Op, now: int, id: TimerId)
    requires Formed(h) && Enabled(h, op, now) && !Spoils(h, op, now) && Subject(op) != Some(id)
    requires id in h.timers.recs && id !in h.timers.members
    ensures var g := Apply(h, op, now);
            id in g.timers.recs && id !in g.timers.members && g.timers.recs[id] == h.timers.recs[id]
  {
    hide Valid, Enabled, Apply, Emits, Spoils;
    EmitsExpires(h, op, now, id);
    if op.ExpireOp? {
      ExpireBystander(h, now, op.now2, id);
    } else {
      Bystander(h, op, now, id);
    }
  }

  // ---------------------------------------------------------------- what a history remembers

  /** The readings an operation takes. */
  ghost function Taken(op: Op, now: int): set<int> {
    match op
    case CancelOp(_) => {}
    case TakeOp(_, _, _, _) => {}
    case ExpireOp(now2) => {now, now2}
    case _ => {now}
  }

  ghost function AllTaken(ops: seq<(Op, int)>): set<int>
    decreases |ops|
  {
    if ops == [] then {} else Taken(ops[0].0, ops[0].1) + AllTaken(ops[1..])
  }

  /** The reading the last listExpireCb took under the lock, from which a rollover is told. */
  ghost function LastReading(first: int, ops: seq<(Op, int)>): int
    decreases |ops|
  {
    if ops == [] then first
    else LastReading(if ops[0].0.ExpireOp? then ops[0].0.now2 else first, ops[1..])
  }

  lemma {:induction false} Remembered(h: History, ops: seq<(Op, int)>)
    requires Formed(h) && Legal(h, ops)
    ensures Run(h, ops).readings == h.readings + AllTaken(ops)
    ensures Run(h, ops).timers.preTime == LastReading(h.timers.preTime, ops)
    decreases |ops|
  {
    hide Formed, Apply, Enabled, Spoils;
    if ops != [] {
      var (op, now) := ops[0];
      ApplyEvolves(h, op, now);
      RemembersOne(h, op, now);
      Remembered(Apply(h, op, now), ops[1..]);
    }
  }

  lemma RemembersOne(h: History, op: Op, now: int)
    requires Formed(h) && Enabled(h, op, now)
    ensures var g := Apply(h, op, now);
            && g.readings == h.readings + Taken(op, now)
            && g.timers.preTime == (if op.ExpireOp? then op.now2 else h.timers.preTime)
            && (op.NextOp? ==> g.timers == h.timers.(tickled := false))
            && (!op.NextOp? && h.timers.tickled ==> g.timers.tickled)
  {
    hide Ascending, LowerBound, Schedule, Deadlines, Insert, Occupied, KeysRead, KeepsPlace, Expire, Ends;
    if op.ExpireOp? {
      var (s, rollover) := DetectRollover(h.timers, op.now2);
      ExpireMeaning(s, now, rollover);
    } else if op.NewOp? {
      NewRefines(h.timers, op.id, op.ms, op.cb, op.recurring, now);
    } else if op.CancelOp? {
      CancelRefines(h.timers, op.id);
    } else if op.RefreshOp? {
      RefreshRefines(h.timers, op.id, now);
    } else if op.TakeOp? {
      TakeRefines(h.timers, op.id);
    } else if op.PutBackOp? {
      PutBackRefines(h.timers, op.id, h.resetting[op.call].ms, h.resetting[op.call].fromNow, now);
    }
  }

  /** listExpireCb emits exactly what is due, in deadline order, as it was. */
  lemma EmitsExactly(h: History, now: int, now2: int)
    requires Formed(h) && Enabled(h, ExpireOp(now2), now)
    ensures h.emitted <= Apply(h, ExpireOp(now2), now).emitted
    ensures var s, es := h.timers, Apply(h, ExpireOp(now2), now).emitted[|h.emitted|..];
            && |es| <= |s.members|
            && (forall i | 0 <= i < |s.members| ::
                  i < |es| <==> now2 + 3_600_000_000_000 < s.preTime || s.recs[s.members[i]].next <= now)
    ensures var s, es := h.timers, Apply(h, ExpireOp(now2), now).emitted[|h.emitted|..];
            forall i | 0 <= i < |es| :: es[i] == Emission(s.members[i], s.recs[s.members[i]], now)
  {
    hide Ascending, Ends, Expire, Due, Emissions, Valid;
    var (s, rollover) := DetectRollover(h.timers, now2);
    var n, g := Due(s, now, rollover), Apply(h, ExpireOp(now2), now);
    DetectMeaning(h.timers, now2);
    DueTimers(h.timers, now, rollover);
    SameDue(h.timers, s, now, rollover);
    EmissionsAre(s, n, now);
    var es := g.emitted[|h.emitted|..];
    assert es == Emissions(s, n, now);
    forall i | 0 <= i < |h.timers.members|
      ensures i < |es| <==>
            now2 + 3_600_000_000_000 < h.timers.preTime || h.timers.recs[h.timers.members[i]].next <= now
    {
      assert h.timers.members[i] in h.timers.recs;
    }
  }

  lemma SameDue(s: Timers, t: Timers, now: int, rollover: bool)
    requires Shaped(s) && t.members == s.members && t.keys == s.keys
    ensures Due(t, now, rollover) == Due(s, now, rollover)
  {}

  lemma DueTimers(s: Timers, now: int, rollover: bool)
    requires Valid(s)
    ensures forall i | 0 <= i < |s.members| ::
              s.members[i] in s.recs && (i < Due(s, now, rollover) <==> rollover || s.recs[s.members[i]].next <= now)
  {
    DueIff(s, now, rollover);
  }

  lemma EmissionsAre(s: Timers, n: nat, now: int)
    requires Known(s) && n <= |s.members|
    ensures |Emissions(s, n, now)| == n
    ensures forall i | 0 <= i < n :: Emissions(s, n, now)[i] == Emission(s.members[i], s.recs[s.members[i]], now)
  {}

  // ---------------------------------------------------------------- a cancel or a refresh inside a reset

  /**
   Cancel a timer between the sections of its reset: the cancel returns true, and the set is spoilt exactly
   when the new deadline is free. The timer is then a member again with no callback, and the turn of
   listExpireCb that takes it emits an empty one.
   */
  lemma ResetRaceExactly(s: Timers, id: TimerId, ms: nat, fromNow: bool, now: int)
    requires Valid(s) && id in s.recs && s.recs[id].cb.Some? && s.recs[id].next in Deadlines(s)
    ensures ResetErase(s, id).Some?
    ensures var t := ResetErase(s, id).value;
            && Cancel(t, id).1 && id in Cancel(t, id).0.recs
            && var u := ResetInsert(Cancel(t, id).0, id, ms, fromNow, now).0;
               && (Valid(u) <==> Restarted(s.recs[id], ms, fromNow, now).next in Deadlines(s) - {s.recs[id].next})
               && (!Valid(u) ==> id in u.members && id in u.recs && u.recs[id].cb.None?)
               && (!Valid(u) && Known(u) && u.members[0] == id ==> Turn(u, now).1 == None)
  {
    hide Ascending, LowerBound, Insert, EraseKey, ResetInsert, ResetErase, Cancel, Deadlines;
    TakeRefines(s, id);
    CancelledInBetween(ResetErase(s, id).value, id, ms, fromNow, now);
  }

  /** A set on which it happens. */
  lemma ResetRace()
    ensures var s := Timers([1], [500], map[1 := Rec(5, false, 500, Some(9))], false, 0);
            && Valid(s)
            && ResetErase(s, 1).Some?
            && var t := Cancel(ResetErase(s, 1).value, 1).0;
            && Known(t) && 1 in t.recs
            && !Valid(ResetInsert(t, 1, 6, true, 0).0)
  {
    hide ResetInsert, ResetErase, Cancel, Turn;
    var s := Timers([1], [500], map[1 := Rec(5, false, 500, Some(9))], false, 0);
    assert s.keys[0] == 500;
    ResetRaceExactly(s, 1, 6, true, 0);
    TakeRefines(s, 1);
    CancelRefines(ResetErase(s, 1).value, 1);
  }

  /**
   Refresh a timer between the sections of its reset, when another one has taken its old deadline: the
   refresh takes the other one out, and puts this one back exactly when its own new deadline is free. The
   second section then keeps the set well formed exactly when the timer keeps its place in the order.
   */
  lemma RefreshRaceExactly(s: Timers, id: TimerId, now: int, ms: nat, fromNow: bool, now2: int)
    requires Valid(s) && id in s.recs && id !in s.members && s.recs[id].cb.Some? && s.recs[id].next in Deadlines(s)
    ensures Refresh(s, id, now).1
    ensures var t, key := Refresh(s, id, now).0, now + s.recs[id].ms * MS;
            && Valid(t) && id in t.recs && t.recs[id].next == key
            && (id in t.members <==> key !in Deadlines(s) - {s.recs[id].next})
            && (Valid(ResetInsert(t, id, ms, fromNow, now2).0) <==>
                  id in t.members ==> KeepsPlace(t, id, Restarted(t.recs[id], ms, fromNow, now2).next))
  {
    hide Ascending, LowerBound, Insert, EraseKey, ResetInsert, Schedule, KeepsPlace;
    RefreshRefines(s, id, now);
    RefreshMembers(s, id, now);
    PutBackRefines(Refresh(s, id, now).0, id, ms, fromNow, now2);
  }

  /** Whether a refreshed timer is a member. */
  lemma RefreshMembers(s: Timers, id: TimerId, now: int)
    requires Valid(s) && id in s.recs && s.recs[id].cb.Some? && s.recs[id].next in Deadlines(s)
    ensures id in Refresh(s, id, now).0.members <==> now + s.recs[id].ms * MS !in Deadlines(s) - {s.recs[id].next}
  {
    hide Ascending, LowerBound, Insert, EraseKey, Schedule;
    var moved := s.recs[id].(next := now + s.recs[id].ms * MS);
    OccupiedIff(s.keys, s.recs[id].next);
    RekeySafe(s, id, moved);
    var t := EraseKey(s, s.recs[id].next);
    InsertMembers(t.(recs := t.recs[id := moved]), id);
  }

  /** A set on which the order breaks: timer 2 has taken the deadline of timer 1, which a refresh puts back. */
  lemma RefreshRace()
    ensures var s :=
          Timers([2, 3], [500, 2 * MS], map[1 := Rec(0, false, 500, Some(7)), 2 := Rec(0, false, 500, Some(8)),
                  3 := Rec(0, false, 2 * MS, Some(9))], false, 0);
            && Valid(s)
            && var t := Refresh(s, 1, 600).0;
               Shaped(t) && 1 in t.members && 1 in t.recs && !Valid(ResetInsert(t, 1, 5, true, 0).0)
  {
    hide ResetInsert, Refresh;
    var s := Timers([2, 3], [500, 2 * MS], map[1 := Rec(0, false, 500, Some(7)), 2 := Rec(0, false, 500, Some(8)),
                  3 := Rec(0, false, 2 * MS, Some(9))], false, 0);
    assert s.keys[0] == 500 && s.keys[1] == 2 * MS && s.members[0] == 2 && s.members[1] == 3;
    var t := Refresh(s, 1, 600).0;
    RefreshRaceExactly(s, 1, 600, 5, true, 0);
    RefreshRefines(s, 1, 600);
    assert 2 * MS in OtherDeadlines(t, 1);
  }
}
