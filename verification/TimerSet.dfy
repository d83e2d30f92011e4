/**
 The timer set of code/timer.cpp on values.

 The set is a `std::set` ordered by deadline only, so two timers with one deadline are one key:
 an insert at an occupied deadline is dropped, and a lookup finds whichever timer holds the deadline.
 `members` lists the set in iteration order, `keys` the deadlines of the members as the comparator reads
 them, and `recs` holds the fields of every timer object, inside the set or not. Clock readings
 count nanoseconds.
 */
module TimerSet {
  import opened Prelude

  /** The identity of a timer object. */
  type TimerId = nat

  const MS: int := 1_000_000
  const ALL_ONES: nat := 0xFFFF_FFFF_FFFF_FFFF
  const ROLLOVER: int := 60 * 60 * 1000 * MS
  const MAX_TIMEOUT: nat := 5000

  datatype Rec = Rec(ms: nat, recurring: bool, next: int, cb: Option<nat>)

  datatype Timers = Timers(members: seq<TimerId>, keys: seq<int>, recs: map<TimerId, Rec>, tickled: bool, preTime: int)

  /** When a timer was last started, by its own fields. */
  function Started(rec: Rec): int { rec.next - rec.ms * MS }

  predicate Shaped(s: Timers) { |s.keys| == |s.members| }

  ghost predicate Known(s: Timers) {
    && Shaped(s)
    && forall i | 0 <= i < |s.members| :: s.members[i] in s.recs
  }

  predicate Ascending(keys: seq<int>) {
    forall i, j | 0 <= i < j < |keys| :: keys[i] < keys[j]
  }

  /** What every operation of the manager keeps. */
  ghost predicate Valid(s: Timers) {
    && Known(s)
    && Ascending(s.keys)
    && (forall i | 0 <= i < |s.members| :: s.recs[s.members[i]].next == s.keys[i])
    && (forall m | m in s.members :: s.recs[m].cb.Some?)
  }

  /** The deadlines in the set. */
  ghost function Deadlines(s: Timers): set<int> {
    set k | k in s.keys
  }

  /** First position whose key is not below `key`. */
  function LowerBound(keys: seq<int>, key: int): (p: nat)
    ensures p <= |keys|
    ensures forall i | 0 <= i < p :: keys[i] < key
    ensures p < |keys| ==> key <= keys[p]
  {
    if keys == [] || key <= keys[0] then 0 else 1 + LowerBound(keys[1..], key)
  }

  predicate Occupied(keys: seq<int>, key: int) {
    var p := LowerBound(keys, key);
    p < |keys| && keys[p] == key
  }

  /** `std::set::insert`: the position of the key afterwards, dropping `id` when the key was there. */
  function Insert(s: Timers, id: TimerId): (r: (Timers, nat))
    requires Shaped(s) && id in s.recs
    ensures Shaped(r.0)
  {
    var key := s.recs[id].next;
    var p := LowerBound(s.keys, key);
    if Occupied(s.keys, key) then (s, p)
    else (s.(members := s.members[..p] + [id] + s.members[p..], keys := s.keys[..p] + [key] + s.keys[p..]), p)
  }

  /** `find` by the key of `id`, then `erase`: removes whichever timer holds that deadline. */
  function EraseKey(s: Timers, key: int): (r: Timers)
    requires Shaped(s)
    ensures Shaped(r) && r.recs == s.recs
  {
    var p := LowerBound(s.keys, key);
    if Occupied(s.keys, key)
        then s.(members := s.members[..p] + s.members[p + 1..], keys := s.keys[..p] + s.keys[p + 1..])
    else s
  }

  /** TimerManager::addTimer: the flag says whether `onTimerInsertedAtFront` is called. */
  function AddTimer(s: Timers, id: TimerId): (r: (Timers, bool))
    requires Shaped(s) && id in s.recs
    ensures Shaped(r.0)
  {
    var (t, p) := Insert(s, id);
    var atFront := p == 0 && !s.tickled;
    (t.(tickled := s.tickled || atFront), atFront)
  }

  function New(s: Timers, id: TimerId, ms: nat, cb: nat, recurring: bool, now: int): (r: (Timers, bool))
    requires Shaped(s)
    ensures Shaped(r.0)
  {
    AddTimer(s.(recs := s.recs[id := Rec(ms, recurring, now + ms * MS, Some(cb))]), id)
  }

  function Cancel(s: Timers, id: TimerId): (r: (Timers, bool))
    requires Shaped(s) && id in s.recs
    ensures Shaped(r.0)
  {
    if s.recs[id].cb.None? then (s, false)
    else (EraseKey(s.(recs := s.recs[id := s.recs[id].(cb := None)]), s.recs[id].next), true)
  }

  function Refresh(s: Timers, id: TimerId, now: int): (r: (Timers, bool))
    requires Shaped(s) && id in s.recs
    ensures Shaped(r.0)
  {
    var rec := s.recs[id];
    if rec.cb.None? || !Occupied(s.keys, rec.next) then (s, false)
    else
      var t := EraseKey(s, rec.next);
      // while its key changes a timer that is still a member would break the order: see RekeySafe
      (Rekey(t, id, rec.(next := now + rec.ms * MS)), true)
  }

  /** Give `id` new fields and insert it without telling the worker. */
  function Rekey(s: Timers, id: TimerId, rec: Rec): (r: Timers)
    requires Shaped(s)
    ensures Shaped(r)
  {
    Insert(s.(recs := s.recs[id := rec]), id).0
  }

  /** New period, counted from now or from when the timer was last started. */
  function Restarted(rec: Rec, ms: nat, fromNow: bool, now: int): Rec {
    var start := if fromNow then now else Started(rec);
    rec.(ms := ms, next := start + ms * MS)
  }

  /** Timer::reset up to the unlock: the set without the old key, or nothing when there is nothing to do. */
  function ResetErase(s: Timers, id: TimerId): (r: Option<Timers>)
    requires Shaped(s) && id in s.recs
    ensures r.Some? ==> Shaped(r.value) && r.value.recs == s.recs
  {
    if s.recs[id].cb.None? || !Occupied(s.keys, s.recs[id].next) then None
    else Some(EraseKey(s, s.recs[id].next))
  }

  /**
   The keys as the comparator reads them once the deadline of `id` is `key`: should the timer be a member, that
   of its own place changes under the set.
   */
  function KeysRead(s: Timers, id: TimerId, key: int): (keys: seq<int>)
    requires Shaped(s)
    ensures |keys| == |s.keys|
  {
    if id !in s.members then s.keys
    else seq(|s.keys|, i requires 0 <= i < |s.keys| => if s.members[i] == id then key else s.keys[i])
  }

  /**
   Timer::reset from the unlock on: new period and deadline, then addTimer. Where the change breaks the order
   of the set, Valid is false afterwards wherever the insert ends up.
   */
  function ResetInsert(s: Timers, id: TimerId, ms: nat, fromNow: bool, now: int): (r: (Timers, bool))
    requires Shaped(s) && id in s.recs
    ensures Shaped(r.0) && r.0.recs.Keys == s.recs.Keys
  {
    var rec := Restarted(s.recs[id], ms, fromNow, now);
    AddTimer(s.(keys := KeysRead(s, id, rec.next), recs := s.recs[id := rec]), id)
  }

  /** (set afterwards, return value, whether the worker is told) */
  function Reset(s: Timers, id: TimerId, ms: nat, fromNow: bool, now: int): (r: (Timers, bool, bool))
    requires Shaped(s) && id in s.recs
    ensures Shaped(r.0)
    ensures r.0.recs.Keys == s.recs.Keys
  {
    if ms == s.recs[id].ms && !fromNow then (s, true, false)
    else
      match ResetErase(s, id)
      case None => (s, false, false)
      case Some(t) =>
        var (u, atFront) := ResetInsert(t, id, ms, fromNow, now);
        (u, true, atFront)
  }

  /** getNextTimer: milliseconds to the first deadline, rounded down. */
  function NextTimeout(keys: seq<int>, now: int): (d: nat) {
    if keys == [] then ALL_ONES
    else if now >= keys[0] then 0
    else (keys[0] - now) / MS
  }

  function GetNext(s: Timers, now: int): (r: (Timers, nat))
    requires Shaped(s)
    ensures Shaped(r.0)
  {
    (s.(tickled := false), NextTimeout(s.keys, now))
  }

  function DetectRollover(s: Timers, now: int): (r: (Timers, bool)) {
    (s.(preTime := now), now < s.preTime - ROLLOVER)
  }

  /** The reading is remembered, and is a rollover exactly when it is more than an hour before the last one. */
  lemma DetectMeaning(s: Timers, now: int)
    ensures var (t, rollover) := DetectRollover(s, now);
            && t.preTime == now
            && (rollover <==> now + 3_600_000_000_000 < s.preTime)
            && t.members == s.members && t.keys == s.keys && t.recs == s.recs && t.tickled == s.tickled
  {}

  /** How long `idle` hands to epoll_wait. */
  function WaitMs(timeout: nat): (d: nat) {
    if timeout < MAX_TIMEOUT then timeout else MAX_TIMEOUT
  }

  // ---------------------------------------------------------------- lemmas on keys

  lemma {:induction false} LowerBoundUnique(keys: seq<int>, key: int, p: nat)
    requires p <= |keys|
    requires forall i | 0 <= i < p :: keys[i] < key
    requires p < |keys| ==> key <= keys[p]
    ensures p == LowerBound(keys, key)
  {
    if p > 0 {
      LowerBoundUnique(keys[1..], key, p - 1);
    }
  }

  lemma OccupiedIff(keys: seq<int>, key: int)
    requires Ascending(keys)
    ensures Occupied(keys, key) <==> key in keys
    ensures forall i | LowerBound(keys, key) <= i < |keys| :: key <= keys[i]
    ensures forall i | LowerBound(keys, key) < i < |keys| :: key < keys[i]
  {
    var p := LowerBound(keys, key);
    if p < |keys| {
      assert forall i | p < i < |keys| :: keys[p] < keys[i];
    }
  }

  /** Positions after an insert. */
  lemma PlacedAt<T>(xs: seq<T>, x: T, p: nat)
    requires p <= |xs|
    ensures var ys := xs[..p] + [x] + xs[p..];
            && |ys| == |xs| + 1 && ys[p] == x
            && (forall i | 0 <= i < |xs| :: ys[if i < p then i else i + 1] == xs[i])
            && (forall i | 0 <= i < |ys| && i != p :: ys[i] == xs[if i < p then i else i - 1])
            && (forall y :: y in ys <==> y in xs || y == x)
  {
    var ys := xs[..p] + [x] + xs[p..];
    forall y ensures y in ys <==> y in xs || y == x {
      assert xs == xs[..p] + xs[p..];
    }
  }

  /** Positions after an erase. */
  lemma RemovedAt<T>(xs: seq<T>, p: nat)
    requires p < |xs|
    ensures var ys := xs[..p] + xs[p + 1..];
            && |ys| == |xs| - 1
            && (forall i | 0 <= i < |ys| :: ys[i] == xs[if i < p then i else i + 1])
  {}

  lemma InsertSorted(keys: seq<int>, key: int)
    requires Ascending(keys) && key !in keys
    ensures var p := LowerBound(keys, key);
            var with := keys[..p] + [key] + keys[p..];
            Ascending(with) && forall k :: k in with <==> k in keys || k == key
  {
    OccupiedIff(keys, key);
    var p := LowerBound(keys, key);
    var with := keys[..p] + [key] + keys[p..];
    forall k ensures k in with <==> k in keys || k == key {
      assert keys == keys[..p] + keys[p..];
    }
  }

  lemma RemoveSorted(keys: seq<int>, p: nat)
    requires Ascending(keys) && p < |keys|
    ensures var without := keys[..p] + keys[p + 1..];
            Ascending(without) && forall k :: k in without <==> k in keys && k != keys[p]
  {
    RemovedAt(keys, p);
    RemoveAt(keys, p);
  }

  /** An insert at a free deadline, on members and on keys. */
  lemma InsertFree(s: Timers, id: TimerId)
    requires Shaped(s) && Ascending(s.keys) && id in s.recs && s.recs[id].next !in s.keys
    ensures var t, p := Insert(s, id).0, LowerBound(s.keys, s.recs[id].next);
            && Insert(s, id).1 == p
            && t == s.(members := s.members[..p] + [id] + s.members[p..],
                       keys := s.keys[..p] + [s.recs[id].next] + s.keys[p..])
  {
    OccupiedIff(s.keys, s.recs[id].next);
  }

  /** The same by position. */
  lemma InsertPositions(s: Timers, id: TimerId)
    requires Shaped(s) && Ascending(s.keys) && id in s.recs && s.recs[id].next !in s.keys
    ensures var t, p := Insert(s, id).0, LowerBound(s.keys, s.recs[id].next);
            && |t.members| == |t.keys| == |s.members| + 1 && Ascending(t.keys)
            && t.members[p] == id && t.keys[p] == s.recs[id].next
            && (forall i | 0 <= i < p :: t.members[i] == s.members[i] && t.keys[i] == s.keys[i])
            && (forall i | p < i < |t.members| :: t.members[i] == s.members[i - 1] && t.keys[i] == s.keys[i - 1])
            && t.recs == s.recs && t.tickled == s.tickled && t.preTime == s.preTime
  {
    InsertFree(s, id);
    InsertSorted(s.keys, s.recs[id].next);
  }

  /** An erase at an occupied deadline, on members and on keys. */
  lemma EraseFound(s: Timers, key: int)
    requires Shaped(s) && Ascending(s.keys) && key in s.keys
    ensures var t, p := EraseKey(s, key), LowerBound(s.keys, key);
            && p < |s.members| && s.keys[p] == key
            && t == s.(members := s.members[..p] + s.members[p + 1..], keys := s.keys[..p] + s.keys[p + 1..])
  {
    OccupiedIff(s.keys, key);
  }

  /** The same by position. */
  lemma ErasePositions(s: Timers, key: int)
    requires Shaped(s) && Ascending(s.keys) && key in s.keys
    ensures var t, p := EraseKey(s, key), LowerBound(s.keys, key);
            && p < |s.members| && s.keys[p] == key
            && |t.members| == |t.keys| == |s.members| - 1 && Ascending(t.keys)
            && (forall i | 0 <= i < p :: t.members[i] == s.members[i] && t.keys[i] == s.keys[i])
            && (forall i | p <= i < |t.members| :: t.members[i] == s.members[i + 1] && t.keys[i] == s.keys[i + 1])
            && t.recs == s.recs && t.tickled == s.tickled && t.preTime == s.preTime
  {
    EraseFound(s, key);
    RemoveSorted(s.keys, LowerBound(s.keys, key));
  }

  /** Only one member holds a deadline. */
  lemma UniqueKey(s: Timers, p: nat)
    requires Valid(s) && p < |s.members|
    ensures forall m | m in s.members :: s.recs[m].next == s.keys[p] <==> m == s.members[p]
  {
    forall m | m in s.members ensures s.recs[m].next == s.keys[p] <==> m == s.members[p] {
      var i :| 0 <= i < |s.members| && s.members[i] == m;
      assert s.keys[i] == s.recs[m].next;
    }
  }

  lemma RemoveAt<T>(xs: seq<T>, p: nat)
    requires p < |xs| && forall i | 0 <= i < |xs| && i != p :: xs[i] != xs[p]
    ensures forall x :: x in xs[..p] + xs[p + 1..] <==> x in xs && x != xs[p]
  {
    assert xs == xs[..p] + [xs[p]] + xs[p + 1..];
    forall x ensures x in xs[..p] + xs[p + 1..] <==> x in xs && x != xs[p] {
      if x in xs[p + 1..] {
        var i :| p < i < |xs| && xs[i] == x;
      }
    }
  }

  /** The members after an erase by key. */
  lemma EraseMembers(s: Timers, key: int)
    requires Valid(s)
    ensures forall m :: m in EraseKey(s, key).members <==> m in s.members && s.recs[m].next != key
  {
    OccupiedIff(s.keys, key);
    if key in s.keys {
      EraseFound(s, key);
      var p := LowerBound(s.keys, key);
      UniqueKey(s, p);
      forall i | 0 <= i < |s.members| && i != p ensures s.members[i] != s.members[p] {
        assert s.keys[i] != s.keys[p];
      }
      RemoveAt(s.members, p);
    } else {
      forall m | m in s.members ensures s.recs[m].next != key {
        var i :| 0 <= i < |s.members| && s.members[i] == m;
        assert s.keys[i] == s.recs[m].next;
      }
    }
  }
}
