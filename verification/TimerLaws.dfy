/**
 Laws of the timer operations: the invariant they keep, when they refine a plain map from timer to
 deadline, what the timeout means, and how successive resets compose.
 */
module TimerLaws {
  import opened Prelude
  import opened TimerSet

  /** The plain map a caller has in mind. */
  ghost function Schedule(s: Timers): map<TimerId, int>
    requires Known(s)
  {
    map m | m in s.members :: s.recs[m].next
  }

  lemma ScheduleDeadlines(s: Timers)
    requires Valid(s)
    ensures Schedule(s).Values == Deadlines(s)
  {
    forall k ensures k in Schedule(s).Values <==> k in Deadlines(s) {
      if k in Schedule(s).Values {
        var m :| m in Schedule(s) && Schedule(s)[m] == k;
        var i :| 0 <= i < |s.members| && s.members[i] == m;
        assert s.keys[i] == k;
      }
      if k in Deadlines(s) {
        var i :| 0 <= i < |s.members| && s.keys[i] == k;
        assert s.members[i] in Schedule(s);
      }
    }
  }

  // ---------------------------------------------------------------- one edit at a time

  /** Fields of a timer outside the set do not touch the set. */
  lemma OutsideFrame(s: Timers, id: TimerId, rec: Rec)
    requires Valid(s) && id !in s.members
    ensures var t := s.(recs := s.recs[id := rec]);
            Valid(t) && Schedule(t) == Schedule(s)
  {
    forall i | 0 <= i < |s.members| ensures s.members[i] != id {
      assert s.members[i] in s.members;
    }
  }

  /** Erasing an occupied deadline keeps the set well formed. */
  lemma EraseValid(s: Timers, key: int)
    requires Valid(s) && key in s.keys
    ensures Valid(EraseKey(s, key)) && Deadlines(EraseKey(s, key)) == Deadlines(s) - {key}
  {
    hide EraseKey, LowerBound, Ascending;
    EraseFound(s, key);
    ErasePositions(s, key);
    EraseMembers(s, key);
    RemoveSorted(s.keys, LowerBound(s.keys, key));
  }

  lemma EraseEdits(s: Timers, key: int)
    requires Valid(s)
    ensures var t := EraseKey(s, key);
            && Valid(t)
            && t.recs == s.recs && t.tickled == s.tickled && t.preTime == s.preTime
            && Schedule(t) == (map m | m in Schedule(s) && Schedule(s)[m] != key :: Schedule(s)[m])
            && Deadlines(t) == Deadlines(s) - {key}
  {
    OccupiedIff(s.keys, key);
    EraseMembers(s, key);
    if key in s.keys {
      EraseValid(s, key);
    }
  }

  /** Inserting a live timer at a free deadline keeps the set well formed. */
  lemma InsertValid(s: Timers, id: TimerId)
    requires Valid(s) && id in s.recs && s.recs[id].cb.Some? && s.recs[id].next !in s.keys
    ensures var t := Insert(s, id).0;
            && Valid(t)
            && Deadlines(t) == Deadlines(s) + {s.recs[id].next}
            && (forall m :: m in t.members <==> m in s.members || m == id)
  {
    hide Insert, LowerBound, Ascending;
    InsertFree(s, id);
    InsertPositions(s, id);
    InsertSorted(s.keys, s.recs[id].next);
    PlacedElements(s.members, id, LowerBound(s.keys, s.recs[id].next));
    ValidByMembers(s, Insert(s, id).0, id);
  }

  lemma PlacedElements<T>(xs: seq<T>, x: T, p: nat)
    requires p <= |xs|
    ensures forall y :: y in xs[..p] + [x] + xs[p..] <==> y in xs || y == x
  {
    PlacedAt(xs, x, p);
  }

  lemma ValidByMembers(s: Timers, t: Timers, id: TimerId)
    requires Valid(s) && id in s.recs && s.recs[id].cb.Some? && t.recs == s.recs
    requires Shaped(t) && Ascending(t.keys) && forall m | m in t.members :: m in s.members || m == id
    requires exists p :: 0 <= p < |t.members| && t.members[p] == id && t.keys[p] == s.recs[id].next
                      && (forall i | 0 <= i < p ::
                            i < |s.members| && t.members[i] == s.members[i] && t.keys[i] == s.keys[i])
                      && (forall i | p < i < |t.members| ::
                            i - 1 < |s.members| && t.members[i] == s.members[i - 1] && t.keys[i] == s.keys[i - 1])
    ensures Valid(t)
  {
    hide Ascending;
  }

  /** Inserting a live timer from outside; it is first exactly when no deadline is earlier. */
  lemma InsertEdits(s: Timers, id: TimerId)
    requires Valid(s) && id in s.recs && id !in s.members && s.recs[id].cb.Some?
    ensures var t, key := Insert(s, id).0, s.recs[id].next;
            && Valid(t)
            && t.recs == s.recs && t.tickled == s.tickled && t.preTime == s.preTime
            && Schedule(t) == (if key in Deadlines(s) then Schedule(s) else Schedule(s)[id := key])
            && Deadlines(t) == Deadlines(s) + {key}
            && (Insert(s, id).1 == 0 <==> forall k | k in Deadlines(s) :: key <= k)
  {
    hide Ascending, LowerBound;
    InsertFirst(s, id);
    if s.recs[id].next in s.keys {
      InsertTaken(s, id);
    } else {
      InsertFreeEdits(s, id);
    }
  }

  lemma InsertTaken(s: Timers, id: TimerId)
    requires Valid(s) && id in s.recs && s.recs[id].next in s.keys
    ensures Insert(s, id).0 == s && Deadlines(s) == Deadlines(s) + {s.recs[id].next}
  {
    OccupiedIff(s.keys, s.recs[id].next);
  }

  lemma InsertFreeEdits(s: Timers, id: TimerId)
    requires Valid(s) && id in s.recs && s.recs[id].next !in s.keys && s.recs[id].cb.Some?
    ensures var t, key := Insert(s, id).0, s.recs[id].next;
            && Valid(t)
            && t.recs == s.recs && t.tickled == s.tickled && t.preTime == s.preTime
            && Schedule(t) == Schedule(s)[id := key]
            && Deadlines(t) == Deadlines(s) + {key}
  {
    hide Ascending, LowerBound, Insert;
    InsertValid(s, id);
    InsertFree(s, id);
  }

  lemma InsertFirst(s: Timers, id: TimerId)
    requires Valid(s) && id in s.recs
    ensures Insert(s, id).1 == 0 <==> forall k | k in Deadlines(s) :: s.recs[id].next <= k
  {
    OccupiedIff(s.keys, s.recs[id].next);
    assert Insert(s, id).1 != 0 ==> s.keys[0] in Deadlines(s) && s.keys[0] < s.recs[id].next;
  }

  /** Insert through addTimer. */
  lemma AddEdits(s: Timers, id: TimerId)
    requires Valid(s) && id in s.recs && id !in s.members && s.recs[id].cb.Some?
    ensures var (t, atFront) := AddTimer(s, id);
            var key := s.recs[id].next;
            && Valid(t)
            && t.recs == s.recs && t.preTime == s.preTime
            && Schedule(t) == (if key in Deadlines(s) then Schedule(s) else Schedule(s)[id := key])
            && Deadlines(t) == Deadlines(s) + {key}
            && (atFront <==> !s.tickled && forall k | k in Deadlines(s) :: key <= k)
            && (t.tickled <==> s.tickled || atFront)
  {
    InsertEdits(s, id);
  }

  // ---------------------------------------------------------------- the operations

  /** A new timer is entered under its own deadline exactly when that deadline was free. */
  lemma NewRefines(s: Timers, id: TimerId, ms: nat, cb: nat, recurring: bool, now: int)
    requires Valid(s) && id !in s.recs
    ensures var (t, atFront) := New(s, id, ms, cb, recurring, now);
            var key := now + ms * 1_000_000;
            && Valid(t)
            && t.recs == s.recs[id := Rec(ms, recurring, key, Some(cb))] && t.preTime == s.preTime
            && Deadlines(t) == Deadlines(s) + {key}
            && (Schedule(t) == Schedule(s)[id := key] <==> key !in Deadlines(s))
            && (key in Deadlines(s) ==> Schedule(t) == Schedule(s))
            && (atFront <==> !s.tickled && forall k | k in Deadlines(s) :: key <= k)
            && (t.tickled <==> s.tickled || atFront)
  {
    var rec := Rec(ms, recurring, now + ms * MS, Some(cb));
    NotMember(s, id);
    OutsideFrame(s, id, rec);
    AddEdits(s.(recs := s.recs[id := rec]), id);
    assert id !in Schedule(s);
  }

  lemma NotMember(s: Timers, id: TimerId)
    requires Known(s) && id !in s.recs
    ensures id !in s.members
  {}

  /**
   `cancel` of a live timer removes just that timer exactly when it is a member or nobody holds its
   deadline; a timer whose insert was dropped takes the other holder out instead.
   */
  lemma CancelRefines(s: Timers, id: TimerId)
    requires Valid(s) && id in s.recs
    ensures var (t, done) := Cancel(s, id);
            && Valid(t)
            && (done <==> s.recs[id].cb.Some?)
            && (!done ==> t == s)
            && t.recs == s.recs[id := s.recs[id].(cb := None)]
            && t.tickled == s.tickled && t.preTime == s.preTime
            && id !in t.members
            && (done ==> Deadlines(t) == Deadlines(s) - {s.recs[id].next})
            && (done ==> (Schedule(t) == Schedule(s) - {id} <==> id in s.members || s.recs[id].next !in Deadlines(s)))
  {
    if s.recs[id].cb.Some? {
      CancelLive(s, id);
    } else {
      assert s.recs == s.recs[id := s.recs[id].(cb := None)];
    }
  }

  lemma CancelLive(s: Timers, id: TimerId)
    requires Valid(s) && id in s.recs && s.recs[id].cb.Some?
    ensures var t, key := Cancel(s, id).0, s.recs[id].next;
            && Valid(t) && id !in t.members
            && Deadlines(t) == Deadlines(s) - {key}
            && (Schedule(t) == Schedule(s) - {id} <==> id in s.members || key !in Deadlines(s))
  {
    hide Ascending, LowerBound;
    var key := s.recs[id].next;
    EraseEdits(s, key);
    HolderOfKey(s, id);
    var u := EraseKey(s, key);
    assert id !in Schedule(u);
    OutsideFrame(u, id, s.recs[id].(cb := None));
    if id !in s.members && key in Deadlines(s) {
      var v :| v in Schedule(s) && Schedule(s)[v] == key;
      assert v !in Schedule(u);
      assert v in Schedule(s) - {id};
    } else {
      assert Schedule(u) == Schedule(s) - {id};
    }
  }

  /** A member is the only holder of its deadline; a deadline in the set has a holder. */
  lemma HolderOfKey(s: Timers, id: TimerId)
    requires Valid(s) && id in s.recs
    ensures id in s.members ==> forall m | m in s.members && s.recs[m].next == s.recs[id].next :: m == id
    ensures id in s.members ==> s.recs[id].next in Deadlines(s)
    ensures s.recs[id].next in Deadlines(s) ==> exists u :: u in Schedule(s) && Schedule(s)[u] == s.recs[id].next
    ensures Occupied(s.keys, s.recs[id].next) <==> s.recs[id].next in Deadlines(s)
  {
    OccupiedIff(s.keys, s.recs[id].next);
    if id in s.members {
      var p :| 0 <= p < |s.members| && s.members[p] == id;
      UniqueKey(s, p);
      assert s.keys[p] in s.keys;
    }
    if s.recs[id].next in Deadlines(s) {
      var i :| 0 <= i < |s.members| && s.keys[i] == s.recs[id].next;
      assert s.members[i] in Schedule(s);
    }
  }

  /** The set between the erase and the insert of `refresh` and `reset`: `id` is outside it. */
  lemma RekeySafe(s: Timers, id: TimerId, rec: Rec)
    requires Valid(s) && id in s.recs && s.recs[id].next in Deadlines(s) && rec.cb.Some?
    ensures var t := EraseKey(s, s.recs[id].next);
            var u := t.(recs := t.recs[id := rec]);
            && Valid(u)
            && id !in u.members
            && u.recs == s.recs[id := rec] && u.tickled == s.tickled && u.preTime == s.preTime
            && Deadlines(u) == Deadlines(s) - {s.recs[id].next}
            && (id in s.members ==> Schedule(u) == Schedule(s) - {id})
            && (id !in s.members ==> exists v :: v in Schedule(s) && v != id && v !in Schedule(u))
            && Schedule(u).Keys <= Schedule(s).Keys
  {
    hide Ascending, LowerBound;
    EraseEdits(s, s.recs[id].next);
    HolderOfKey(s, id);
    var t := EraseKey(s, s.recs[id].next);
    OutsideFrame(t, id, rec);
    if id !in s.members {
      var v :| v in Schedule(s) && Schedule(s)[v] == s.recs[id].next;
    }
  }

  /**
   A live timer has been taken out by its deadline and entered again under the fields `moved`. Just this
   timer moved exactly when it was itself the holder of its deadline and the new deadline was free.
   */
  ghost predicate Rekeyed(s: Timers, t: Timers, id: TimerId, moved: Rec)
    requires Known(s) && id in s.recs
  {
    && Valid(t)
    && t.recs == s.recs[id := moved]
    && t.preTime == s.preTime
    && Deadlines(t) == Deadlines(s) - {s.recs[id].next} + {moved.next}
    && (Schedule(t) == Schedule(s)[id := moved.next] <==>
        id in s.members && moved.next !in Deadlines(s) - {s.recs[id].next})
  }

  lemma RekeyEffect(s: Timers, id: TimerId, moved: Rec)
    requires Valid(s) && id in s.recs && s.recs[id].next in Deadlines(s) && moved.cb.Some?
    ensures var t := EraseKey(s, s.recs[id].next);
            var u := t.(recs := t.recs[id := moved]);
            && Rekeyed(s, Insert(u, id).0, id, moved) && Insert(u, id).0.tickled == s.tickled
            && (Insert(u, id).1 == 0 <==> forall k | k in Deadlines(s) - {s.recs[id].next} :: moved.next <= k)
  {
    RekeySafe(s, id, moved);
    var t := EraseKey(s, s.recs[id].next);
    var u := t.(recs := t.recs[id := moved]);
    InsertEdits(u, id);
    MovedEntry(s, u, Insert(u, id).0, id, moved.next);
  }

  /** When the re-inserted timer ends up as the one changed entry of the map. */
  lemma MovedEntry(s: Timers, u: Timers, t: Timers, id: TimerId, key: int)
    requires Known(s) && Known(u) && Known(t) && id !in u.members
    requires id in s.members ==> Schedule(u) == Schedule(s) - {id}
    requires id !in s.members ==> exists v :: v in Schedule(s) && v != id && v !in Schedule(u)
    requires Schedule(t) == if key in Deadlines(u) then Schedule(u) else Schedule(u)[id := key]
    ensures Schedule(t) == Schedule(s)[id := key] <==> id in s.members && key !in Deadlines(u)
  {
    if id !in s.members {
      var v :| v in Schedule(s) && v != id && v !in Schedule(u);
      assert v !in Schedule(t);
      assert v in Schedule(s)[id := key];
    } else if key in Deadlines(u) {
      assert id !in Schedule(t);
      assert id in Schedule(s)[id := key];
    } else {
      assert Schedule(u)[id := key] == Schedule(s)[id := key];
    }
  }

  /** `refresh` succeeds exactly when some member holds the timer's deadline; it then re-enters it from now. */
  lemma RefreshRefines(s: Timers, id: TimerId, now: int)
    requires Valid(s) && id in s.recs
    ensures var (t, done) := Refresh(s, id, now);
            && (done <==> s.recs[id].cb.Some? && s.recs[id].next in Deadlines(s))
            && (!done ==> t == s)
            && (done ==> Rekeyed(s, t, id, s.recs[id].(next := now + s.recs[id].ms * MS)) && t.tickled == s.tickled)
  {
    hide Rekeyed, Schedule, EraseKey, Insert, LowerBound, Ascending;
    OccupiedIff(s.keys, s.recs[id].next);
    if s.recs[id].cb.Some? && s.recs[id].next in Deadlines(s) {
      RefreshMoves(s, id, now);
    }
  }

  lemma RefreshMoves(s: Timers, id: TimerId, now: int)
    requires Valid(s) && id in s.recs && s.recs[id].next in Deadlines(s) && s.recs[id].cb.Some?
    ensures var t := Refresh(s, id, now).0;
            Rekeyed(s, t, id, s.recs[id].(next := now + s.recs[id].ms * MS)) && t.tickled == s.tickled
  {
    hide Rekeyed, Insert, EraseKey, Schedule;
    OccupiedIff(s.keys, s.recs[id].next);
    RekeyEffect(s, id, s.recs[id].(next := now + s.recs[id].ms * MS));
  }

  /** A refresh that finds its deadline held, as the two edits it makes. */
  lemma RefreshValid(s: Timers, id: TimerId, now: int)
    requires Valid(s) && id in s.recs && s.recs[id].cb.Some? && Occupied(s.keys, s.recs[id].next)
    ensures var rec := s.recs[id];
            var t := EraseKey(s, rec.next);
            var u := t.(recs := t.recs[id := rec.(next := now + rec.ms * MS)]);
            && Refresh(s, id, now) == (Insert(u, id).0, true)
            && Valid(Insert(u, id).0)
  {
    hide Insert, Ascending, LowerBound;
    OccupiedIff(s.keys, s.recs[id].next);
    RefreshMoves(s, id, now);
  }

  /**
   `reset` succeeds exactly when nothing is to change or some member holds the timer's deadline; it then
   re-enters the timer with the new period, counted from now or from when it was last started, telling the
   worker exactly when it comes first and nobody has been told yet.
   */
  lemma ResetRefines(s: Timers, id: TimerId, ms: nat, fromNow: bool, now: int)
    requires Valid(s) && id in s.recs
    ensures var (t, done, atFront) := Reset(s, id, ms, fromNow, now);
            var rec := s.recs[id];
            var moved := rec.(ms := ms, next := (if fromNow then now else rec.next - rec.ms * MS) + ms * MS);
            var early := ms == rec.ms && !fromNow;
            && (done <==> early || (rec.cb.Some? && rec.next in Deadlines(s)))
            && (early || !done ==> t == s && !atFront)
            && (done && !early ==>
                && Rekeyed(s, t, id, moved)
                && (t.tickled <==> s.tickled || atFront)
                && (atFront <==> !s.tickled && forall k | k in Deadlines(s) - {rec.next} :: moved.next <= k))
  {
    hide Rekeyed, Schedule, ResetInsert, EraseKey, LowerBound;
    OccupiedIff(s.keys, s.recs[id].next);
    if !(ms == s.recs[id].ms && !fromNow) && s.recs[id].cb.Some? && s.recs[id].next in Deadlines(s) {
      ResetMoves(s, id, ms, fromNow, now);
    }
  }

  lemma ResetMoves(s: Timers, id: TimerId, ms: nat, fromNow: bool, now: int)
    requires Valid(s) && id in s.recs && s.recs[id].next in Deadlines(s) && s.recs[id].cb.Some?
    ensures var (v, atFront) := ResetInsert(EraseKey(s, s.recs[id].next), id, ms, fromNow, now);
            var moved := Restarted(s.recs[id], ms, fromNow, now);
            && Rekeyed(s, v, id, moved)
            && (v.tickled <==> s.tickled || atFront)
            && (atFront <==> !s.tickled && forall k | k in Deadlines(s) - {s.recs[id].next} :: moved.next <= k)
  {
    hide Insert, Ascending, LowerBound;
    RekeySafe(s, id, Restarted(s.recs[id], ms, fromNow, now));
    RekeyEffect(s, id, Restarted(s.recs[id], ms, fromNow, now));
  }

  // ---------------------------------------------------------------- the two critical sections of reset

  /** The members after an insert: `id` exactly when its deadline was free. */
  lemma InsertMembers(s: Timers, id: TimerId)
    requires Valid(s) && id in s.recs
    ensures forall m :: m in Insert(s, id).0.members <==>
          m in s.members || (m == id && s.recs[id].next !in Deadlines(s))
  {
    OccupiedIff(s.keys, s.recs[id].next);
    if s.recs[id].next !in s.keys {
      InsertFree(s, id);
      PlacedAt(s.members, id, LowerBound(s.keys, s.recs[id].next));
    }
  }

  /** The first section takes the holder of the deadline out; the timer itself is then outside. */
  lemma TakeRefines(s: Timers, id: TimerId)
    requires Valid(s) && id in s.recs
    ensures ResetErase(s, id).Some? <==> s.recs[id].cb.Some? && s.recs[id].next in Deadlines(s)
    ensures ResetErase(s, id).Some? ==>
              var t := ResetErase(s, id).value;
              && Valid(t) && id !in t.members && t.recs == s.recs && t.tickled == s.tickled && t.preTime == s.preTime
              && Deadlines(t) == Deadlines(s) - {s.recs[id].next}
              && (forall m :: m in t.members <==> m in s.members && s.recs[m].next != s.recs[id].next)
  {
    hide Ascending, LowerBound, Schedule;
    OccupiedIff(s.keys, s.recs[id].next);
    EraseMembers(s, s.recs[id].next);
    EraseEdits(s, s.recs[id].next);
  }

  /** The deadlines of the other members. */
  ghost function OtherDeadlines(s: Timers, id: TimerId): set<int>
    requires id in s.recs
  {
    Deadlines(s) - if id in s.members then {s.recs[id].next} else {}
  }

  /** A member that takes this deadline passes no other member and meets none. */
  ghost predicate KeepsPlace(s: Timers, id: TimerId, key: int)
    requires id in s.recs
  {
    forall k | k in OtherDeadlines(s, id) :: k != key && (k < key <==> k < s.recs[id].next)
  }

  /**
   The second section, wherever the timer is by then. If it is outside, the set stays well formed exactly
   when the timer still has its callback or its new deadline is taken, so that it is dropped; if another
   thread has put it back, exactly when it keeps its place in the order.
   */
  lemma PutBackRefines(s: Timers, id: TimerId, ms: nat, fromNow: bool, now: int)
    requires Valid(s) && id in s.recs
    ensures var (t, atFront) := ResetInsert(s, id, ms, fromNow, now);
            var rec := s.recs[id];
            var moved := rec.(ms := ms, next := (if fromNow then now else rec.next - rec.ms * MS) + ms * MS);
            && (Valid(t) <==> if id in s.members then KeepsPlace(s, id, moved.next)
                              else s.recs[id].cb.Some? || moved.next in Deadlines(s))
            && t.recs == s.recs[id := moved] && t.preTime == s.preTime
    ensures var (t, atFront) := ResetInsert(s, id, ms, fromNow, now);
            var rec := s.recs[id];
            var moved := rec.(ms := ms, next := (if fromNow then now else rec.next - rec.ms * MS) + ms * MS);
            (id in s.members ==> KeepsPlace(s, id, moved.next)) ==>
                  && Deadlines(t) == OtherDeadlines(s, id) + {moved.next}
                  && (forall m :: m in t.members <==> m in s.members || (m == id && moved.next !in Deadlines(s)))
                  && (t.tickled <==> s.tickled || atFront)
                  && (atFront <==> !s.tickled && forall k | k in OtherDeadlines(s, id) :: moved.next <= k)
  {
    hide Ascending, LowerBound, Insert, Schedule, KeysRead;
    if id in s.members {
      PutBackInside(s, id, ms, fromNow, now);
    } else {
      PutBackOutside(s, id, ms, fromNow, now);
    }
  }

  lemma PutBackOutside(s: Timers, id: TimerId, ms: nat, fromNow: bool, now: int)
    requires Valid(s) && id in s.recs && id !in s.members
    ensures var (t, atFront) := ResetInsert(s, id, ms, fromNow, now);
            var moved := Restarted(s.recs[id], ms, fromNow, now);
            && (Valid(t) <==> s.recs[id].cb.Some? || moved.next in Deadlines(s))
            && t.recs == s.recs[id := moved] && t.preTime == s.preTime
            && Deadlines(t) == Deadlines(s) + {moved.next}
            && (forall m :: m in t.members <==> m in s.members || (m == id && moved.next !in Deadlines(s)))
            && (t.tickled <==> s.tickled || atFront)
            && (atFront <==> !s.tickled && forall k | k in Deadlines(s) :: moved.next <= k)
  {
    hide Ascending, LowerBound, Insert, Schedule;
    var moved := Restarted(s.recs[id], ms, fromNow, now);
    var u := s.(recs := s.recs[id := moved]);
    OutsideFrame(s, id, moved);
    InsertFirst(u, id);
    InsertMembers(u, id);
    if moved.next in Deadlines(s) {
      InsertTaken(u, id);
    } else {
      FreeDeadline(u, id);
      if moved.cb.Some? { InsertValid(u, id); }
    }
  }

  /** The fields of a member change, and addTimer then finds the member itself or a broken order. */
  lemma PutBackInside(s: Timers, id: TimerId, ms: nat, fromNow: bool, now: int)
    requires Valid(s) && id in s.members
    ensures var (t, atFront) := ResetInsert(s, id, ms, fromNow, now);
            var moved := Restarted(s.recs[id], ms, fromNow, now);
            && (Valid(t) <==> KeepsPlace(s, id, moved.next))
            && t.recs == s.recs[id := moved] && t.preTime == s.preTime
    ensures var (t, atFront) := ResetInsert(s, id, ms, fromNow, now);
            var moved := Restarted(s.recs[id], ms, fromNow, now);
            KeepsPlace(s, id, moved.next) ==>
                  && Deadlines(t) == OtherDeadlines(s, id) + {moved.next}
                  && t.members == s.members
                  && (t.tickled <==> s.tickled || atFront)
                  && (atFront <==> !s.tickled && forall k | k in OtherDeadlines(s, id) :: moved.next <= k)
  {
    hide Ascending, LowerBound, Insert, Schedule, KeysRead, KeepsPlace;
    var moved := Restarted(s.recs[id], ms, fromNow, now);
    var u := s.(keys := KeysRead(s, id, moved.next), recs := s.recs[id := moved]);
    RekeyedInside(s, u, id, moved);
    if Ascending(u.keys) {
      InsertFirst(u, id);
      InsertTaken(u, id);
    } else {
      StaysBroken(u, id);
    }
  }

  lemma RekeyedInside(s: Timers, u: Timers, id: TimerId, moved: Rec)
    requires Valid(s) && id in s.members && moved.cb == s.recs[id].cb
    requires u == s.(keys := KeysRead(s, id, moved.next), recs := s.recs[id := moved])
    ensures Valid(u) <==> Ascending(u.keys)
    ensures Ascending(u.keys) <==> KeepsPlace(s, id, moved.next)
    ensures moved.next in u.keys && Deadlines(u) == OtherDeadlines(s, id) + {moved.next}
  {
    hide Ascending, KeysRead;
    var p :| 0 <= p < |s.members| && s.members[p] == id;
    OnlyAt(s, p);
    assert u.keys == s.keys[p := moved.next] by { ReadAt(s, p, moved.next); }
    ReplacedAt(s.keys, p, moved.next);
    assert s.recs[id].next == s.keys[p];
    forall k ensures k in OtherDeadlines(s, id) <==> k in s.keys && k != s.keys[p] {
      assert k in Deadlines(s) <==> k in s.keys;
    }
    forall k ensures k in Deadlines(u) <==> k in OtherDeadlines(s, id) || k == moved.next {
      assert k in Deadlines(u) <==> k in s.keys[p := moved.next];
      assert k in OtherDeadlines(s, id) <==> k in s.keys && k != s.keys[p];
    }
  }

  lemma ReadAt(s: Timers, p: nat, key: int)
    requires Valid(s) && p < |s.members|
    ensures KeysRead(s, s.members[p], key) == s.keys[p := key]
  {
    OnlyAt(s, p);
  }

  /** A member sits at one position. */
  lemma OnlyAt(s: Timers, p: nat)
    requires Valid(s) && p < |s.members|
    ensures forall i | 0 <= i < |s.members| && i != p :: s.members[i] != s.members[p]
  {
    assert forall i | 0 <= i < |s.members| && i != p :: s.keys[i] != s.keys[p];
  }

  lemma ReplacedAt(keys: seq<int>, p: nat, key: int)
    requires Ascending(keys) && p < |keys|
    ensures Ascending(keys[p := key]) <==>
            forall k | k in keys && k != keys[p] :: k != key && (k < key <==> k < keys[p])
    ensures forall k :: k in keys[p := key] <==> (k in keys && k != keys[p]) || k == key
  {
    var with := keys[p := key];
    assert with[p] == key;
    assert forall i | 0 <= i < |keys| && i != p :: with[i] == keys[i] && keys[i] in keys;
  }

  /** No insert mends a broken order. */
  lemma StaysBroken(s: Timers, id: TimerId)
    requires Shaped(s) && id in s.recs && !Ascending(s.keys)
    ensures var t := Insert(s, id).0;
            !Ascending(t.keys) && t.recs == s.recs && t.preTime == s.preTime
  {
    hide Ascending, LowerBound;
    BrokenWith(s.keys, s.recs[id].next, LowerBound(s.keys, s.recs[id].next));
  }

  lemma BrokenWith(keys: seq<int>, key: int, p: nat)
    requires p <= |keys| && !Ascending(keys)
    ensures !Ascending(keys[..p] + [key] + keys[p..])
  {
    var i, j :| 0 <= i < j < |keys| && keys[i] >= keys[j];
    var with := keys[..p] + [key] + keys[p..];
    var i', j' := if i < p then i else i + 1, if j < p then j else j + 1;
    assert with[i'] == keys[i] && with[j'] == keys[j];
  }

  lemma FreeDeadline(s: Timers, id: TimerId)
    requires Valid(s) && id in s.recs && s.recs[id].next !in Deadlines(s)
    ensures var t := Insert(s, id).0;
            && Deadlines(t) == Deadlines(s) + {s.recs[id].next}
            && t.recs == s.recs && t.tickled == s.tickled && t.preTime == s.preTime
  {
    InsertFree(s, id);
    InsertSorted(s.keys, s.recs[id].next);
  }

  /**
   A cancel between the two sections returns true, and then the timer comes back with no callback exactly
   when its new deadline is free; the set is well formed exactly when it does not.
   */
  lemma CancelledInBetween(s: Timers, id: TimerId, ms: nat, fromNow: bool, now: int)
    requires Valid(s) && id in s.recs && id !in s.members && s.recs[id].cb.Some? && s.recs[id].next !in Deadlines(s)
    ensures var (t, done) := Cancel(s, id);
            && done && id in t.recs
            && var u := ResetInsert(t, id, ms, fromNow, now).0;
               && id in u.recs && u.recs[id].cb.None?
               && (id in u.members <==> Restarted(s.recs[id], ms, fromNow, now).next !in Deadlines(s))
               && (Valid(u) <==> id !in u.members)
  {
    hide Ascending, LowerBound, Insert, EraseKey, ResetInsert;
    CancelRefines(s, id);
    PutBackRefines(Cancel(s, id).0, id, ms, fromNow, now);
  }

  // ---------------------------------------------------------------- successive resets

  /** What a reset from the start does to a live member. */
  ghost predicate MovedFromStart(s: Timers, t: Timers, id: TimerId, ms: nat)
    requires id in s.recs
  {
    var rec := s.recs[id];
    var key := rec.next + (ms - rec.ms) * MS;
    && Valid(t)
    && t.recs == s.recs[id := rec.(ms := ms, next := key)]
    && Deadlines(t) == Deadlines(s) - {rec.next} + {key}
  }

  lemma ResetLive(s: Timers, id: TimerId, ms: nat)
    requires Valid(s) && id in s.recs && s.recs[id].cb.Some? && s.recs[id].next in Deadlines(s)
    ensures Reset(s, id, ms, false, 0).1 && MovedFromStart(s, Reset(s, id, ms, false, 0).0, id, ms)
  {
    hide Insert, EraseKey, Schedule, AddTimer, Ascending, LowerBound, ResetInsert;
    OccupiedIff(s.keys, s.recs[id].next);
    if ms == s.recs[id].ms {
      assert s.recs[id := s.recs[id].(ms := ms)] == s.recs;
      assert Deadlines(s) == Deadlines(s) - {s.recs[id].next} + {s.recs[id].next};
    } else {
      ResetMoves(s, id, ms, false, 0);
    }
  }

  lemma MovesCompose(s: Timers, s1: Timers, s2: Timers, t: Timers, id: TimerId, a: nat, b: nat)
    requires Known(s) && id in s.recs && s.recs[id].next in Deadlines(s)
    requires MovedFromStart(s, s1, id, a) && MovedFromStart(s1, s2, id, b) && MovedFromStart(s, t, id, b)
    ensures s2.recs == t.recs && Deadlines(s2) <= Deadlines(t)
    ensures var through := s.recs[id].next + (a - s.recs[id].ms) * MS;
            Deadlines(s2) == Deadlines(t) <==> a == s.recs[id].ms || a == b || through !in Deadlines(s)
  {
    hide Valid, Deadlines;
    var rec := s.recs[id];
    var through, last := rec.next + (a - rec.ms) * MS, rec.next + (b - rec.ms) * MS;
    assert s1.recs[id].next == through && s2.recs[id].next == last;
    SetMoves(Deadlines(s), rec.next, through, last);
    assert through == rec.next <==> a == rec.ms;
    assert through == last <==> a == b;
  }

  /** One element of a set is replaced twice, or once. */
  lemma SetMoves(keys: set<int>, first: int, through: int, last: int)
    requires first in keys
    ensures var twice, once := keys - {first} + {through} - {through} + {last}, keys - {first} + {last};
            twice <= once && (twice == once <==> through == first || through == last || through !in keys)
  {
    var twice, once := keys - {first} + {through} - {through} + {last}, keys - {first} + {last};
    if through != first && through != last && through in keys {
      assert through in once && through !in twice;
    }
  }

  /**
   Two resets from the start leave every timer with the fields that the second alone leaves, early
   returns included. The deadline set agrees as well exactly when the deadline passed through was free.
   */
  lemma ResetsCompose(s: Timers, s1: Timers, id: TimerId, a: nat, b: nat)
    requires Valid(s) && id in s.recs && s.recs[id].cb.Some? && s.recs[id].next in Deadlines(s)
    requires s1 == Reset(s, id, a, false, 0).0
    ensures id in s1.recs
    ensures var s2, t := Reset(s1, id, b, false, 0).0, Reset(s, id, b, false, 0).0;
            var through := s.recs[id].next + (a - s.recs[id].ms) * MS;
            && s2.recs == t.recs
            && t.recs[id].next == s.recs[id].next + (b - s.recs[id].ms) * MS
            && Deadlines(s2) <= Deadlines(t)
            && (Deadlines(s2) == Deadlines(t) <==> a == s.recs[id].ms || a == b || through !in Deadlines(s))
  {
    ResetLive(s, id, a);
    LiveAfterMove(s, s1, id, a);
    ResetLive(s, id, b);
    ResetLive(s1, id, b);
    MovesCompose(s, s1, Reset(s1, id, b, false, 0).0, Reset(s, id, b, false, 0).0, id, a, b);
  }

  lemma LiveAfterMove(s: Timers, t: Timers, id: TimerId, ms: nat)
    requires Known(s) && id in s.recs && s.recs[id].cb.Some? && MovedFromStart(s, t, id, ms)
    ensures id in t.recs && t.recs[id].cb.Some? && t.recs[id].next in Deadlines(t)
  {}

  // ---------------------------------------------------------------- the timeout

  /** What a deadline must satisfy to be a 64-bit nanosecond time point. */
  predicate Representable(k: int) { -0x8000_0000_0000_0000 <= k < 0x8000_0000_0000_0000 }

  /**
   The timeout is all ones exactly for an empty set, 0 exactly when the first deadline is less than a
   millisecond away, and otherwise brackets the first deadline; `idle` therefore never sleeps past it.
   */
  lemma TimeoutMeaning(s: Timers, now: int)
    requires Valid(s) && Representable(now)
    requires forall k | k in Deadlines(s) :: Representable(k)
    ensures var (t, d) := GetNext(s, now);
            && Valid(t) && t.members == s.members && t.recs == s.recs && Deadlines(t) == Deadlines(s) && !t.tickled
            && (d == ALL_ONES <==> Deadlines(s) == {})
            && (d == 0 <==> exists k :: k in Deadlines(s) && k < now + MS)
            && (d != ALL_ONES ==> (forall k | k in Deadlines(s) && now < k :: now + d * MS <= k))
            && (0 < d < ALL_ONES ==> exists k :: k in Deadlines(s) && now + d * MS <= k < now + (d + 1) * MS)
            && WaitMs(d) == (if Deadlines(s) == {} || d >= 5000 then 5000 else d)
            && (WaitMs(d) > 0 ==> forall k | k in Deadlines(s) :: now + WaitMs(d) * MS <= k)
  {
    var (t, d) := GetNext(s, now);
    assert t.keys == s.keys;
    var keys := s.keys;
    if keys != [] {
      assert keys[0] in Deadlines(s);
      assert forall k | k in Deadlines(s) :: keys[0] <= k;
      if now < keys[0] {
        assert MS * d <= keys[0] - now < MS * d + MS;
      }
    } else {
      assert Deadlines(s) == {};
    }
  }
}
