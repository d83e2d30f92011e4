/**
 The classes Timer and TimerManager of code/timer.h. Every method is tied to the operation of TimerSet
 that it performs on the manager's `model`. Locks are taken for the whole of a method, clock readings
 are parameters, and a call of `onTimerInsertedAtFront` is returned as a flag.
 */
module TimerManagers {
  import opened Prelude
  import TimerSet
  import TimerLaws
  import TimerExpiry

  type TimerId = TimerSet.TimerId

  class Timer {
    ghost const id: TimerId
    const recurring: bool
    const manager: TimerManager
    var ms: nat
    var next: int
    var cb: Option<nat>

    constructor (ghost id: TimerId, ms: nat, cb: nat, recurring: bool, manager: TimerManager, now: int)
      ensures this.id == id && this.manager == manager
      ensures Fields() == TimerSet.Rec(ms, recurring, now + ms * TimerSet.MS, Some(cb))
    {
      this.id, this.ms, this.recurring, this.manager := id, ms, recurring, manager;
      this.next, this.cb := now + ms * TimerSet.MS, Some(cb);
    }

    ghost function Fields(): TimerSet.Rec
      reads this
    {
      TimerSet.Rec(ms, recurring, next, cb)
    }

    method Cancel() returns (done: bool)
      requires manager.Valid() && manager.Owns(this)
      modifies this, manager
      ensures manager.Valid() && manager.objects == old(manager.objects)
      ensures (manager.model, done) == TimerSet.Cancel(old(manager.model), id)
      ensures done == old(cb).Some? && cb == None && next == old(next) && ms == old(ms)
    {
      hide TimerSet.LowerBound, TimerSet.Ascending, TimerSet.EraseKey, TimerSet.Valid;
      if cb.None? { return false; }
      TimerLaws.CancelRefines(manager.model, id);
      manager.Assign(this, ms, next, None);
      manager.EraseKey(next);
      return true;
    }

    method Refresh(now: int) returns (done: bool)
      requires manager.Valid() && manager.Owns(this)
      modifies this, manager
      ensures manager.Valid() && manager.objects == old(manager.objects)
      ensures (manager.model, done) == TimerSet.Refresh(old(manager.model), id, now)
      ensures next == (if done then now + ms * TimerSet.MS else old(next)) && ms == old(ms) && cb == old(cb)
    {
      hide TimerSet.LowerBound, TimerSet.Ascending, TimerSet.EraseKey, TimerSet.Insert, TimerSet.Valid;
      if cb.None? { return false; }
      var held := manager.Holds(next);
      if !held { return false; }
      TimerLaws.RefreshValid(manager.model, id, now);
      hide TimerSet.Refresh, TimerSet.Occupied;
      Renew(now);
      return true;
    }

    /** The part of `refresh` after its checks. */
    method Renew(now: int)
      requires manager.Valid() && manager.Owns(this)
      modifies this, manager
      ensures manager.Tied() && manager.objects == old(manager.objects)
      ensures manager.model ==
            TimerSet.Rekey(TimerSet.EraseKey(old(manager.model), old(next)), id,
                           old(Fields()).(next := now + old(ms) * TimerSet.MS))
      ensures next == now + old(ms) * TimerSet.MS && ms == old(ms) && cb == old(cb)
    {
      hide TimerSet.LowerBound, TimerSet.Ascending, TimerSet.EraseKey, TimerSet.Insert, TimerSet.Valid,
          TimerSet.Occupied;
      manager.TakeOut(this);
      manager.Assign(this, ms, now + ms * TimerSet.MS, cb);
      var _ := manager.Insert(this);
    }

    /** The first critical section of `reset`. */
    method TakeForReset() returns (taken: bool)
      requires manager.Valid() && manager.Owns(this)
      modifies manager
      ensures manager.Valid() && manager.objects == old(manager.objects)
      ensures taken <==> TimerSet.ResetErase(old(manager.model), id).Some?
      ensures manager.model == if taken then TimerSet.ResetErase(old(manager.model), id).value else old(manager.model)
      ensures taken ==> this !in manager.timers
    {
      hide TimerSet.LowerBound, TimerSet.Ascending, TimerSet.EraseKey, TimerSet.Valid, TimerSet.Occupied;
      if cb.None? { return false; }
      var held := manager.Holds(next);
      if !held { return false; }
      TimerLaws.TakeRefines(manager.model, id);
      manager.TakeOut(this);
      return true;
    }

    /** The second one: new period and deadline for a timer that is outside, then addTimer. */
    method PutBack(ms: nat, fromNow: bool, now: int) returns (atFront: bool)
      requires manager.Tied() && manager.Owns(this) && this !in manager.timers
      modifies this, manager
      ensures manager.Tied() && manager.objects == old(manager.objects)
      ensures (manager.model, atFront) == TimerSet.ResetInsert(old(manager.model), id, ms, fromNow, now)
      ensures this.ms == ms && cb == old(cb)
      ensures next == (if fromNow then now else old(next) - old(this.ms) * TimerSet.MS) + ms * TimerSet.MS
    {
      hide TimerSet.LowerBound, TimerSet.Ascending, TimerSet.EraseKey, TimerSet.AddTimer, TimerSet.Valid;
      var start := if fromNow then now else next - this.ms * TimerSet.MS;
      manager.Assign(this, ms, start + ms * TimerSet.MS, cb);
      atFront := manager.AddTimer(this);
    }

    /** Both sections, with nothing in between. */
    method Reset(ms: nat, fromNow: bool, now: int) returns (done: bool, atFront: bool)
      requires manager.Valid() && manager.Owns(this)
      modifies this, manager
      ensures manager.Valid() && manager.objects == old(manager.objects)
      ensures (manager.model, done, atFront) == TimerSet.Reset(old(manager.model), id, ms, fromNow, now)
      ensures !done || (ms == old(this.ms) && !fromNow) ==> this.ms == old(this.ms) && next == old(next)
      ensures done && !(ms == old(this.ms) && !fromNow) ==>
                && this.ms == ms
                && next == (if fromNow then now else old(next) - old(this.ms) * TimerSet.MS) + ms * TimerSet.MS
    {
      hide TimerSet.LowerBound, TimerSet.Ascending, TimerSet.EraseKey, TimerSet.ResetErase, TimerSet.ResetInsert,
          TimerSet.Valid;
      if ms == this.ms && !fromNow { return true, false; }
      var taken := TakeForReset();
      if !taken { return false, false; }
      TimerLaws.TakeRefines(old(manager.model), id);
      TimerLaws.PutBackRefines(manager.model, id, ms, fromNow, now);
      atFront := PutBack(ms, fromNow, now);
      return true, atFront;
    }
  }

  class TimerManager {
    var timers: seq<Timer>
    var tickled: bool
    var preTime: int
    /** Every timer made by this manager, in the set or not. */
    ghost var objects: map<TimerId, Timer>
    ghost var model: TimerSet.Timers

    ghost predicate Owns(t: Timer)
      reads this
    {
      t.id in objects && objects[t.id] == t
    }

    ghost predicate Objects()
      reads this, objects.Values
    {
      && objects.Keys == model.recs.Keys
      && forall id | id in objects ::
            objects[id].id == id && objects[id].manager == this && objects[id].Fields() == model.recs[id]
    }

    /** The set lists the members of the model, each of them still under the deadline it was entered under. */
    ghost predicate Listed()
      reads this, timers
    {
      && |timers| == |model.members| == |model.keys|
      && (forall i | 0 <= i < |timers| ::
            Owns(timers[i]) && timers[i].id == model.members[i] && timers[i].next == model.keys[i])
      && TimerSet.Ascending(model.keys)
    }

    ghost predicate Tied()
      reads this, objects.Values, timers
    {
      Objects() && Listed() && tickled == model.tickled && preTime == model.preTime
    }

    ghost predicate Valid()
      reads this, objects.Values, timers
    {
      Tied() && TimerSet.Valid(model)
    }

    constructor (now: int)
      ensures Valid() && objects == map[] && model == TimerSet.Timers([], [], map[], false, now)
    {
      timers, tickled, preTime := [], false, now;
      objects, model := map[], TimerSet.Timers([], [], map[], false, now);
    }

    /** Where the comparator places a deadline. */
    method Position(key: int) returns (p: nat)
      requires Listed()
      ensures p == TimerSet.LowerBound(model.keys, key)
    {
      p := 0;
      while p < |timers| && timers[p].next < key
        invariant p <= |timers|
        invariant forall i | 0 <= i < p :: model.keys[i] < key
      {
        p := p + 1;
      }
      TimerSet.LowerBoundUnique(model.keys, key, p);
    }

    lemma FreeHere(p: nat, key: int)
      requires Listed() && p == TimerSet.LowerBound(model.keys, key)
      requires !(p < |timers| && timers[p].next == key)
      ensures key !in model.keys && !TimerSet.Occupied(model.keys, key)
    {
      TimerSet.OccupiedIff(model.keys, key);
    }

    method Holds(key: int) returns (held: bool)
      requires Listed()
      ensures held == TimerSet.Occupied(model.keys, key)
    {
      var p := Position(key);
      held := p < |timers| && timers[p].next == key;
    }

    /** Erase whichever timer holds the deadline. */
    method EraseKey(key: int)
      requires Tied()
      modifies this`timers, this`model
      ensures Tied()
      ensures model == TimerSet.EraseKey(old(model), key)
    {
      var p := Position(key);
      if p < |timers| && timers[p].next == key {
        assert model.keys[p] in model.keys;
        TimerSet.ErasePositions(model, key);
        hide TimerSet.EraseKey, TimerSet.LowerBound, TimerSet.Ascending, TimerSet.Occupied;
        Remove(p, TimerSet.EraseKey(model, key));
      }
    }

    method Remove(p: nat, ghost after: TimerSet.Timers)
      requires Tied() && p < |timers|
      requires |after.members| == |after.keys| == |model.members| - 1 && TimerSet.Ascending(after.keys)
      requires forall i | 0 <= i < p :: after.members[i] == model.members[i] && after.keys[i] == model.keys[i]
      requires forall i | p <= i < |after.members| ::
            after.members[i] == model.members[i + 1] && after.keys[i] == model.keys[i + 1]
      requires after.recs == model.recs && after.tickled == model.tickled && after.preTime == model.preTime
      modifies this`timers, this`model
      ensures Tied() && model == after
    {
      hide TimerSet.Ascending;
      timers := timers[..p] + timers[p + 1..];
      model := after;
    }

    /** Erase the holder of a timer's deadline, after which the timer itself is outside. */
    method TakeOut(t: Timer)
      requires Valid() && Owns(t)
      modifies this`timers, this`model
      ensures Tied() && t !in timers
      ensures model == TimerSet.EraseKey(old(model), t.next)
    {
      TimerSet.EraseMembers(model, t.next);
      EraseKey(t.next);
      forall i | 0 <= i < |timers| ensures timers[i] != t {
        assert timers[i].id == model.members[i] && model.members[i] in model.members;
      }
    }

    /** New fields for one timer, whose deadline stays as it is while the timer is in the set. */
    method Assign(t: Timer, ms: nat, next: int, cb: Option<nat>)
      requires Tied() && Owns(t) && (next == t.next || t !in timers)
      modifies t, this`model
      ensures Tied()
      ensures model == old(model).(recs := old(model).recs[t.id := TimerSet.Rec(ms, t.recurring, next, cb)])
      ensures t.ms == ms && t.next == next && t.cb == cb
    {
      hide TimerSet.Ascending, Listed;
      ghost var was := model.recs;
      OthersApart(t);
      t.ms, t.next, t.cb := ms, next, cb;
      model := model.(recs := was[t.id := t.Fields()]);
      StillListed(t);
      Recorded(t, was);
    }

    lemma OthersApart(t: Timer)
      requires Objects() && Owns(t)
      ensures forall id | id in objects && id != t.id :: objects[id] != t && objects[id].Fields() == model.recs[id]
    {}

    twostate lemma StillListed(t: Timer)
      requires old(Listed()) && timers == old(timers) && objects == old(objects)
      requires model.members == old(model.members) && model.keys == old(model.keys)
      requires forall i | 0 <= i < |timers| && timers[i] != t ::
            timers[i].next == old(timers[i].next) && timers[i].id == old(timers[i].id)
      requires t.next == old(t.next) || t !in timers
      ensures Listed()
    {}

    lemma Recorded(t: Timer, was: map<TimerId, TimerSet.Rec>)
      requires Owns(t) && objects.Keys == was.Keys && model.recs == was[t.id := t.Fields()]
      requires forall id | id in objects && id != t.id :: objects[id].Fields() == was[id]
      requires forall id | id in objects :: objects[id].id == id && objects[id].manager == this
      ensures Objects()
    {}

    /** `m_timers.insert`, which drops a timer whose deadline is taken. */
    method Insert(t: Timer) returns (p: nat)
      requires Tied() && Owns(t)
      modifies this`timers, this`model
      ensures Tied()
      ensures (model, p) == TimerSet.Insert(old(model), t.id)
    {
      p := Position(t.next);
      if !(p < |timers| && timers[p].next == t.next) {
        FreeHere(p, t.next);
        TimerSet.InsertPositions(model, t.id);
        hide TimerSet.Insert, TimerSet.LowerBound, TimerSet.Ascending, TimerSet.Occupied;
        Place(t, p, TimerSet.Insert(model, t.id).0);
      }
    }

    method Place(t: Timer, p: nat, ghost after: TimerSet.Timers)
      requires Tied() && Owns(t) && p <= |timers|
      requires |after.members| == |after.keys| == |model.members| + 1 && TimerSet.Ascending(after.keys)
      requires after.members[p] == t.id && after.keys[p] == t.next
      requires forall i | 0 <= i < p :: after.members[i] == model.members[i] && after.keys[i] == model.keys[i]
      requires forall i | p < i < |after.members| ::
            after.members[i] == model.members[i - 1] && after.keys[i] == model.keys[i - 1]
      requires after.recs == model.recs && after.tickled == model.tickled && after.preTime == model.preTime
      modifies this`timers, this`model
      ensures Tied() && model == after
    {
      hide TimerSet.Ascending;
      timers := timers[..p] + [t] + timers[p..];
      model := after;
    }

    method AddTimer(t: Timer) returns (atFront: bool)
      requires Tied() && Owns(t)
      modifies this`timers, this`model, this`tickled
      ensures Tied()
      ensures (model, atFront) == TimerSet.AddTimer(old(model), t.id)
    {
      var p := Insert(t);
      atFront := p == 0 && !tickled;
      if atFront {
        tickled := true;
        model := model.(tickled := true);
      }
    }

    method NewTimer(ms: nat, cb: nat, recurring: bool, now: int, ghost id: TimerId) returns (t: Timer, atFront: bool)
      requires Valid() && id !in objects
      modifies this
      ensures Valid() && fresh(t) && t.id == id && objects == old(objects)[id := t]
      ensures (model, atFront) == TimerSet.New(old(model), id, ms, cb, recurring, now)
      ensures t.ms == ms && t.recurring == recurring && t.next == now + ms * TimerSet.MS && t.cb == Some(cb)
    {
      hide TimerSet.LowerBound, TimerSet.Ascending, TimerSet.AddTimer, TimerLaws.Schedule, TimerSet.Deadlines;
      TimerLaws.NewRefines(model, id, ms, cb, recurring, now);
      t := new Timer(id, ms, cb, recurring, this, now);
      objects := objects[id := t];
      model := model.(recs := model.recs[id := t.Fields()]);
      atFront := AddTimer(t);
    }

    method GetNextTimer(now: int) returns (timeout: nat)
      requires Valid()
      modifies this`tickled, this`model
      ensures Valid()
      ensures (model, timeout) == TimerSet.GetNext(old(model), now)
    {
      tickled := false;
      model := model.(tickled := false);
      if timers == [] { return TimerSet.ALL_ONES; }
      var first := timers[0].next;
      if now >= first { return 0; }
      return (first - now) / TimerSet.MS;
    }

    method DetectClockRollover(now: int) returns (rollover: bool)
      requires Valid()
      modifies this`preTime, this`model
      ensures Valid()
      ensures (model, rollover) == TimerSet.DetectRollover(old(model), now)
      ensures preTime == now && (rollover <==> now + 3_600_000_000_000 < old(preTime))
    {
      rollover := now < preTime - TimerSet.ROLLOVER;
      preTime := now;
      model := model.(preTime := now);
    }

    /**
     Takes every expired timer out, re-entering the recurring ones. Its callers owe it what ends the
     loop, which EndsExactly characterizes.
     */
    method ListExpireCb(now: int, now2: int) returns (cbs: seq<Option<nat>>)
      requires Valid()
      requires var (s, rollover) := TimerSet.DetectRollover(model, now2);
               TimerSet.Valid(s) && TimerExpiry.Ends(s, now, rollover)
      modifies this, objects.Values
      ensures Valid() && objects == old(objects)
      ensures var (s, rollover) := TimerSet.DetectRollover(old(model), now2);
              (model, cbs) == TimerExpiry.Expire(s, now, rollover)
    {
      hide TimerSet.LowerBound, TimerSet.Ascending, TimerExpiry.Turn, TimerExpiry.Ends, TimerExpiry.Reordered,
          TimerSet.Deadlines, TimerExpiry.Due;
      var rollover := DetectClockRollover(now2);
      cbs := [];
      ghost var s := model;
      assert cbs + TimerExpiry.Expire(s, now, rollover).1 == TimerExpiry.Expire(s, now, rollover).1;
      while timers != [] && (rollover || timers[0].next <= now)
        invariant Valid() && objects == old(objects)
        invariant TimerExpiry.Ends(model, now, rollover)
        invariant (TimerExpiry.Expire(model, now, rollover).0, cbs + TimerExpiry.Expire(model, now, rollover).1) ==
              TimerExpiry.Expire(s, now, rollover)
        decreases TimerExpiry.Due(model, now, rollover)
      {
        ghost var before, emitted := model, cbs;
        TimerExpiry.TurnShape(before, now);
        TimerExpiry.TurnProgress(before, TimerExpiry.Turn(before, now).0, now, rollover);
        var cb := ExpireFirst(now);
        cbs := cbs + [cb];
        Regroup(emitted, cb, TimerExpiry.Expire(model, now, rollover).1);
      }
      assert TimerExpiry.Expire(model, now, rollover) == (model, []);
      assert cbs + [] == cbs;
    }

    static lemma Regroup<T>(xs: seq<T>, x: T, ys: seq<T>)
      ensures xs + ([x] + ys) == xs + [x] + ys
    {}

    /** Erases the first timer of the list. */
    method PopFirst() returns (t: Timer)
      requires Valid() && timers != []
      modifies this`timers, this`model
      ensures Tied() && Owns(t) && t !in timers && t == old(timers)[0]
      ensures model == old(model).(members := old(model).members[1..], keys := old(model).keys[1..])
    {
      TimerExpiry.DistinctHead(model);
      t := timers[0];
      timers := timers[1..];
      model := model.(members := model.members[1..], keys := model.keys[1..]);
    }

    /** One turn of the loop. */
    method ExpireFirst(now: int) returns (cb: Option<nat>)
      requires Valid() && timers != []
      modifies this`timers, this`model, timers[0]
      ensures Valid() && objects == old(objects)
      ensures (model, cb) == TimerExpiry.Turn(old(model), now)
    {
      hide TimerSet.LowerBound, TimerSet.Insert, TimerSet.Valid, TimerExpiry.Reordered, TimerSet.Deadlines;
      TimerExpiry.TurnShape(model, now);
      var tmp := PopFirst();
      cb := tmp.cb;
      if tmp.recurring {
        Assign(tmp, tmp.ms, now + tmp.ms * TimerSet.MS, tmp.cb);
        var _ := Insert(tmp);
      } else {
        Assign(tmp, tmp.ms, tmp.next, None);
      }
    }
  }
}
