/**
 The registration a fiber makes with addEvent and then yields for (code/ioscheduler.cpp:202-251), in a
 registry that other threads go on using: it is the fiber's only one, so when the fiber has been posted it
 was by this registration.
 */
module OwnWait {
  import opened Prelude
  import opened TaskQueue
  import R = EventRegistry

  /** `mine` is the fiber's latest registration, `base` how much had been posted by the time it was made. */
  datatype Wait = Wait(fiber: nat, scheduler: nat, key: R.Key, base: nat, mine: Option<nat>)

  /** The fiber's entry has reached the scheduler's queue since. */
  predicate Roused(r: R.Registry, w: Wait) {
    exists i :: w.base <= i < |r.posted| && r.posted[i].body == FiberBody(w.fiber)
  }

  predicate InSlot(r: R.Registry, w: Wait) {
    w.mine.Some? && w.key in r.slots && r.slots[w.key].serial == w.mine.value
  }

  ghost predicate Posted(r: R.Registry, w: Wait) { w.mine.Some? && R.Posted(r, w.mine.value) }

  /** The fiber has no other registration, and this one is at its key. */
  ghost predicate OnlyMine(r: R.Registry, w: Wait) {
    && (forall k | k in r.slots && r.slots[k].body == FiberBody(w.fiber) :: w.mine == Some(r.slots[k].serial))
    && (forall k | k in r.slots && w.mine == Some(r.slots[k].serial) :: k == w.key)
    && (forall i | w.base <= i < |r.posted| && r.posted[i].body == FiberBody(w.fiber) ::
          w.mine == Some(r.posted[i].serial))
  }

  /** It posts the fiber to the scheduler under which it registered. */
  predicate IsMine(w: Wait, g: R.Registration) {
    g.body == FiberBody(w.fiber) && g.scheduler == w.scheduler
  }

  ghost predicate Tie(r: R.Registry, w: Wait) {
    && R.Inv(r) && w.base <= |r.posted| && OnlyMine(r, w)
    && (w.mine.Some? ==> w.mine.value < r.added)
    && (InSlot(r, w) ==> IsMine(w, r.slots[w.key]))
    && (forall i | 0 <= i < |r.posted| && w.mine == Some(r.posted[i].serial) :: IsMine(w, r.posted[i]))
    && (Posted(r, w) ==> Roused(r, w))
  }

  /** What others may do: anything but to register the fiber, since addEvent registers its caller. */
  predicate Foreign(w: Wait, op: R.Op) { op.AddOp? ==> op.body != FiberBody(w.fiber) }

  lemma ForeignTie(r: R.Registry, w: Wait, op: R.Op)
    requires Tie(r, w) && R.Legal(r, op) && Foreign(w, op)
    ensures Tie(R.Apply(r, op), w)
  {
    hide R.Inv, R.Apply, R.Legal;
    R.ApplyInv(r, op);
    R.OpTraces(r, op);
    var t := R.Apply(r, op);
    forall i | w.base <= i < |t.posted| && t.posted[i].body == FiberBody(w.fiber)
      ensures w.mine == Some(t.posted[i].serial)
    {
      assert i < |r.posted| ==> t.posted[i] == r.posted[i];
    }
    if Posted(t, w) {
      var i :| 0 <= i < |t.posted| && t.posted[i].serial == w.mine.value;
      if i < |r.posted| {
        assert r.posted[i] == t.posted[i];
        var j :| w.base <= j < |r.posted| && r.posted[j].body == FiberBody(w.fiber);
        assert t.posted[j] == r.posted[j];
      } else {
        assert t.posted[i].body == FiberBody(w.fiber);
      }
    }
  }

  /** What has been posted stays posted. */
  lemma PostedStays(r: R.Registry, op: R.Op)
    requires R.Legal(r, op)
    ensures forall n | R.Posted(r, n) :: R.Posted(R.Apply(r, op), n)
  {
    R.OpTraces(r, op);
    MorePosted(r, R.Apply(r, op));
  }

  lemma MorePosted(r: R.Registry, t: R.Registry)
    requires r.posted <= t.posted
    ensures forall n | R.Posted(r, n) :: R.Posted(t, n)
  {
    forall n | R.Posted(r, n) ensures R.Posted(t, n) {
      var i :| 0 <= i < |r.posted| && r.posted[i].serial == n;
      assert t.posted[i].serial == n;
    }
  }

  /** The fiber registers, with nothing of its own left from before. */
  lemma RegisterTie(r: R.Registry, w: Wait)
    requires Tie(r, w) && w.key !in r.slots && (w.mine.Some? ==> Posted(r, w))
    ensures var t := R.Apply(r, R.AddOp(w.key, w.scheduler, FiberBody(w.fiber), true));
            Tie(t, w.(base := |r.posted|, mine := Some(r.added)))
                && InSlot(t, w.(base := |r.posted|, mine := Some(r.added)))
  {
    hide R.Inv;
    R.ApplyInv(r, R.AddOp(w.key, w.scheduler, FiberBody(w.fiber), true));
    AddedIsNew(r);
    NotMine(r, w);
    PostedOld(r);
  }

  lemma AddedIsNew(r: R.Registry)
    requires R.Inv(r)
    ensures forall k | k in r.slots :: r.slots[k].serial < r.added
  {
    forall k | k in r.slots ensures r.slots[k].serial < r.added {
      assert R.Waiting(r, r.slots[k].serial);
    }
  }

  lemma PostedOld(r: R.Registry)
    requires R.Inv(r)
    ensures forall i | 0 <= i < |r.posted| :: r.posted[i].serial < r.added
  {
    forall i | 0 <= i < |r.posted| ensures r.posted[i].serial < r.added {
      assert R.Posted(r, r.posted[i].serial);
    }
  }

  lemma NotMine(r: R.Registry, w: Wait)
    requires Tie(r, w) && (w.mine.Some? ==> Posted(r, w))
    ensures forall k | k in r.slots :: r.slots[k].body != FiberBody(w.fiber)
  {}

  /** The fiber goes on because its own registration was posted: it has no other. */
  lemma RousedByMine(r: R.Registry, w: Wait)
    requires Tie(r, w) && Roused(r, w)
    ensures Posted(r, w)
  {}

  /** The registration is in one place, once. */
  lemma MineOnce(r: R.Registry, w: Wait)
    requires Tie(r, w) && w.mine.Some?
    ensures InSlot(r, w) ==> !Posted(r, w) && w.mine.value !in r.dropped
    ensures Posted(r, w) ==> w.mine.value !in r.dropped
    ensures InSlot(r, w) || Posted(r, w) || w.mine.value in r.dropped
    ensures forall i, j | 0 <= i < j < |r.posted| :: r.posted[i].serial != r.posted[j].serial
  {
    if R.Waiting(r, w.mine.value) {
      var k :| k in r.slots && r.slots[k].serial == w.mine.value;
      assert k == w.key;
    }
  }
}
