/**
 The classes of code/ioscheduler.h: per-descriptor contexts with their slots and bit mask, the epoll
 interest list and the pending counter. Each method is tied to the operation of EventRegistry that it
 performs on the manager's `model`. A call of `scheduleLock` is recorded in `calls`; whether the kernel
 accepts an otherwise legal epoll_ctl is a parameter.
 */
module IoManagers {
  import opened Prelude
  import opened TaskQueue
  import opened EventRegistry
  import opened EventMasks

  /** What a slot remembers: nullptr and empty handles are None. */
  datatype EventContext = EventContext(scheduler: Option<nat>, fiber: Option<nat>, cb: Option<nat>)

  datatype ScheduleCall = ScheduleCall(scheduler: nat, body: Body)

  datatype CtlOp = CTL_ADD | CTL_MOD | CTL_DEL

  /** An entry of the event buffer of epoll_wait. */
  datatype Report = Tickle | Readiness(fd: nat, events: bv32)

  /**
   The loop reaching an entry: what other threads, and workers with a buffer of their own, have done to the
   registry since the entry before, and whether epoll_ctl succeeds for this one.
   */
  datatype Entry = Entry(report: Report, willing: bool, edits: seq<Op>)

  const NO_CONTEXT := EventContext(None, None, None)

  function ContextOf(scheduler: nat, body: Body): EventContext {
    match body
    case FiberBody(f) => EventContext(Some(scheduler), Some(f), None)
    case CbBody(c) => EventContext(Some(scheduler), None, Some(c))
  }

  function SlotOf(r: Registry, key: Key): EventContext {
    if key in r.slots then ContextOf(r.slots[key].scheduler, r.slots[key].body) else NO_CONTEXT
  }

  /** The call of scheduleLock by which the registration under a key is posted. */
  function SlotCall(r: Registry, key: Key): seq<ScheduleCall> {
    if key in r.slots then [ScheduleCall(r.slots[key].scheduler, r.slots[key].body)] else []
  }

  /** The interest list of the kernel. An operation that does not fit the list fails. */
  class Epoll {
    var interest: map<nat, bv32>

    constructor ()
      ensures interest == map[]
    {
      interest := map[];
    }

    predicate Accepts(op: CtlOp, fd: nat)
      reads this
    {
      op.CTL_ADD? <==> fd !in interest
    }

    method Ctl(op: CtlOp, fd: nat, events: bv32, willing: bool) returns (rt: int)
      modifies this
      ensures rt == 0 <==> willing && old(Accepts(op, fd))
      ensures rt != 0 ==> interest == old(interest)
      ensures rt == 0 ==> interest == if op.CTL_DEL? then old(interest) - {fd} else old(interest)[fd := events]
    {
      if !willing || !Accepts(op, fd) { return -1; }
      interest := if op.CTL_DEL? then interest - {fd} else interest[fd := events];
      return 0;
    }

    /** The kernel forgets a descriptor that has been closed. */
    method Closed(fd: nat)
      modifies this
      ensures interest == old(interest) - {fd}
    {
      interest := interest - {fd};
    }
  }

  class FdContext {
    const fd: nat
    var mask: bv32
    var read: EventContext
    var write: EventContext

    constructor (fd: nat)
      ensures this.fd == fd && mask == 0 && read == NO_CONTEXT && write == NO_CONTEXT
    {
      this.fd, mask, read, write := fd, 0, NO_CONTEXT, NO_CONTEXT;
    }

    function Slot(event: Event): EventContext
      reads this
    {
      match event
      case READ => read
      case WRITE => write
    }

    /** The context says what the registry says about its descriptor. */
    ghost predicate Shows(r: Registry)
      reads this
    {
      && mask == MaskOf(Events(r, fd))
      && read == SlotOf(r, Key(fd, READ))
      && write == SlotOf(r, Key(fd, WRITE))
    }

    /**
     A bit is set exactly when its slot holds a scheduler and one handle, and clear exactly when the slot is
     empty.
     */
    lemma SlotShape(r: Registry, event: Event)
      requires Shows(r)
      ensures Has(mask, event) <==> Slot(event) != NO_CONTEXT
      ensures Has(mask, event) <==> Slot(event).scheduler.Some?
      ensures Has(mask, event) <==> Slot(event).fiber.Some? || Slot(event).cb.Some?
      ensures !(Slot(event).fiber.Some? && Slot(event).cb.Some?)
      ensures Has(mask, event) <==> Key(fd, event) in r.slots
      ensures mask != 0 <==> Events(r, fd) != {}
    {
      MaskLaws(Events(r, fd), event);
    }

    method SetSlot(event: Event, ctx: EventContext)
      modifies this`read, this`write
      ensures read == if event.READ? then ctx else old(read)
      ensures write == if event.WRITE? then ctx else old(write)
    {
      match event {
        case READ => read := ctx;
        case WRITE => write := ctx;
      }
    }

    /** Set the bit and fill the slot, which is asserted to be empty at code/ioscheduler.cpp:241. */
    method Fill(event: Event, scheduler: nat, body: Body, ghost r: Registry)
      requires Shows(r) && Key(fd, event) !in r.slots
      modifies this
      ensures Shows(Add(r, Key(fd, event), scheduler, body))
    {
      hide Has, With, Less, Bits, Bit, Events, MaskOf;
      SlotShape(r, event);
      MaskLaws(Events(r, fd), event);
      AddEvents(r, Key(fd, event), scheduler, body);
      mask := With(mask, event);
      assert Slot(event) == NO_CONTEXT;
      SetSlot(event, ContextOf(scheduler, body));
    }

    method TriggerEvent(event: Event, ghost r: Registry) returns (call: ScheduleCall)
      requires Shows(r) && Key(fd, event) in r.slots
      modifies this
      ensures Shows(Fire(r, Key(fd, event)))
      ensures call.scheduler == r.slots[Key(fd, event)].scheduler && call.body == r.slots[Key(fd, event)].body
    {
      SlotShape(r, event);
      MaskLaws(Events(r, fd), event);
      FireEvents(r, Key(fd, event));
      hide Has, With, Less, Meets, Left, Watch, Bits, Bit, MaskOf, Has, Events;
      assert Has(mask, event);  // line 35
      mask := Less(mask, event);
      var ctx := Slot(event);
      if ctx.cb.Some? {
        call := ScheduleCall(ctx.scheduler.value, CbBody(ctx.cb.value));
      } else {
        call := ScheduleCall(ctx.scheduler.value, FiberBody(ctx.fiber.value));
      }
      SetSlot(event, NO_CONTEXT);
    }
  }

  lemma FireEvents(r: Registry, key: Key)
    ensures Events(Fire(r, key), key.fd) == Events(r, key.fd) - {key.event}
    ensures forall k | k != key :: SlotOf(Fire(r, key), k) == SlotOf(r, k)
    ensures forall fd | fd != key.fd :: Events(Fire(r, key), fd) == Events(r, fd)
  {
    ByEvent(Events(r, key.fd) - {key.event});
  }

  lemma AddEvents(r: Registry, key: Key, scheduler: nat, body: Body)
    ensures Events(Add(r, key, scheduler, body), key.fd) == Events(r, key.fd) + {key.event}
    ensures forall k | k != key :: SlotOf(Add(r, key, scheduler, body), k) == SlotOf(r, k)
    ensures forall fd | fd != key.fd :: Events(Add(r, key, scheduler, body), fd) == Events(r, fd)
  {
    ByEvent(Events(r, key.fd) + {key.event});
  }

  lemma DropEvents(r: Registry, key: Key)
    ensures Events(Drop(r, key), key.fd) == Events(r, key.fd) - {key.event}
    ensures forall k | k != key :: SlotOf(Drop(r, key), k) == SlotOf(r, k)
    ensures forall fd | fd != key.fd :: Events(Drop(r, key), fd) == Events(r, fd)
  {
    ByEvent(Events(r, key.fd) - {key.event});
  }

  /** The kernel watches exactly the descriptors with registered events, for exactly those events. */
  ghost predicate Mirrors(interest: map<nat, bv32>, r: Registry) {
    forall fd: nat ::
      && (fd in interest <==> Events(r, fd) != {})
      && (fd in interest ==> interest[fd] == Watch(MaskOf(Events(r, fd))))
  }

  /** The interest list after the operation that fits a change of one descriptor. */
  lemma MirrorUpdate(interest: map<nat, bv32>, after: map<nat, bv32>, r: Registry, s: Registry, fd: nat)
    requires Mirrors(interest, r)
    requires forall other: nat | other != fd :: Events(s, other) == Events(r, other)
    requires after == if Events(s, fd) == {} then interest - {fd} else interest[fd := Watch(MaskOf(Events(s, fd)))]
    ensures Mirrors(after, s)
  {
    forall other: nat ensures && (other in after <==> Events(s, other) != {})
                              && (other in after ==> after[other] == Watch(MaskOf(Events(s, other)))) {
      assert other != fd ==> Events(s, other) == Events(r, other);
    }
  }

  /** Both events of a descriptor fired: what is left, there and elsewhere. */
  lemma FireAllEvents(r: Registry, fd: nat, es: set<Event>)
    ensures Events(FireAll(r, fd, es), fd) == Events(r, fd) - es
    ensures forall other: nat | other != fd :: Events(FireAll(r, fd, es), other) == Events(r, other)
  {
    ByEvent(Events(r, fd) - es);
  }

  /** An entry of the event buffer as an operation on the registry it meets. */
  function OpOf(r: Registry, fd: nat, events: bv32, ok: bool): Op {
    ReportOp(fd, ReadySet(Events(r, fd), events), ok)
  }

  /** No assert of triggerEvent fails for the buffer: each entry is legal when it is reached. */
  ghost predicate BufferLegal(r: Registry, buffer: seq<Entry>)
    decreases |buffer|
  {
    buffer == [] ||
    (LegalRun(r, buffer[0].edits) &&
     var s := Run(r, buffer[0].edits);
     match buffer[0].report
     case Tickle => BufferLegal(s, buffer[1..])
     case Readiness(fd, events) =>
       var op := OpOf(s, fd, events, buffer[0].willing);
       Legal(s, op) && BufferLegal(Apply(s, op), buffer[1..]))
  }

  /** What edits and buffer do to the registry. */
  ghost function AfterBuffer(r: Registry, buffer: seq<Entry>): Registry
    requires BufferLegal(r, buffer)
    decreases |buffer|
  {
    if buffer == [] then r
    else
      var s := Run(r, buffer[0].edits);
      match buffer[0].report
      case Tickle => AfterBuffer(s, buffer[1..])
      case Readiness(fd, events) => AfterBuffer(Apply(s, OpOf(s, fd, events, buffer[0].willing)), buffer[1..])
  }

  /** What epoll_wait promises: one entry a descriptor, and only events it was asked to watch, besides errors. */
  ghost predicate KernelBuffer(interest: map<nat, bv32>, buffer: seq<Entry>) {
    && (forall i | 0 <= i < |buffer| && buffer[i].report.Readiness? ::
          buffer[i].report.fd in interest && Asked(interest[buffer[i].report.fd], buffer[i].report.events))
    && (forall i, j | 0 <= i < j < |buffer| && buffer[i].report.Readiness? && buffer[j].report.Readiness? ::
          buffer[i].report.fd != buffer[j].report.fd)
  }

  /** Readiness to read or write is reported only if it was asked for. */
  predicate Asked(watched: bv32, events: bv32) {
    events & (EPOLLIN | EPOLLOUT) & !watched == 0
  }

  /** By the mirror, what the kernel was asked to watch is what is registered. */
  lemma AskedIsRegistered(es: set<Event>, events: bv32)
    requires Asked(Watch(MaskOf(es)), events)
    ensures ReadySet(es, events) <= es
  {
    if READ in es { if WRITE in es {} } else { if WRITE in es {} }
  }

  predicate Tickled(buffer: seq<Entry>) { exists i :: 0 <= i < |buffer| && buffer[i].report == Tickle }

  lemma NoneTickled()
    ensures !Tickled([])
  {}

  lemma TickledMore(buffer: seq<Entry>, i: nat)
    requires i < |buffer|
    ensures Tickled(buffer[..i + 1]) <==> Tickled(buffer[..i]) || buffer[i].report == Tickle
  {
    assert buffer[..i + 1] == buffer[..i] + [buffer[i]];
    if Tickled(buffer[..i]) {
      var j :| 0 <= j < i && buffer[..i][j].report == Tickle;
      assert buffer[..i + 1][j].report == Tickle;
    }
    if buffer[i].report == Tickle { assert buffer[..i + 1][i].report == Tickle; }
  }

  /** The masks the buffer reports on only grow before the entries are reached. */
  ghost predicate Grown(r: Registry, s: Registry, buffer: seq<Entry>) {
    && (forall i | 0 <= i < |buffer| && buffer[i].report.Readiness? ::
          Events(r, buffer[i].report.fd) <= Events(s, buffer[i].report.fd))
    && (forall i, j, e | 0 <= i <= j < |buffer| && e in buffer[i].edits && buffer[j].report.Readiness? ::
          e.AddOp? || FdOf(e) != buffer[j].report.fd)
  }

  /** A legal operation that registers, or is on another descriptor, takes nothing from a mask. */
  lemma EditGrows(r: Registry, op: Op, fd: nat)
    requires Legal(r, op) && (op.AddOp? || FdOf(op) != fd)
    ensures Events(r, fd) <= Events(Apply(r, op), fd)
  {
    if op.ReportOp? { FireOther(r, op.fd, op.ready, fd); }
    if op.CancelAllOp? { FireOther(r, op.fd, Events(r, op.fd), fd); }
  }

  lemma {:induction false} EditsGrow(r: Registry, ops: seq<Op>, fd: nat)
    requires LegalRun(r, ops) && forall e | e in ops :: e.AddOp? || FdOf(e) != fd
    ensures Events(r, fd) <= Events(Run(r, ops), fd)
    decreases |ops|
  {
    hide Apply, Legal, Events;
    if ops != [] {
      EditGrows(r, ops[0], fd);
      EditsGrow(Apply(r, ops[0]), ops[1..], fd);
    }
  }

  /** The events of an entry lie within a mask that has grown, whatever the widening adds. */
  lemma StillWithin(was: set<Event>, es: set<Event>, events: bv32)
    requires ReadySet(was, events) <= was <= es
    ensures ReadySet(es, events) <= es
  {}

  /**
   A buffer the kernel has filled is legal whatever other threads do to other descriptors, and whatever they
   register, before its entries are reached.
   */
  lemma {:induction false} KernelBatchLegal(interest: map<nat, bv32>, r: Registry, s: Registry, buffer: seq<Entry>)
    requires Mirrors(interest, r) && KernelBuffer(interest, buffer) && Grown(r, s, buffer)
    requires forall i, e | 0 <= i < |buffer| && e in buffer[i].edits :: !e.ReportOp?
    ensures BufferLegal(s, buffer)
    decreases |buffer|
  {
    hide ReadySet, Events, Apply, Asked, Watch, MaskOf;
    if buffer != [] {
      var rest := buffer[1..];
      var entry := buffer[0];
      EditsLegal(s, entry.edits);
      var t := Run(s, entry.edits);
      forall i | 0 <= i < |buffer| && buffer[i].report.Readiness?
        ensures Events(r, buffer[i].report.fd) <= Events(t, buffer[i].report.fd)
      {
        EditsGrow(s, entry.edits, buffer[i].report.fd);
      }
      match entry.report
      case Tickle =>
        assert forall i | 0 <= i < |rest| :: rest[i] == buffer[i + 1];
        KernelBatchLegal(interest, r, t, rest);
      case Readiness(fd, events) =>
        var op := OpOf(t, fd, events, entry.willing);
        AskedIsRegistered(Events(r, fd), events);
        StillWithin(Events(r, fd), Events(t, fd), events);
        assert Legal(t, op);
        forall i | 0 <= i < |rest| && rest[i].report.Readiness?
          ensures Events(r, rest[i].report.fd) <= Events(Apply(t, op), rest[i].report.fd)
        {
          assert rest[i] == buffer[i + 1];
          EditGrows(t, op, rest[i].report.fd);
        }
        assert forall i | 0 <= i < |rest| :: rest[i] == buffer[i + 1];
        KernelBatchLegal(interest, r, Apply(t, op), rest);
    }
  }

  lemma {:induction false} EditsLegal(r: Registry, ops: seq<Op>)
    requires forall e | e in ops :: !e.ReportOp?
    ensures LegalRun(r, ops)
    decreases |ops|
  {
    if ops != [] { EditsLegal(Apply(r, ops[0]), ops[1..]); }
  }

  class IoManager {
    /** One context per descriptor below the size of the table. */
    var contexts: seq<FdContext>
    const epoll: Epoll
    var pending: nat
    /** Bytes in the tickle pipe. */
    var pipe: nat
    /** The calls of scheduleLock made so far, in order. */
    var calls: seq<ScheduleCall>
    ghost var model: Registry

    ghost predicate Table()
      reads this, contexts
    {
      && |contexts| >= 32
      && (forall i | 0 <= i < |contexts| :: contexts[i].fd == i && contexts[i].Shows(model))
      && (forall k | k in model.slots :: k.fd < |contexts|)
    }

    ghost predicate Mirror()
      reads this, epoll
    {
      Mirrors(epoll.interest, model)
    }

    ghost predicate Counted()
      reads this
    {
      && pending == |model.slots|
      && |calls| == |model.posted|
      && (forall i | 0 <= i < |calls| ::
            calls[i].scheduler == model.posted[i].scheduler && calls[i].body == model.posted[i].body)
    }

    ghost predicate Valid()
      reads this, epoll, contexts
    {
      Table() && Mirror() && Counted() && Inv(model)
    }

    /**
     The kernel is asked for exactly the registered events, in the bits of epoll: 0 for READ, 2 for WRITE, 31
     for edge triggering, and for nothing else.
     */
    lemma Watching(fd: nat)
      requires Valid()
      ensures fd in epoll.interest <==> Key(fd, READ) in model.slots || Key(fd, WRITE) in model.slots
      ensures fd in epoll.interest ==>
                var bits := epoll.interest[fd];
                && (bits & 0x1 != 0 <==> Key(fd, READ) in model.slots)
                && (bits & 0x4 != 0 <==> Key(fd, WRITE) in model.slots)
                && bits & 0x8000_0000 != 0 && bits & 0x7FFF_FFFA == 0
    {
      hide Table, Counted, Inv, Watch, MaskOf;
      WatchedBits(Events(model, fd));
      MaskLaws(Events(model, fd), READ);
    }

    constructor ()
      ensures Valid() && fresh(epoll) && fresh(contexts) && model == EMPTY && calls == []
    {
      epoll := new Epoll();
      contexts, pending, pipe, calls, model := [], 0, 0, [], EMPTY;
      new;
      ContextResize(32);
      EmptyInv();
      EmptyTable();
    }

    lemma EmptyTable()
      requires model == EMPTY && |contexts| == 32
      requires forall i | 0 <= i < |contexts| ::
                 contexts[i].fd == i && contexts[i].mask == 0 && contexts[i].read == NO_CONTEXT
                 && contexts[i].write == NO_CONTEXT
      ensures Table()
    {
      forall i | 0 <= i < |contexts| ensures contexts[i].Shows(model) {
        MaskLaws(Events(model, i), READ);
      }
    }

    /**
     The table gets a new size. It stays in order exactly when no descriptor with a registration is cut
     off, which a call for an old size, overtaken by another one, may do.
     */
    method ContextResize(size: nat)
      modifies this`contexts
      ensures |contexts| == size
      ensures if size <= |old(contexts)| then contexts == old(contexts)[..size] else old(contexts) <= contexts
      ensures fresh(set i | |old(contexts)| <= i < size :: contexts[i])
      ensures forall i | |old(contexts)| <= i < size ::
                contexts[i].fd == i && contexts[i].mask == 0 && contexts[i].read == NO_CONTEXT
                    && contexts[i].write == NO_CONTEXT
      ensures old(Table()) ==> (Table() <==> size >= 32 && forall k | k in model.slots :: k.fd < size)
    {
      if size < |contexts| { contexts := contexts[..size]; }
      var i := |contexts|;
      ghost var was := contexts;
      while i < size
        invariant |was| <= i == |contexts| <= size && was <= contexts
        invariant fresh(set j | |was| <= j < i :: contexts[j])
        invariant forall j | |was| <= j < i ::
                    contexts[j].fd == j && contexts[j].mask == 0 && contexts[j].read == NO_CONTEXT
                        && contexts[j].write == NO_CONTEXT
      {
        var ctx := new FdContext(i);
        contexts := contexts + [ctx];
        i := i + 1;
      }
      if old(Table()) { ResizedTable(size); }
    }

    twostate lemma ResizedTable(size: nat)
      requires old(Table()) && model == old(model) && |contexts| == size
      requires forall i | 0 <= i < size && i < |old(contexts)| ::
            contexts[i] == old(contexts)[i] && unchanged(old(contexts)[i])
      requires forall i | |old(contexts)| <= i < size ::
                 contexts[i].fd == i && contexts[i].mask == 0 && contexts[i].read == NO_CONTEXT
                     && contexts[i].write == NO_CONTEXT
      ensures Table() <==> size >= 32 && forall k | k in model.slots :: k.fd < size
    {
      forall i | 0 <= i < size ensures contexts[i].fd == i && contexts[i].Shows(model) {
        if i < |old(contexts)| {
          assert old(contexts)[i].Shows(model);
        } else {
          MaskLaws(Events(model, i), READ);
        }
      }
    }

    /** The context of a descriptor, growing the table for a descriptor beyond it. */
    method ContextFor(fd: nat) returns (ctx: FdContext)
      requires Valid()
      modifies this`contexts
      ensures Valid() && old(contexts) <= contexts && fresh(set i | |old(contexts)| <= i < |contexts| :: contexts[i])
      ensures fd < |contexts| && ctx == contexts[fd]
      ensures |contexts| == if fd < |old(contexts)| then |old(contexts)| else fd * 3 / 2
    {
      if |contexts| <= fd {
        ContextResize(fd * 3 / 2);
      }
      return contexts[fd];
    }

    /** What the mask of a descriptor's context says. */
    lemma ContextOfFd(fd: nat, event: Event)
      requires Table() && fd < |contexts|
      ensures var ctx, es := contexts[fd], Events(model, fd);
              && ctx.fd == fd && ctx.mask == MaskOf(es)
              && (Has(ctx.mask, event) <==> Key(fd, event) in model.slots)
              && (Has(ctx.mask, event) ==> event in es)
              && (ctx.mask != 0 <==> es != {})
              && With(ctx.mask, event) == MaskOf(es + {event})
              && Less(ctx.mask, event) == MaskOf(es - {event})
              && (Less(ctx.mask, event) != 0 <==> es - {event} != {})
    {
      hide Has, With, Less, MaskOf, Bits, Events;
      MaskLaws(Events(model, fd), event);
      MaskLaws(Events(model, fd) - {event}, event);
      contexts[fd].SlotShape(model, event);
    }

    lemma EmptyBeyond(fd: nat)
      requires Table() && |contexts| <= fd
      ensures Events(model, fd) == {}
    {}

    /** Everything but the interest list, which the caller has already changed. */
    ghost predicate Consistent()
      reads this, contexts
    {
      Table() && Counted() && Inv(model)
    }

    /** epoll_ctl with an operation that fits: it fails only when the kernel is unwilling. */
    method Control(op: CtlOp, fd: nat, events: bv32, willing: bool, ghost target: Registry) returns (rt: int)
      requires Mirror() && epoll.Accepts(op, fd)
      requires forall other: nat | other != fd :: Events(target, other) == Events(model, other)
      requires op.CTL_DEL? <==> Events(target, fd) == {}
      requires !op.CTL_DEL? ==> events == Watch(MaskOf(Events(target, fd)))
      modifies epoll
      ensures rt == 0 <==> willing
      ensures if rt == 0 then Mirrors(epoll.interest, target) else epoll.interest == old(epoll.interest)
    {
      hide Watch, MaskOf, Events, Mirrors;
      ghost var was := epoll.interest;
      rt := epoll.Ctl(op, fd, events, willing);
      if rt == 0 {
        MirrorUpdate(was, epoll.interest, model, target, fd);
      }
    }

    /** Fill the slot of a newly registered event. */
    method Register(ctx: FdContext, event: Event, scheduler: nat, fiber: nat, cb: Option<nat>)
      requires Consistent() && ctx in contexts && Key(ctx.fd, event) !in model.slots
      modifies this`pending, this`model, ctx
      ensures Consistent()
      ensures model ==
            Add(old(model), Key(ctx.fd, event), scheduler, if cb.Some? then CbBody(cb.value) else FiberBody(fiber))
    {
      hide Has, With, Less, Meets, Left, Watch, Bits, Bit, Inv, Events, MaskOf;
      var body := if cb.Some? then CbBody(cb.value) else FiberBody(fiber);
      AddInv(model, Key(ctx.fd, event), scheduler, body);
      ctx.Fill(event, scheduler, body, model);
      AddEvents(model, Key(ctx.fd, event), scheduler, body);
      pending := pending + 1;
      model := Add(model, Key(ctx.fd, event), scheduler, body);
    }

    /** Empty the slot of an event that is not to be posted. */
    method Deregister(ctx: FdContext, event: Event)
      requires Consistent() && ctx in contexts && Key(ctx.fd, event) in model.slots
      modifies this`pending, this`model, ctx
      ensures Consistent()
      ensures model == Drop(old(model), Key(ctx.fd, event))
    {
      hide Has, With, Less, Meets, Left, Watch, Bits, Bit, Inv, Events, MaskOf;
      MaskLaws(Events(model, ctx.fd), event);
      DropEvents(model, Key(ctx.fd, event));
      DropInv(model, Key(ctx.fd, event));
      RemoveSize(model.slots, Key(ctx.fd, event));
      pending := pending - 1;
      ctx.mask := Less(ctx.mask, event);
      ctx.SetSlot(event, NO_CONTEXT);
      model := Drop(model, Key(ctx.fd, event));
      assert ctx.Shows(model);
    }

    /** triggerEvent together with the decrement that goes with it. */
    method Trigger(ctx: FdContext, event: Event)
      requires Consistent() && ctx in contexts && Key(ctx.fd, event) in model.slots
      modifies this`pending, this`model, this`calls, ctx
      ensures Consistent()
      ensures model == Fire(old(model), Key(ctx.fd, event))
      ensures calls == old(calls) + SlotCall(old(model), Key(ctx.fd, event))
    {
      hide Has, With, Less, Meets, Left, Watch, Bits, Bit, Inv, Events, MaskOf;
      FireEvents(model, Key(ctx.fd, event));
      FireInv(model, Key(ctx.fd, event));
      RemoveSize(model.slots, Key(ctx.fd, event));
      var call := ctx.TriggerEvent(event, model);
      pending := pending - 1;
      calls := calls + [call];
      model := Fire(model, Key(ctx.fd, event));
    }

    lemma FiredFirst(r: Registry, fd: nat, es: set<Event>)
      requires es <= Events(r, fd)
      ensures READ in es ==> Key(fd, READ) in r.slots
      ensures WRITE in es ==> Key(fd, WRITE) in r.slots && Key(fd, WRITE) in Fire(r, Key(fd, READ)).slots
      ensures SlotCall(Fire(r, Key(fd, READ)), Key(fd, WRITE)) == SlotCall(r, Key(fd, WRITE))
    {}

    /** The triggers of `cancelAll` and `idle`, READ first. */
    method TriggerAll(ctx: FdContext, ready: bv32, ghost es: set<Event>)
      requires Consistent() && ctx in contexts && es <= Events(model, ctx.fd) && ready == MaskOf(es)
      modifies this`pending, this`model, this`calls, ctx
      ensures Consistent()
      ensures model == FireAll(old(model), ctx.fd, es)
      ensures calls == old(calls)
                + (if READ in es then SlotCall(old(model), Key(ctx.fd, READ)) else [])
                + (if WRITE in es then SlotCall(old(model), Key(ctx.fd, WRITE)) else [])
    {
      hide Has, With, Less, Meets, Left, Watch, Bits, Inv, SlotCall, Fire, Events, MaskOf;
      FiredFirst(model, ctx.fd, es);
      MaskLaws(es, READ);
      MaskLaws(es, WRITE);
      if Has(ready, READ) {
        Trigger(ctx, READ);
      }
      if Has(ready, WRITE) {
        Trigger(ctx, WRITE);
      }
    }

    /**
     Registers the callback, or the running fiber when there is none. Fails with -1 when the event is
     already registered or epoll_ctl fails, and then changes nothing but the size of the table.
     */
    method AddEvent(fd: nat, event: Event, cb: Option<nat>, scheduler: nat, fiber: nat, willing: bool) returns (rt: int)
      requires Valid()
      modifies this, epoll, contexts
      ensures pipe == old(pipe)
      ensures Valid() && old(contexts) <= contexts && fresh(set i | |old(contexts)| <= i < |contexts| :: contexts[i])
      ensures var body := if cb.Some? then CbBody(cb.value) else FiberBody(fiber);
              model == Apply(old(model), AddOp(Key(fd, event), scheduler, body, willing))
      ensures rt == 0 <==> Key(fd, event) !in old(model).slots && willing
      ensures rt == 0 || rt == -1
      ensures calls == old(calls)
      ensures rt == 0 ==>
                && Key(fd, event) in model.slots && model.slots[Key(fd, event)].scheduler == scheduler
                && model.slots[Key(fd, event)].body == if cb.Some? then CbBody(cb.value) else FiberBody(fiber)
    {
      hide Has, With, Less, Meets, Left, Watch, Bits, Bit, Inv, Events, MaskOf, Table, Counted;
      var ctx := ContextFor(fd);
      ghost var key := Key(fd, event);
      ghost var body := if cb.Some? then CbBody(cb.value) else FiberBody(fiber);
      ContextOfFd(fd, event);
      if Has(ctx.mask, event) { return -1; }
      AddEvents(model, key, scheduler, body);
      var op := if ctx.mask != 0 then CTL_MOD else CTL_ADD;
      var failed := Control(op, fd, Watch(With(ctx.mask, event)), willing, Add(model, key, scheduler, body));
      if failed != 0 { return -1; }
      Register(ctx, event, scheduler, fiber, cb);
      return 0;
    }

    /**
     Forgets a registration. The result only says that there was one: a failed epoll_ctl returns -1 as a
     boolean and leaves everything as it was.
     */
    method DelEvent(fd: nat, event: Event, willing: bool) returns (found: bool)
      requires Valid()
      modifies this, epoll, contexts
      ensures pipe == old(pipe)
      ensures Valid() && contexts == old(contexts)
      ensures model == Apply(old(model), DelOp(Key(fd, event), willing))
      ensures found <==> Key(fd, event) in old(model).slots
      ensures calls == old(calls)
    {
      hide Has, With, Less, Meets, Left, Watch, Bits, Bit, Inv, Events, MaskOf, Counted;
      if |contexts| <= fd { return false; }
      var ctx := contexts[fd];
      ContextOfFd(fd, event);
      if !Has(ctx.mask, event) { return false; }
      DropEvents(model, Key(fd, event));
      var newEvents := Less(ctx.mask, event);
      var op := if newEvents != 0 then CTL_MOD else CTL_DEL;
      var failed := Control(op, fd, Watch(newEvents), willing, Drop(model, Key(fd, event)));
      if failed != 0 { return true; }
      Deregister(ctx, event);
      return true;
    }

    /** Posts a registration at once. The result is as for DelEvent. */
    method CancelEvent(fd: nat, event: Event, willing: bool) returns (found: bool)
      requires Valid()
      modifies this, epoll, contexts
      ensures pipe == old(pipe)
      ensures Valid() && contexts == old(contexts)
      ensures model == Apply(old(model), CancelOp(Key(fd, event), willing))
      ensures found <==> Key(fd, event) in old(model).slots
      ensures calls == old(calls) + if willing then SlotCall(old(model), Key(fd, event)) else []
    {
      hide Has, With, Less, Meets, Left, Watch, Bits, Bit, Inv, Events, MaskOf, Counted;
      if |contexts| <= fd { return false; }
      var ctx := contexts[fd];
      ContextOfFd(fd, event);
      if !Has(ctx.mask, event) { return false; }
      FireEvents(model, Key(fd, event));
      var newEvents := Less(ctx.mask, event);
      var op := if newEvents != 0 then CTL_MOD else CTL_DEL;
      var failed := Control(op, fd, Watch(newEvents), willing, Fire(model, Key(fd, event)));
      if failed != 0 { return true; }
      Trigger(ctx, event);
      return true;
    }

    lemma AllFired(r: Registry, fd: nat, willing: bool)
      ensures Apply(r, CancelAllOp(fd, willing)) == if willing then FireAll(r, fd, Events(r, fd)) else r
      ensures Events(r, fd) == {} ==> FireAll(r, fd, Events(r, fd)) == r
    {}

    /** Posts everything registered for a descriptor. */
    method CancelAll(fd: nat, willing: bool) returns (found: bool)
      requires Valid()
      modifies this, epoll, contexts
      ensures pipe == old(pipe)
      ensures Valid() && contexts == old(contexts)
      ensures model == Apply(old(model), CancelAllOp(fd, willing))
      ensures found <==> Events(old(model), fd) != {}
      ensures willing ==> Events(model, fd) == {}
      ensures calls == old(calls) + if willing then SlotCall(old(model), Key(fd, READ))
                                                   + SlotCall(old(model), Key(fd, WRITE)) else []
    {
      hide Has, With, Less, Meets, Left, Watch, Bits, Bit, Inv, Counted, MaskOf, Events, Apply, FireAll;
      Reported(fd, 0);
      AllFired(model, fd, willing);
      if |contexts| <= fd { EmptyBeyond(fd); return false; }
      var ctx := contexts[fd];
      ghost var es := Events(model, fd);
      ContextOfFd(fd, READ);
      FireAllEvents(model, fd, es);
      if ctx.mask == 0 { return false; }
      var failed := Control(CTL_DEL, fd, 0, willing, FireAll(model, fd, es));
      if failed != 0 { return true; }
      TriggerAll(ctx, ctx.mask, es);
      ContextOfFd(fd, READ);
      assert ctx.mask == 0;  // asserted at code/ioscheduler.cpp:375
      return true;
    }

    /**
     One entry of the event buffer, in `idle`. What the buffer owes the asserts of triggerEvent is exactly
     what DispatchAsserts says.
     */
    method DispatchReport(fd: nat, events: bv32, willing: bool)
      requires Valid() && fd < |contexts|
      requires Legal(model, ReportOp(fd, ReadySet(Events(model, fd), events), willing))
      modifies this, epoll, contexts
      ensures Valid() && contexts == old(contexts)
      ensures model == Apply(old(model), ReportOp(fd, ReadySet(Events(old(model), fd), events), willing))
      ensures pipe == old(pipe)
      ensures calls == old(calls)
                + (if willing && events & 0x19 != 0 then SlotCall(old(model), Key(fd, READ)) else [])
                + (if willing && events & 0x1C != 0 then SlotCall(old(model), Key(fd, WRITE)) else [])
    {
      hide Has, With, Less, Meets, Left, Watch, Bits, Inv, Counted, Events, ReadySet, MaskOf, Ready;
      var ctx := contexts[fd];
      ghost var es := Events(model, fd);
      ghost var ready := ReadySet(es, events);
      var realEvents := Ready(ctx.mask, events);
      ContextOfFd(fd, READ);
      ReadyLaws(es, events);
      Reported(fd, events);
      MaskSets(es, ready);
      MaskLaws(es * ready, READ);
      MaskLaws(es - ready, READ);
      assert forall e | e in es && e in ready :: e in es * ready;
      if !Meets(ctx.mask, realEvents) { return; }
      var left := Left(ctx.mask, realEvents);
      var op := if left != 0 then CTL_MOD else CTL_DEL;
      FireAllEvents(model, fd, ready);
      var failed := Control(op, fd, Watch(left), willing, FireAll(model, fd, ready));
      if failed != 0 { return; }
      TriggerAll(ctx, realEvents, ready);
    }

    /** A report and an event that is registered. */
    lemma Reported(fd: nat, events: bv32)
      ensures var es, ready := Events(model, fd), ReadySet(Events(model, fd), events);
              && (READ in es ==> (READ in ready <==> events & 0x19 != 0) && Key(fd, READ) in model.slots)
              && (WRITE in es ==> (WRITE in ready <==> events & 0x1C != 0) && Key(fd, WRITE) in model.slots)
              && (READ !in es ==> Key(fd, READ) !in model.slots)
              && (WRITE !in es ==> Key(fd, WRITE) !in model.slots)
    {
      ReportBits(Events(model, fd), events);
    }

    /** Reads the tickle pipe until it is empty. */
    method DrainPipe()
      requires Valid()
      modifies this`pipe
      ensures Valid() && pipe == 0
    {
      while pipe > 0
        invariant Valid()
      {
        pipe := if pipe < 256 then 0 else pipe - 256;
      }
    }

    /** A call of another thread, or an entry of another worker's buffer. */
    method Edit(op: Op)
      requires Valid() && Legal(model, op)
      modifies this, epoll, contexts
      ensures Valid() && old(contexts) <= contexts && fresh(set i | |old(contexts)| <= i < |contexts| :: contexts[i])
      ensures model == Apply(old(model), op) && pipe == old(pipe)
    {
      hide Inv, Table, Mirror, Counted, Legal, Apply;
      match op {
        case AddOp(key, scheduler, body, ok) =>
          var fiber := if body.FiberBody? then body.fiber else 0;
          var _ := AddEvent(key.fd, key.event, if body.CbBody? then Some(body.cb) else None, scheduler, fiber, ok);
        case DelOp(key, ok) =>
          var _ := DelEvent(key.fd, key.event, ok);
        case CancelOp(key, ok) =>
          var _ := CancelEvent(key.fd, key.event, ok);
        case CancelAllOp(fd, ok) =>
          var _ := CancelAll(fd, ok);
        case ReportOp(fd, ready, ok) =>
          BitsOfReady(Events(model, fd), ready);
          if fd < |contexts| { DispatchReport(fd, BitsOf(ready), ok); } else { BeyondTable(fd, ready, ok); }
      }
    }

    method Edits(ops: seq<Op>)
      requires Valid() && LegalRun(model, ops)
      modifies this, epoll, contexts
      ensures Valid() && old(contexts) <= contexts && fresh(set i | |old(contexts)| <= i < |contexts| :: contexts[i])
      ensures model == Run(old(model), ops) && pipe == old(pipe)
    {
      hide Inv, Table, Mirror, Counted, Legal, Apply;
      ghost var r := model;
      var i := 0;
      assert ops[0..] == ops;
      while i < |ops|
        invariant i <= |ops| && Valid() && pipe == old(pipe)
        invariant old(contexts) <= contexts && fresh(set k | |old(contexts)| <= k < |contexts| :: contexts[k])
        invariant LegalRun(model, ops[i..]) && Run(model, ops[i..]) == Run(r, ops)
      {
        assert ops[i..][1..] == ops[i + 1..] && ops[i..][0] == ops[i];
        Edit(ops[i]);
        i := i + 1;
      }
    }

    lemma BeyondTable(fd: nat, ready: set<Event>, ok: bool)
      requires Table() && |contexts| <= fd && Legal(model, ReportOp(fd, ready, ok))
      ensures Apply(model, ReportOp(fd, ready, ok)) == model
    {
      EmptyBeyond(fd);
    }

    /**
     The loop of `idle` over the event buffer, with what others do to the registry before each entry. Every
     assert holds if each entry is legal when it is reached.
     */
    method Dispatch(buffer: seq<Entry>)
      requires Valid() && BufferLegal(model, buffer)
      requires forall i | 0 <= i < |buffer| && buffer[i].report.Readiness? :: buffer[i].report.fd < |contexts|
      modifies this, epoll, contexts
      ensures Valid() && old(contexts) <= contexts && fresh(set i | |old(contexts)| <= i < |contexts| :: contexts[i])
      ensures model == AfterBuffer(old(model), buffer)
      ensures pipe == if Tickled(buffer) then 0 else old(pipe)
    {
      hide Inv, Table, Mirror, Counted, ReadySet, Apply, Legal, Run, LegalRun, Tickled;
      ghost var r := model;
      var i := 0;
      assert buffer[0..] == buffer && !Tickled(buffer[..0]) by { NoneTickled(); }
      while i < |buffer|
        invariant i <= |buffer| && Valid()
        invariant old(contexts) <= contexts && fresh(set k | |old(contexts)| <= k < |contexts| :: contexts[k])
        invariant BufferLegal(model, buffer[i..])
        invariant AfterBuffer(model, buffer[i..]) == AfterBuffer(r, buffer)
        invariant pipe == if Tickled(buffer[..i]) then 0 else old(pipe)
      {
        assert buffer[i..][1..] == buffer[i + 1..] && buffer[i..][0] == buffer[i];
        Edits(buffer[i].edits);
        match buffer[i].report {
          case Tickle =>
            DrainPipe();
          case Readiness(fd, events) =>
            DispatchReport(fd, events, buffer[i].willing);
        }
        TickledMore(buffer, i);
        i := i + 1;
      }
      assert buffer[..i] == buffer;
    }

    // -------------------------------------------------------------- the pending counter

    /** Bits set in a mask. */
    static function BitsSet(mask: bv32): nat {
      (if Has(mask, READ) then 1 else 0) + (if Has(mask, WRITE) then 1 else 0)
    }

    /** Bits set in the masks of the first `n` contexts. */
    function SetBits(n: nat): nat
      requires n <= |contexts|
      reads this, contexts
    {
      if n == 0 then 0 else SetBits(n - 1) + BitsSet(contexts[n - 1].mask)
    }

    lemma {:induction false} SetBitsCount(n: nat)
      requires Table() && n <= |contexts|
      ensures SetBits(n) == CountEvents(model, n)
    {
      hide Has, MaskOf, Bits;
      if n > 0 {
        SetBitsCount(n - 1);
        MaskLaws(Events(model, n - 1), READ);
        MaskLaws(Events(model, n - 1), WRITE);
        ByEvent(Events(model, n - 1));
      }
    }

    /** Between critical sections the counter is the sum of the set bits over all descriptors. */
    lemma PendingIsSetBits()
      requires Valid()
      ensures pending == SetBits(|contexts|)
    {
      SetBitsCount(|contexts|);
      CountAll(model, |contexts|);
    }

    // -------------------------------------------------------------- the hooked close

    /**
     `close` on a tracked descriptor: cancelAll, whose failure it ignores, and then the kernel drops the
     descriptor. The interest list still mirrors the table exactly when cancelAll had nothing to do or
     succeeded.
     */
    method Close(fd: nat, willing: bool)
      requires Valid()
      modifies this, epoll, contexts
      ensures Consistent() && contexts == old(contexts)
      ensures model == Apply(old(model), CancelAllOp(fd, willing))
      ensures fd !in epoll.interest
      ensures Mirror() <==> willing || Events(old(model), fd) == {}
    {
      hide Inv, Table, Counted, Apply;
      var _ := CancelAll(fd, willing);
      ghost var was := epoll.interest;
      KeptUnlessWilling(old(model), fd);
      epoll.Closed(fd);
      assert Events(model, fd) == {} ==> epoll.interest == was;
    }
  }

  /** A table that has grown for descriptor 40 is set back to the size of an older call, and loses a registration. */
  method ResizeCutsOff() returns (m: IoManager)
    ensures fresh(m) && m.pending == 1 && !m.Table()
  {
    hide Inv, IoManager.Mirror;
    m := new IoManager();
    var _ := m.AddEvent(40, READ, Some(0), 0, 0, true);
    assert Key(40, READ) in m.model.slots;
    m.ContextResize(33);
  }

  /** A registered descriptor is closed while epoll_ctl refuses, and the mask stays behind. */
  method CloseLosesMirror() returns (m: IoManager)
    ensures fresh(m) && !m.Mirror() && Events(m.model, 5) == {READ} && 5 !in m.epoll.interest
  {
    hide Inv, IoManager.Table;
    m := new IoManager();
    var _ := m.AddEvent(5, READ, Some(0), 0, 0, true);
    assert Key(5, READ) in m.model.slots;
    m.Close(5, false);
    KeptUnlessWilling(m.model, 5);
  }

  lemma KeptUnlessWilling(r: Registry, fd: nat)
    ensures Apply(r, CancelAllOp(fd, false)) == r
  {}
}
