/** The bit masks of code/ioscheduler.h and of epoll, and the sets of events they stand for. */
module EventMasks {
  import opened EventRegistry

  const EPOLLIN: bv32 := 0x1
  const EPOLLOUT: bv32 := 0x4
  const EPOLLERR: bv32 := 0x8
  const EPOLLHUP: bv32 := 0x10
  const EPOLLET: bv32 := 0x8000_0000

  /** enum Event. */
  function Bit(e: Event): bv32 {
    match e
    case READ => 0x1
    case WRITE => 0x4
  }

  function Bits(read: bool, write: bool): (m: bv32) {
    (if read then Bit(READ) else 0) | (if write then Bit(WRITE) else 0)
  }

  function MaskOf(es: set<Event>): (m: bv32) {
    Bits(READ in es, WRITE in es)
  }

  predicate Has(mask: bv32, e: Event) { mask & Bit(e) != 0 }

  function With(mask: bv32, e: Event): bv32 { mask | Bit(e) }

  function Less(mask: bv32, e: Event): bv32 { mask & !Bit(e) }

  predicate Meets(mask: bv32, ready: bv32) { mask & ready != 0 }

  function Left(mask: bv32, ready: bv32): bv32 { mask & !ready }

  /** What is written to epoll for a mask. */
  function Watch(mask: bv32): bv32 { EPOLLET | mask }

  /** Bit 0 stands for READ, bit 2 for WRITE and bit 31 for edge triggering; nothing else is asked for. */
  lemma WatchedBits(es: set<Event>)
    ensures var bits := Watch(MaskOf(es));
            && (bits & 0x1 != 0 <==> READ in es)
            && (bits & 0x4 != 0 <==> WRITE in es)
            && bits & 0x8000_0000 != 0
            && bits & 0x7FFF_FFFA == 0
  {
    if READ in es { if WRITE in es {} } else { if WRITE in es {} }
  }

  lemma MaskBits(es: set<Event>)
    ensures MaskOf(es) & 0x1 != 0 <==> READ in es
    ensures MaskOf(es) & 0x4 != 0 <==> WRITE in es
    ensures MaskOf(es) & 0xFFFF_FFFA == 0
  {
    if READ in es { if WRITE in es {} } else { if WRITE in es {} }
  }

  /**
   What a report stands for: EPOLLIN is bit 0, EPOLLOUT bit 2, and an error (bit 3) or a hang-up (bit 4) adds
   every registered event.
   */
  lemma ReportBits(es: set<Event>, events: bv32)
    ensures READ in ReadySet(es, events) <==> events & 0x1 != 0 || (events & 0x18 != 0 && READ in es)
    ensures WRITE in ReadySet(es, events) <==> events & 0x4 != 0 || (events & 0x18 != 0 && WRITE in es)
  {}

  /** The mask operations of the source are the set operations. */
  lemma MaskLaws(es: set<Event>, e: Event)
    ensures Has(MaskOf(es), e) <==> e in es
    ensures With(MaskOf(es), e) == MaskOf(es + {e})
    ensures Less(MaskOf(es), e) == MaskOf(es - {e})
    ensures MaskOf(es) == 0 <==> es == {}
  {
    ByEvent(es);
    match e case READ => case WRITE =>
  }

  /** A readiness report as `idle` reads it: errors and hang-ups wake every registered event. */
  function Ready(mask: bv32, events: bv32): (ready: bv32) {
    var widened := if events & (EPOLLERR | EPOLLHUP) != 0 then events | ((EPOLLIN | EPOLLOUT) & mask) else events;
    (if widened & EPOLLIN != 0 then Bit(READ) else 0) | (if widened & EPOLLOUT != 0 then Bit(WRITE) else 0)
  }

  function ReadySet(es: set<Event>, events: bv32): (ready: set<Event>) {
    (if events & (EPOLLERR | EPOLLHUP) != 0 then es else {})
    + (if events & EPOLLIN != 0 then {READ} else {})
    + (if events & EPOLLOUT != 0 then {WRITE} else {})
  }

  /** Readiness without errors. */
  function BitsOf(ready: set<Event>): bv32 {
    (if READ in ready then EPOLLIN else 0) | (if WRITE in ready then EPOLLOUT else 0)
  }

  lemma BitsOfReady(es: set<Event>, ready: set<Event>)
    ensures ReadySet(es, BitsOf(ready)) == ready
  {
    ByEvent(ready);
  }

  lemma ReadyLaws(es: set<Event>, events: bv32)
    ensures Ready(MaskOf(es), events) == MaskOf(ReadySet(es, events))
  {
    WidenedBits(es, events);
    ByEvent(es);
  }

  /** Widening adds a registered event's bit exactly on an error or hang-up. */
  lemma WidenedBits(es: set<Event>, events: bv32)
    ensures var mask := MaskOf(es);
            var widened := if events & (EPOLLERR | EPOLLHUP) != 0 then events | ((EPOLLIN | EPOLLOUT) & mask)
                  else events;
            && (widened & EPOLLIN != 0 <==>
                  events & EPOLLIN != 0 || (events & (EPOLLERR | EPOLLHUP) != 0 && READ in es))
            && (widened & EPOLLOUT != 0 <==>
                  events & EPOLLOUT != 0 || (events & (EPOLLERR | EPOLLHUP) != 0 && WRITE in es))
  {}

  lemma MaskSets(es: set<Event>, ready: set<Event>)
    ensures Meets(MaskOf(es), MaskOf(ready)) <==> es * ready != {}
    ensures Left(MaskOf(es), MaskOf(ready)) == MaskOf(es - ready)
  {
    BitsLaws(READ in es, WRITE in es, READ in ready, WRITE in ready);
    ByEvent(es * ready);
  }

  lemma BitsLaws(r: bool, w: bool, r2: bool, w2: bool)
    ensures Bits(r, w) & Bits(r2, w2) == Bits(r && r2, w && w2)
    ensures Bits(r, w) & !Bits(r2, w2) == Bits(r && !r2, w && !w2)
  {
    if r { if w {} else {} } else { if w {} else {} }
  }
}
