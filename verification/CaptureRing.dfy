/** The ring of captured frames in kernel/virtio_net.c: 16 slots and free-running 16-bit counters. */
module CaptureRing {
  import opened Machine

  const SLOTS := 16
  const TWO_16 := 0x1_0000

  datatype Capture = Capture(ethertype: int, frame: seq<Byte>)

  datatype Ring = Ring(slots: seq<Capture>, write: int, read: int, drops: int)

  predicate Shaped(r: Ring) {
    |r.slots| == SLOTS && 0 <= r.write < TWO_16 && 0 <= r.read < TWO_16 && 0 <= r.drops < TWO_32
  }

  /** `(uint16_t) (write - read)`. */
  function Occupancy(r: Ring): (n: int)
    ensures 0 <= n < TWO_16
  {
    (r.write - r.read) % TWO_16
  }

  predicate Valid(r: Ring) {
    Shaped(r) && Occupancy(r) <= SLOTS
  }

  /** The captured frames, oldest first. */
  function Contents(r: Ring): (q: seq<Capture>)
    requires Shaped(r)
    ensures |q| == Occupancy(r)
  {
    seq(Occupancy(r), i requires 0 <= i => r.slots[(r.read + i) % SLOTS])
  }

  /** `virtio_net_capture_rx`. */
  function Push(r: Ring, c: Capture): Ring
    requires Shaped(r)
  {
    if Occupancy(r) >= SLOTS then r.(drops := (r.drops + 1) % TWO_32)
    else r.(slots := r.slots[r.write % SLOTS := c], write := (r.write + 1) % TWO_16)
  }

  /** `virtio_net_pop_rx_frame` on a ring that is not empty. */
  function PopRing(r: Ring): Ring {
    r.(read := (r.read + 1) % TWO_16)
  }

  function Truncated(c: Capture, capacity: nat): Capture {
    if |c.frame| > capacity then c.(frame := c.frame[..capacity]) else c
  }

  lemma SlotOf(read: int, write: int, n: int)
    requires 0 <= read < TWO_16 && 0 <= write < TWO_16 && n == (write - read) % TWO_16
    ensures write % SLOTS == (read + n) % SLOTS
    ensures n < TWO_16 - 1 ==> ((write + 1) % TWO_16 - read) % TWO_16 == n + 1
  {
  }

  lemma OtherSlot(read: int, i: int, n: int)
    requires 0 <= i < n < SLOTS
    ensures (read + i) % SLOTS != (read + n) % SLOTS
  {
  }

  /** Pushing appends to the queue, or drops when 16 frames wait. */
  lemma PushRefines(r: Ring, c: Capture)
    requires Valid(r)
    ensures Valid(Push(r, c))
    ensures Contents(Push(r, c)) == if |Contents(r)| < SLOTS then Contents(r) + [c] else Contents(r)
  {
    var n := Occupancy(r);
    if n < SLOTS {
      var r1 := Push(r, c);
      SlotOf(r.read, r.write, n);
      forall i | 0 <= i < n + 1 ensures Contents(r1)[i] == (Contents(r) + [c])[i] {
        if i < n {
          OtherSlot(r.read, i, n);
        }
      }
    } else {
      assert Contents(Push(r, c)) == Contents(r);
    }
  }

  lemma ReadNext(read: int, write: int, i: int)
    requires 0 <= read < TWO_16 && 0 <= write < TWO_16 && read != write && 0 <= i
    ensures (write - (read + 1) % TWO_16) % TWO_16 == (write - read) % TWO_16 - 1
    ensures ((read + 1) % TWO_16 + i) % SLOTS == (read + (i + 1)) % SLOTS
  {
  }

  /** Popping takes the oldest frame. */
  lemma PopRefines(r: Ring)
    requires Valid(r)
    ensures r.read == r.write <==> |Contents(r)| == 0
    ensures r.read != r.write ==>
              && Valid(PopRing(r)) && r.slots[r.read % SLOTS] == Contents(r)[0]
              && Contents(PopRing(r)) == Contents(r)[1..]
  {
    SameCounters(r.read, r.write);
    if r.read != r.write {
      ReadNext(r.read, r.write, 0);
      PopContents(r);
    }
  }

  lemma SameCounters(read: int, write: int)
    requires 0 <= read < TWO_16 && 0 <= write < TWO_16
    ensures (write - read) % TWO_16 == 0 <==> read == write
  {
  }

  lemma PopContents(r: Ring)
    requires Valid(r) && r.read != r.write && Occupancy(PopRing(r)) == Occupancy(r) - 1
    ensures Contents(PopRing(r)) == Contents(r)[1..]
  {
    hide Occupancy;
    forall i | 0 <= i < Occupancy(r) - 1 ensures Contents(PopRing(r))[i] == Contents(r)[i + 1] {
      ReadNext(r.read, r.write, i);
    }
  }

  // ---- whole runs ----

  datatype Op = Offer(c: Capture) | Take(capacity: nat)

  /** The abstract queue: what waits, how many frames were accepted and dropped, what was taken, and the
      capacities it was taken with. */
  datatype Fifo = Fifo(queue: seq<Capture>, accepted: nat, dropped: nat, taken: seq<Capture>, caps: seq<nat>)

  function FifoStep(f: Fifo, op: Op): Fifo {
    match op
    case Offer(c) =>
      if |f.queue| < 16 then f.(queue := f.queue + [c], accepted := f.accepted + 1)
      else f.(dropped := f.dropped + 1)
    case Take(capacity) =>
      if f.queue == [] then f
      else f.(queue := f.queue[1..], taken := f.taken + [Truncated(f.queue[0], capacity)], caps := f.caps + [capacity])
  }

  /** The ring with the list of frames its callers were given. */
  datatype Driver = Driver(ring: Ring, given: seq<Capture>)

  function DriverStep(d: Driver, op: Op): Driver
    requires Shaped(d.ring)
  {
    match op
    case Offer(c) => d.(ring := Push(d.ring, c))
    case Take(capacity) =>
      if d.ring.read == d.ring.write then d
      else Driver(PopRing(d.ring), d.given + [Truncated(d.ring.slots[d.ring.read % SLOTS], capacity)])
  }

  ghost predicate Related(d: Driver, f: Fifo) {
    && Valid(d.ring)
    && Contents(d.ring) == f.queue
    && d.ring.write == f.accepted % 65536
    && d.ring.drops == f.dropped % 0x1_0000_0000
    && d.given == f.taken
  }

  lemma StepRefines(d: Driver, f: Fifo, op: Op)
    requires Related(d, f)
    ensures Related(DriverStep(d, op), FifoStep(f, op))
  {
    hide Contents;
    match op {
      case Offer(c) =>
        PushRefines(d.ring, c);
        CountUp(f.accepted, f.dropped);
      case Take(capacity) => PopRefines(d.ring);
    }
  }

  lemma CountUp(a: nat, d: nat)
    ensures (a % TWO_16 + 1) % TWO_16 == (a + 1) % TWO_16
    ensures (d % TWO_32 + 1) % TWO_32 == (d + 1) % TWO_32
  {
  }

  function Offers(ops: seq<Op>): nat {
    if ops == [] then 0 else Offers(ops[..|ops| - 1]) + if ops[|ops| - 1].Offer? then 1 else 0
  }

  ghost function FifoRun(f: Fifo, ops: seq<Op>): Fifo {
    if ops == [] then f else FifoStep(FifoRun(f, ops[..|ops| - 1]), ops[|ops| - 1])
  }

  function Empty(): Ring {
    Ring(seq(SLOTS, _ => Capture(0, [])), 0, 0, 0)
  }

  /** The states the ring driver reaches from an empty ring. */
  ghost function DriverRun(ops: seq<Op>): (d: Driver)
    ensures Shaped(d.ring)
  {
    if ops == [] then Driver(Empty(), [])
    else DriverStep(DriverRun(ops[..|ops| - 1]), ops[|ops| - 1])
  }

  const NOTHING := Fifo([], 0, 0, [], [])

  /** Over every sequence of arrivals and pops the ring is a 16-place queue that drops when full: the
      callers get the accepted frames in order, cut to their capacity, and the counters account for
      every frame offered. */
  lemma {:induction false} RunRefines(ops: seq<Op>)
    ensures Related(DriverRun(ops), FifoRun(NOTHING, ops))
    ensures FifoRun(NOTHING, ops).accepted + FifoRun(NOTHING, ops).dropped == Offers(ops)
    ensures FifoRun(NOTHING, ops).accepted == |FifoRun(NOTHING, ops).taken| + |FifoRun(NOTHING, ops).queue|
    decreases |ops|
  {
    hide Related;
    if ops == [] {
      EmptyRelated();
    } else {
      var n := |ops| - 1;
      RunRefines(ops[..n]);
      StepRefines(DriverRun(ops[..n]), FifoRun(NOTHING, ops[..n]), ops[n]);
    }
  }

  lemma EmptyRelated()
    ensures Related(Driver(Empty(), []), NOTHING)
  {
  }

  // ---- what the callers get ----

  /** The frames offered, in order. */
  function Offered(ops: seq<Op>): seq<Capture> {
    if ops == [] then []
    else
      var last := ops[|ops| - 1];
      Offered(ops[..|ops| - 1]) + if last.Offer? then [last.c] else []
  }

  /** Those of them that found a free place. */
  ghost function Accepted(ops: seq<Op>): seq<Capture> {
    if ops == [] then []
    else
      var last, before := ops[|ops| - 1], ops[..|ops| - 1];
      Accepted(before) + if last.Offer? && |FifoRun(NOTHING, before).queue| < SLOTS then [last.c] else []
  }

  /** `c` is `d`, all of it or as much as the capacity holds. */
  predicate IsCut(c: Capture, d: Capture, capacity: nat) {
    && c.ethertype == d.ethertype
    && |c.frame| == (if capacity < |d.frame| then capacity else |d.frame|)
    && (forall i :: 0 <= i < |c.frame| && i < |d.frame| ==> c.frame[i] == d.frame[i])
  }

  /** The capacities asked for, also of an empty ring. */
  function Takes(ops: seq<Op>): seq<nat> {
    if ops == [] then []
    else
      var last := ops[|ops| - 1];
      Takes(ops[..|ops| - 1]) + if last.Take? then [last.capacity] else []
  }

  /** What was taken is the accepted frames from the first on, each cut to the capacity asked for; the rest
      wait; and without drops all frames offered were accepted. */
  ghost predicate Accounts(f: Fifo, accepted: seq<Capture>, offered: seq<Capture>) {
    && |f.taken| == |f.caps| <= |accepted| && f.queue == accepted[|f.taken|..]
    && (forall i :: 0 <= i < |f.taken| ==> IsCut(f.taken[i], accepted[i], f.caps[i]))
    && |accepted| == f.accepted
    && (f.dropped == 0 ==> accepted == offered)
  }

  lemma OfferAccounts(f: Fifo, c: Capture, accepted: seq<Capture>, offered: seq<Capture>)
    requires Accounts(f, accepted, offered)
    ensures Accounts(FifoStep(f, Offer(c)), accepted + if |f.queue| < SLOTS then [c] else [], offered + [c])
  {
  }

  lemma TakeAccounts(f: Fifo, capacity: nat, accepted: seq<Capture>, offered: seq<Capture>)
    requires Accounts(f, accepted, offered)
    ensures Accounts(FifoStep(f, Take(capacity)), accepted, offered)
  {
    if f.queue != [] {
      assert f.queue[0] == accepted[|f.taken|];
      assert f.queue[1..] == accepted[|f.taken| + 1..];
    }
  }

  /** Callers get the accepted frames in order, each cut to the capacity asked for, and the rest of them
      wait; when nothing was dropped, all frames were accepted. */
  lemma {:induction false} GivenInOrder(ops: seq<Op>)
    ensures Accounts(FifoRun(NOTHING, ops), Accepted(ops), Offered(ops))
    decreases |ops|
  {
    hide FifoStep, Accounts;
    if ops == [] {
      NothingAccounts();
    } else {
      var n := |ops| - 1;
      var f, accepted, offered := FifoRun(NOTHING, ops[..n]), Accepted(ops[..n]), Offered(ops[..n]);
      GivenInOrder(ops[..n]);
      assert accepted + [] == accepted && offered + [] == offered;
      match ops[n] {
        case Offer(c) => OfferAccounts(f, c, accepted, offered);
        case Take(capacity) => TakeAccounts(f, capacity, accepted, offered);
      }
    }
  }

  lemma NothingAccounts()
    ensures Accounts(NOTHING, [], [])
  {
  }

  // ---- the ring as it runs ----

  class Buffer {
    const slots: array<Capture>
    var write: int
    var read: int
    var drops: int

    ghost function View(): Ring
      reads this, slots
    {
      Ring(slots[..], write, read, drops)
    }

    constructor ()
      ensures Valid(View()) && View() == Empty() && fresh(slots)
    {
      slots := new Capture[SLOTS](_ => Capture(0, []));
      write, read, drops := 0, 0, 0;
      new;
      assert slots[..] == Empty().slots;
    }

    /** `virtio_net_capture_rx`. */
    method CaptureFrame(frame: seq<Byte>, ethertype: int)
      requires Valid(View())
      modifies this`write, this`drops, slots
      ensures Valid(View()) && View() == Push(old(View()), Capture(ethertype, frame))
      ensures var was := old(Contents(View()));
              Contents(View()) == if |was| < SLOTS then was + [Capture(ethertype, frame)] else was
    {
      PushRefines(View(), Capture(ethertype, frame));
      if (write - read) % TWO_16 >= SLOTS {
        drops := (drops + 1) % TWO_32;
        return;
      }
      slots[write % SLOTS] := Capture(ethertype, frame);
      assert slots[..] == old(slots[..])[write % SLOTS := Capture(ethertype, frame)];
      write := (write + 1) % TWO_16;
    }

    /** `virtio_net_pop_rx_frame`. */
    method PopFrame(capacity: nat) returns (c: Option<Capture>)
      requires Valid(View())
      modifies this`read
      ensures Valid(View())
      ensures old(Contents(View())) == [] ==> c == None && View() == old(View())
      ensures var was := old(Contents(View()));
              was != [] ==> c.Some? && IsCut(c.value, was[0], capacity) && Contents(View()) == was[1..]
    {
      PopRefines(View());
      if read == write {
        return None;
      }
      var capture := slots[read % SLOTS];
      c := Some(Truncated(capture, capacity));
      read := (read + 1) % TWO_16;
    }
  }
}
