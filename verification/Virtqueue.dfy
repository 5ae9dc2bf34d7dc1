/** The split virtqueue (kernel/virtio.c) with its 16-bit counters, and the history those counters
    stand for (section 2.6 of VirtIO 1.1). */
module Virtqueue {

  const ENTRIES := 16
  const TWO_16 := 0x1_0000

  const F_NEXT := 1
  const F_WRITE := 2

  /** `struct virtq_desc`; the flags used are NEXT, bit 0, and WRITE (by the device), bit 1. */
  datatype Desc = Desc(addr: int, len: int, flags: int, next: int)

  const NO_DESC := Desc(0, 0, 0, 0)

  datatype UsedElem = UsedElem(id: int, len: int)

  /** `struct virtio_virtq`, less the queue number. */
  datatype Queue = Queue(
    descs: seq<Desc>,
    availRing: seq<int>,
    availIdx: int,
    usedRing: seq<UsedElem>,
    usedIdx: int,
    submitted: int,
    consumed: int)

  predicate Shaped(q: Queue) {
    && |q.descs| == ENTRIES && |q.availRing| == ENTRIES && |q.usedRing| == ENTRIES
    && 0 <= q.availIdx < TWO_16 && 0 <= q.usedIdx < TWO_16
    && 0 <= q.submitted < TWO_16 && 0 <= q.consumed < TWO_16
  }

  // ---- what the driver and the device do to the shared queue ----

  function WriteDesc(q: Queue, i: int, d: Desc): Queue
    requires Shaped(q) && 0 <= i < ENTRIES
  {
    q.(descs := q.descs[i := d])
  }

  /** The two stores of `virtq_push`, which the device may observe one at a time. */
  function WriteAvail(q: Queue, d: int): Queue
    requires Shaped(q)
  {
    q.(availRing := q.availRing[q.availIdx % ENTRIES := d])
  }

  function PublishAvail(q: Queue): Queue {
    q.(availIdx := (q.availIdx + 1) % TWO_16)
  }

  function CountSubmitted(q: Queue): Queue {
    q.(submitted := (q.submitted + 1) % TWO_16)
  }

  /** `virtq_is_busy`. */
  predicate Busy(q: Queue) {
    q.consumed != q.submitted
  }

  predicate HasUsed(q: Queue) {
    q.consumed != q.usedIdx
  }

  function NextUsed(q: Queue): UsedElem
    requires Shaped(q)
  {
    q.usedRing[q.consumed % ENTRIES]
  }

  function ConsumeUsed(q: Queue): Queue {
    q.(consumed := (q.consumed + 1) % TWO_16)
  }

  /** The device's side: the next available entry from its own counter, and a completion. */
  predicate HasAvail(q: Queue, devIdx: int) {
    devIdx != q.availIdx
  }

  function NextAvail(q: Queue, devIdx: int): int
    requires Shaped(q)
  {
    q.availRing[devIdx % ENTRIES]
  }

  function Complete(q: Queue, e: UsedElem): Queue
    requires Shaped(q)
  {
    q.(usedRing := q.usedRing[q.usedIdx % ENTRIES := e], usedIdx := (q.usedIdx + 1) % TWO_16)
  }

  // ---- the queue with its history ----

  /** `pushed` and `completed` list everything ever made available and ever completed; `fetched` and
      `popped` say how far the device and the driver have read them. */
  datatype Vq = Vq(q: Queue, devIdx: int, pushed: seq<int>, fetched: nat, completed: seq<UsedElem>, popped: nat)

  ghost predicate Counters(v: Vq) {
    && Shaped(v.q)
    && v.q.availIdx == |v.pushed| % TWO_16
    && v.devIdx == v.fetched % TWO_16
    && v.q.usedIdx == |v.completed| % TWO_16
    && v.q.consumed == v.popped % TWO_16
    && v.popped <= |v.completed| <= v.fetched <= |v.pushed| <= v.popped + ENTRIES
  }

  /** Entries not yet read are still in their ring slots. */
  ghost predicate Windows(v: Vq)
    requires Shaped(v.q)
  {
    && (forall n :: v.fetched <= n < |v.pushed| ==> v.q.availRing[n % ENTRIES] == v.pushed[n])
    && (forall n :: v.popped <= n < |v.completed| ==> v.q.usedRing[n % ENTRIES] == v.completed[n])
  }

  ghost predicate VqInv(v: Vq) {
    Counters(v) && Windows(v)
  }

  lemma WrapSlot(n: nat)
    ensures n % TWO_16 % ENTRIES == n % ENTRIES
    ensures (n % TWO_16 + 1) % TWO_16 == (n + 1) % TWO_16
  {
    var q, r := n / TWO_16, n % TWO_16;
    assert n == 4096 * q * ENTRIES + r;
    assert r == TWO_16 - 1 ==> n + 1 == (q + 1) * TWO_16;
  }

  lemma WrapSum(m: nat, d: nat)
    requires d <= ENTRIES
    ensures (m + d) % TWO_16 == if m % TWO_16 + d < TWO_16 then m % TWO_16 + d else m % TWO_16 + d - TWO_16
  {
    var q, r := m / TWO_16, m % TWO_16;
    assert m + d == q * TWO_16 + (r + d);
  }

  lemma SlotSum(m: nat, d: nat)
    requires d <= ENTRIES
    ensures (m + d) % ENTRIES == if m % ENTRIES + d < ENTRIES then m % ENTRIES + d else m % ENTRIES + d - ENTRIES
  {
    var q, r := m / ENTRIES, m % ENTRIES;
    assert m + d == q * ENTRIES + (r + d);
  }

  /** Counters at most 16 apart agree modulo 65536 only when they are equal. */
  lemma WrapEqual(m: nat, n: nat)
    requires m <= n <= m + ENTRIES
    ensures m % TWO_16 == n % TWO_16 <==> m == n
    ensures m < n < m + ENTRIES ==> m % ENTRIES != n % ENTRIES
  {
    WrapSum(m, n - m);
    SlotSum(m, n - m);
  }

  function VDesc(v: Vq, i: int, d: Desc): (v1: Vq)
    requires Shaped(v.q) && 0 <= i < ENTRIES
    ensures VqInv(v) ==> VqInv(v1)
  {
    v.(q := WriteDesc(v.q, i, d))
  }

  function VWrite(v: Vq, d: int): Vq
    requires Shaped(v.q)
  {
    v.(q := WriteAvail(v.q, d))
  }

  function VPublish(v: Vq, d: int): Vq {
    v.(q := PublishAvail(v.q), pushed := v.pushed + [d])
  }

  function VPop(v: Vq): Vq {
    v.(q := ConsumeUsed(v.q), popped := v.popped + 1)
  }

  function VFetch(v: Vq): Vq
    requires Shaped(v.q)
  {
    v.(devIdx := (v.devIdx + 1) % TWO_16, fetched := v.fetched + 1)
  }

  function VComplete(v: Vq, e: UsedElem): Vq
    requires Shaped(v.q)
  {
    v.(q := Complete(v.q, e), completed := v.completed + [e])
  }

  /** Writing the next ring slot overwrites nothing the device still has to read. */
  lemma WriteOk(v: Vq, d: int)
    requires VqInv(v) && |v.pushed| < v.popped + ENTRIES
    ensures VqInv(VWrite(v, d))
    ensures VWrite(v, d).q.availRing[|v.pushed| % ENTRIES] == d
  {
    WrapSlot(|v.pushed|);
    forall n | v.fetched <= n < |v.pushed| ensures n % ENTRIES != |v.pushed| % ENTRIES {
      WrapEqual(n, |v.pushed|);
    }
  }

  lemma PublishOk(v: Vq, d: int)
    requires VqInv(v) && |v.pushed| < v.popped + ENTRIES && v.q.availRing[|v.pushed| % ENTRIES] == d
    ensures VqInv(VPublish(v, d))
  {
    WrapSlot(|v.pushed|);
  }

  /** The used ring is empty for the driver exactly when every completion has been popped, and a pop
      gives the oldest one that has not. */
  lemma PopOk(v: Vq)
    requires VqInv(v)
    ensures HasUsed(v.q) <==> v.popped < |v.completed|
    ensures HasUsed(v.q) ==> NextUsed(v.q) == v.completed[v.popped] && VqInv(VPop(v))
  {
    WrapEqual(v.popped, |v.completed|);
    WrapSlot(v.popped);
  }

  /** The device sees work exactly when some push has not been fetched, and fetches pushes in order. */
  lemma FetchOk(v: Vq)
    requires VqInv(v)
    ensures HasAvail(v.q, v.devIdx) <==> v.fetched < |v.pushed|
    ensures HasAvail(v.q, v.devIdx) ==> NextAvail(v.q, v.devIdx) == v.pushed[v.fetched] && VqInv(VFetch(v))
  {
    WrapEqual(v.fetched, |v.pushed|);
    WrapSlot(v.fetched);
  }

  /** A completion overwrites no used entry that the driver still has to read. */
  lemma CompleteOk(v: Vq, e: UsedElem)
    requires VqInv(v) && |v.completed| < v.fetched
    ensures VqInv(VComplete(v, e))
  {
    WrapSlot(|v.completed|);
    forall n | v.popped <= n < |v.completed| ensures n % ENTRIES != |v.completed| % ENTRIES {
      WrapEqual(n, |v.completed|);
    }
  }

  function EmptyQueue(): Queue {
    Queue(seq(ENTRIES, _ => NO_DESC), seq(ENTRIES, _ => 0), 0, seq(ENTRIES, _ => UsedElem(0, 0)), 0, 0, 0)
  }

  function EmptyVq(): Vq {
    Vq(EmptyQueue(), 0, [], 0, [], 0)
  }

  /** The driver's counter and the device's history: with at most one request out, `virtq_is_busy` is
      right exactly when every push has been counted in `submitted`. */
  lemma BusyCounts(v: Vq, uncounted: bool)
    requires VqInv(v) && |v.pushed| <= v.popped + 1
    requires v.q.submitted == (|v.pushed| - if uncounted then 1 else 0) % TWO_16
    requires uncounted ==> 0 < |v.pushed|
    ensures Busy(v.q) <==> ((v.popped < |v.pushed|) != uncounted)
  {
    if uncounted {
      WrapEqual(|v.pushed| - 1, v.popped);
    } else {
      WrapEqual(v.popped, |v.pushed|);
    }
  }

  /** The device has completed something that the driver has not popped. */
  ghost predicate Pending(v: Vq) {
    v.popped < |v.completed|
  }

  /** The used-buffer and configuration status bits, a used-buffer bit the device still has to raise,
      the SIE flag and the value `wait_for_interrupt` saved. */
  datatype Irq = Irq(used: bool, cfg: bool, owes: bool, sie: bool, saved: bool)

  // ---- the driver's methods ----

  class Virtq {
    const descs: array<Desc>
    const availRing: array<int>
    var availIdx: int
    const usedRing: array<UsedElem>
    var usedIdx: int
    var submitted: int
    var consumed: int

    ghost function View(): Queue
      reads this, descs, availRing, usedRing
    {
      Queue(descs[..], availRing[..], availIdx, usedRing[..], usedIdx, submitted, consumed)
    }

    constructor ()
      ensures View() == EmptyQueue() && Shaped(View())
      ensures fresh(descs) && fresh(availRing) && fresh(usedRing)
    {
      descs := new Desc[ENTRIES](_ => NO_DESC);
      availRing := new int[ENTRIES](_ => 0);
      usedRing := new UsedElem[ENTRIES](_ => UsedElem(0, 0));
      availIdx, usedIdx, submitted, consumed := 0, 0, 0, 0;
      new;
      assert descs[..] == EmptyQueue().descs;
      assert availRing[..] == EmptyQueue().availRing;
      assert usedRing[..] == EmptyQueue().usedRing;
    }

    /** The stores into `descs[i]`. */
    method SetDesc(i: int, d: Desc)
      requires Shaped(View()) && 0 <= i < ENTRIES
      modifies descs
      ensures Shaped(View()) && View() == WriteDesc(old(View()), i, d)
    {
      descs[i] := d;
      assert descs[..] == old(descs[..])[i := d];
    }

    /** `virtq_push`. */
    method Push(d: int)
      requires Shaped(View())
      modifies this`availIdx, availRing
      ensures Shaped(View()) && View() == PublishAvail(WriteAvail(old(View()), d))
    {
      var at := availIdx;
      availRing[at % ENTRIES] := d;
      assert availRing[..] == old(availRing[..])[at % ENTRIES := d];
      availIdx := (at + 1) % TWO_16;
    }

    /** `virtq_kick`, less the notification register. */
    method Kick(d: int)
      requires Shaped(View())
      modifies this`availIdx, this`submitted, availRing
      ensures Shaped(View()) && View() == CountSubmitted(PublishAvail(WriteAvail(old(View()), d)))
    {
      Push(d);
      submitted := (submitted + 1) % TWO_16;
    }

    /** `virtq_pop_used`. */
    method PopUsed() returns (found: bool, e: UsedElem)
      requires Shaped(View())
      modifies this`consumed
      ensures Shaped(View()) && found == HasUsed(old(View()))
      ensures found ==> e == NextUsed(old(View())) && View() == ConsumeUsed(old(View()))
      ensures !found ==> View() == old(View())
    {
      e := UsedElem(0, 0);
      if consumed == usedIdx {
        return false, e;
      }
      e := usedRing[consumed % ENTRIES];
      consumed := (consumed + 1) % TWO_16;
      return true, e;
    }
  }
}
