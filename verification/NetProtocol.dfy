/** The network driver, the device and the interrupt handler as one machine that interleaves their
    steps (kernel/virtio_net.c, kernel/virtio.c, kernel/interrupt.c). The device is assumed to follow
    section 2.6 of VirtIO 1.1; a used entry may become visible before the interrupt status bit. */
module NetProtocol {
  import opened Machine
  import opened Virtqueue

  type Bytes = seq<Byte>

  /** `sizeof(struct virtio_net_hdr)`, the frame limits, and `sizeof(struct virtio_net_buf)`. */
  const HDR := 10
  const MIN_FRAME := 60
  const MAX_FRAME := 1514
  const BUF := HDR + MAX_FRAME

  /** Where `virtio_net_send_ethernet` and the `wait_for_interrupt` inside it stand. */
  datatype TxPc =
    | TxIdle
    | TxFilled
    | TxReady
    | TxRingWritten
    | TxPublished
    | TxSubmitted
    | WaitCheck
    | WaitWfi
    | WaitOpen
    | WaitRestore

  /** Where `virtio_net_irq` stands; `Quiet` when it is not running. A receive buffer goes through
      `RxHand` (taken off the used ring), `RxRead` (frame passed on), `RxLinked` (descriptor written) and
      `RxWritten` (ring slot written). */
  datatype Handler =
    | Quiet
    | GotStatus(used: bool, cfg: bool)
    | RxTop
    | RxHand(d: int, len: int)
    | RxRead(d: int)
    | RxLinked(d: int)
    | RxWritten(d: int)
    | TxTop

  /** The receive side: its queue, the descriptors the device holds, the address and the contents of
      the buffers, what the device wrote for each completion, and what the handler passed on. */
  datatype Inbox = Inbox(v: Vq, held: set<int>, base: int, bufs: seq<Bytes>, written: seq<Bytes>, taken: seq<Bytes>)

  /** The transmit side: its queue, the sender and its frame, the address and contents of the shared
      buffer, the frames handed to the device and the frames it has read. */
  datatype Link = Link(
    v: Vq,
    pc: TxPc,
    done: bool,
    frame: Bytes,
    base: int,
    buffer: Bytes,
    queued: seq<Bytes>,
    sent: seq<Bytes>)

  datatype Net = Net(rx: Inbox, tx: Link, irq: Irq, handler: Handler)

  datatype Event =
    | DevFetchRx
    | DevCompleteRx(d: int, data: Bytes)
    | DevFetchTx
    | DevCompleteTx
    | DevRaise
    | DevConfig
    | Trap
    | HandlerStep
    | Send(frame: Bytes)
    | DriverStep
    | Wake

  // ---- descriptors ----

  function RxDesc(base: int, d: int): Desc {
    Desc(base + d * BUF, BUF, F_WRITE, 0)
  }

  function TxDesc(base: int, len: int): Desc {
    Desc(base, HDR + len, 0, 0)
  }

  /** The descriptor and ring stores of `virtio_net_enqueue_rx`. */
  method EnqueueRx(vq: Virtq, base: int, d: int)
    requires Shaped(vq.View()) && 0 <= d < ENTRIES
    modifies vq`availIdx, vq.descs, vq.availRing
    ensures Shaped(vq.View())
    ensures vq.View() == PublishAvail(WriteAvail(WriteDesc(old(vq.View()), d, RxDesc(base, d)), d))
  {
    vq.SetDesc(d, Desc(base + d * BUF, BUF, F_WRITE, 0));
    vq.Push(d);
  }

  /** The receive buffer that starts at `addr`. */
  function BufAt(base: int, addr: int): Option<int> {
    var off := addr - base;
    if 0 <= off && off % BUF == 0 && off / BUF < ENTRIES then Some(off / BUF) else None
  }

  lemma BufOfDesc(base: int, d: int)
    requires 0 <= d < ENTRIES
    ensures BufAt(base, RxDesc(base, d).addr) == Some(d)
  {
    assert d * BUF % BUF == 0 && d * BUF / BUF == d;
  }

  /** The transmit buffer for a frame: a zero header, the frame, and zeros. */
  function TxBuffer(frame: Bytes): Bytes
    requires |frame| <= MAX_FRAME
  {
    seq(HDR, _ => 0) + frame + seq(MAX_FRAME - |frame|, _ => 0)
  }

  // ---- the steps ----

  predicate Formed(n: Net) {
    Shaped(n.rx.v.q) && Shaped(n.tx.v.q) && |n.rx.bufs| == ENTRIES
  }

  /** The device writes `data` where descriptor `d` points, if that descriptor lets it, and completes
      the buffer. */
  function Deliver(r: Inbox, d: int, data: Bytes): Inbox
    requires Shaped(r.v.q) && |r.bufs| == ENTRIES
  {
    if !(d in r.held && 0 <= d < ENTRIES) then r
    else
      var desc := r.v.q.descs[d];
      var at := BufAt(r.base, desc.addr);
      if at.None? || desc.flags != F_WRITE || |data| > desc.len || desc.len != |r.bufs[at.value]| then r
      else r.(held := r.held - {d}, v := VComplete(r.v, UsedElem(d, |data|)), written := r.written + [data],
              bufs := r.bufs[at.value := data + r.bufs[at.value][|data|..]])
  }

  /** The frame that the oldest uncompleted transmit descriptor shows the device. */
  function DeviceFrame(t: Link): Option<Bytes>
    requires Shaped(t.v.q)
  {
    if !(|t.v.completed| < |t.v.pushed|) then None
    else
      var head := t.v.pushed[|t.v.completed|];
      if !(0 <= head < ENTRIES) then None
      else
        var desc := t.v.q.descs[head];
        if desc.addr == t.base && desc.flags == 0 && HDR <= desc.len <= |t.buffer|
        then Some(t.buffer[HDR..desc.len]) else None
  }

  /** The device reads the frame out of the shared buffer and completes the request. */
  function Transmitted(t: Link): Link
    requires Shaped(t.v.q)
  {
    match DeviceFrame(t)
    case None => t
    case Some(frame) => t.(v := VComplete(t.v, UsedElem(t.v.pushed[|t.v.completed|], 0)), sent := t.sent + [frame])
  }

  function DeviceStep(n: Net, e: Event): (r: Net)
    requires Formed(n)
  {
    match e
    case DevFetchRx =>
      if HasAvail(n.rx.v.q, n.rx.v.devIdx)
      then n.(rx := Fetched(n.rx)) else n
    case DevCompleteRx(d, data) => n.(rx := Deliver(n.rx, d, data), irq := n.irq.(owes := true))
    case DevFetchTx =>
      if HasAvail(n.tx.v.q, n.tx.v.devIdx) then n.(tx := n.tx.(v := VFetch(n.tx.v))) else n
    case DevCompleteTx =>
      if |n.tx.v.completed| < n.tx.v.fetched then n.(tx := Transmitted(n.tx), irq := n.irq.(owes := true)) else n
    case DevRaise => if n.irq.owes then n.(irq := n.irq.(used := true, owes := false)) else n
    case DevConfig => n.(irq := n.irq.(cfg := true))
    case _ => n
  }

  /** What the handler finds in the buffer it has in hand. */
  function Found(r: Inbox, d: int, len: int): Bytes {
    if 0 <= d < |r.bufs| && 0 <= len <= |r.bufs[d]| then r.bufs[d][..len] else []
  }

  /** `virtio_net_irq`: read the status, acknowledge what was read, drain RX, then drain TX. */
  function IrqStep(n: Net): (r: Net)
    requires Formed(n)
  {
    match n.handler
    case Quiet => n
    case GotStatus(u, c) =>
      n.(irq := n.irq.(used := n.irq.used && !u, cfg := n.irq.cfg && !c), handler := if u then RxTop else Quiet)
    case RxTop =>
      if HasUsed(n.rx.v.q)
      then n.(rx := n.rx.(v := VPop(n.rx.v)), handler := RxHand(NextUsed(n.rx.v.q).id, NextUsed(n.rx.v.q).len))
      else n.(handler := TxTop)
    case RxHand(d, len) => n.(rx := n.rx.(taken := n.rx.taken + [Found(n.rx, d, len)]), handler := RxRead(d))
    case RxRead(d) =>
      n.(rx := if 0 <= d < ENTRIES then n.rx.(v := VDesc(n.rx.v, d, RxDesc(n.rx.base, d))) else n.rx,
         handler := RxLinked(d))
    case RxLinked(d) => n.(rx := n.rx.(v := VWrite(n.rx.v, d)), handler := RxWritten(d))
    case RxWritten(d) => n.(rx := n.rx.(v := VPublish(n.rx.v, d)), handler := RxTop)
    case TxTop =>
      if HasUsed(n.tx.v.q) then n.(tx := n.tx.(v := VPop(n.tx.v), done := true))
      else n.(handler := Quiet)
  }

  /** `virtio_net_send_ethernet` after the frame is in the buffer: descriptor, kick, then wait. */
  function SendTx(t: Link, i: Irq): Link
    requires Shaped(t.v.q)
  {
    match t.pc
    case TxIdle => t
    case TxFilled => t.(v := VDesc(t.v, 0, TxDesc(t.base, |t.frame|)), done := false, pc := TxReady)
    case TxReady => t.(v := VWrite(t.v, 0), pc := TxRingWritten)
    case TxRingWritten => t.(v := VPublish(t.v, 0), queued := t.queued + [t.frame], pc := TxPublished)
    case TxPublished => t.(v := t.v.(q := CountSubmitted(t.v.q)), pc := TxSubmitted)
    case TxSubmitted => t.(pc := WaitCheck)
    case WaitCheck => t.(pc := if t.done then WaitRestore else WaitWfi)
    case WaitWfi => if i.used || i.cfg then t.(pc := WaitOpen) else t
    case WaitOpen => t.(pc := WaitCheck)
    case WaitRestore => t.(pc := TxIdle)
  }

  /** What the same steps do to SIE: off while checking, on only after WFI woke up, and back to the
      saved value at the end. */
  function SendIrq(t: Link, i: Irq): Irq {
    match t.pc
    case TxSubmitted => i.(saved := i.sie, sie := false)
    case WaitWfi => if i.used || i.cfg then i.(sie := true) else i
    case WaitOpen => i.(sie := false)
    case WaitRestore => i.(sie := i.saved)
    case _ => i
  }

  /** The frame is copied into the cleared transmit buffer; one that is too long is refused. */
  function BeginSend(t: Link, frame: Bytes): Link {
    if MIN_FRAME <= |frame| <= MAX_FRAME then t.(frame := frame, buffer := TxBuffer(frame), pc := TxFilled) else t
  }

  /** One step of the machine; an event that is not possible now changes nothing. A trap is taken only
      while SIE is set, and the driver does not move while the handler runs. WFI may also return for
      reasons that have nothing to do with this device: that is the event `Wake`. */
  function Step(n: Net, e: Event): (r: Net)
    requires Formed(n)
  {
    match e
    case Trap =>
      if n.handler.Quiet? && n.irq.sie then n.(handler := GotStatus(n.irq.used, n.irq.cfg)) else n
    case HandlerStep => IrqStep(n)
    case Send(frame) => if n.handler.Quiet? && n.tx.pc.TxIdle? then n.(tx := BeginSend(n.tx, frame)) else n
    case DriverStep =>
      if n.handler.Quiet? then n.(tx := SendTx(n.tx, n.irq), irq := SendIrq(n.tx, n.irq)) else n
    case Wake =>
      if n.handler.Quiet? && n.tx.pc.WaitWfi? then n.(tx := n.tx.(pc := WaitOpen), irq := n.irq.(sie := true)) else n
    case _ => DeviceStep(n, e)
  }

  // ---- the receive queue: every buffer is in exactly one place ----

  datatype Place = Available(i: int) | WithDevice | Unpopped(i: int) | InHand

  /** The descriptor the handler holds between taking a buffer off the used ring and giving it back. */
  function Hand(h: Handler): set<int> {
    if h.RxHand? || h.RxRead? || h.RxLinked? || h.RxWritten? then {h.d} else {}
  }

  /** `w[d]` says where descriptor `d` is, and nothing is anywhere else. */
  ghost predicate Places(w: seq<Place>, v: Vq, held: set<int>, hand: set<int>) {
    && |w| == ENTRIES
    && v.fetched <= |v.pushed| && v.popped <= |v.completed|
    && (forall i :: v.fetched <= i < |v.pushed| ==> 0 <= v.pushed[i] < ENTRIES && w[v.pushed[i]] == Available(i))
    && (forall d :: d in held ==> 0 <= d < ENTRIES && w[d] == WithDevice)
    && (forall i :: v.popped <= i < |v.completed| ==>
          0 <= v.completed[i].id < ENTRIES && w[v.completed[i].id] == Unpopped(i))
    && (forall d :: d in hand ==> 0 <= d < ENTRIES && w[d] == InHand)
    && (forall d :: 0 <= d < ENTRIES ==> Real(v, held, hand, d, w[d]))
  }

  ghost predicate Real(v: Vq, held: set<int>, hand: set<int>, d: int, p: Place) {
    match p
    case Available(i) => v.fetched <= i < |v.pushed| && v.pushed[i] == d
    case WithDevice => d in held
    case Unpopped(i) => v.popped <= i < |v.completed| && v.completed[i].id == d
    case InHand => d in hand
  }

  ghost predicate PlacesInv(r: Inbox, h: Handler) {
    && VqInv(r.v)
    && |r.v.pushed| == r.v.popped + ENTRIES - |Hand(h)|
    && |r.held| == r.v.fetched - |r.v.completed|
    && (h.RxWritten? ==> r.v.q.availRing[|r.v.pushed| % ENTRIES] == h.d)
    && (exists w :: Places(w, r.v, r.held, Hand(h)))
  }

  /** Every descriptor is the one of its buffer; a buffer that the handler has still to read holds what
      the device wrote into it; and the handler has passed on what the device wrote, in order. */
  ghost predicate MemoryInv(r: Inbox, h: Handler) {
    && Shaped(r.v.q) && |r.bufs| == ENTRIES
    && (forall d :: 0 <= d < ENTRIES ==> r.v.q.descs[d] == RxDesc(r.base, d) && |r.bufs[d]| == BUF)
    && |r.written| == |r.v.completed| && r.v.popped <= |r.v.completed|
    && (forall i :: 0 <= i < |r.written| ==> |r.written[i]| <= BUF)
    && (forall i :: r.v.popped <= i < |r.written| ==>
          Found(r, r.v.completed[i].id, r.v.completed[i].len) == r.written[i])
    && (if h.RxHand? then
          0 < r.v.popped && r.taken == r.written[..r.v.popped - 1] && Found(r, h.d, h.len) == r.written[r.v.popped - 1]
        else r.taken == r.written[..r.v.popped])
  }

  ghost predicate RxInv(r: Inbox, h: Handler) {
    PlacesInv(r, h) && MemoryInv(r, h)
  }

  // Each move of a descriptor, with what it does to the place table.

  lemma MoveFetch(w: seq<Place>, v: Vq, held: set<int>, hand: set<int>) returns (w1: seq<Place>)
    requires Places(w, v, held, hand) && Shaped(v.q) && v.fetched < |v.pushed|
    ensures v.pushed[v.fetched] !in held
    ensures Places(w1, VFetch(v), held + {v.pushed[v.fetched]}, hand)
  {
    var d := v.pushed[v.fetched];
    assert w[d] == Available(v.fetched);
    w1 := w[d := WithDevice];
  }

  lemma MoveComplete(w: seq<Place>, v: Vq, held: set<int>, hand: set<int>, e: UsedElem) returns (w1: seq<Place>)
    requires Places(w, v, held, hand) && Shaped(v.q) && e.id in held
    ensures Places(w1, VComplete(v, e), held - {e.id}, hand)
  {
    w1 := w[e.id := Unpopped(|v.completed|)];
  }

  lemma MovePop(w: seq<Place>, v: Vq, held: set<int>) returns (w1: seq<Place>)
    requires Places(w, v, held, {}) && v.popped < |v.completed|
    ensures Places(w1, VPop(v), held, {v.completed[v.popped].id})
  {
    var d := v.completed[v.popped].id;
    assert w[d] == Unpopped(v.popped);
    w1 := w[d := InHand];
  }

  lemma MovePublish(w: seq<Place>, v: Vq, held: set<int>, d: int) returns (w1: seq<Place>)
    requires Places(w, v, held, {d})
    ensures Places(w1, VPublish(v, d), held, {})
  {
    assert d in {d};
    w1 := w[d := Available(|v.pushed|)];
  }

  lemma MoveWrite(w: seq<Place>, v: Vq, held: set<int>, hand: set<int>, d: int)
    requires Places(w, v, held, hand) && Shaped(v.q)
    ensures Places(w, VWrite(v, d), held, hand)
  {
    forall x | 0 <= x < ENTRIES ensures Real(VWrite(v, d), held, hand, x, w[x]) {
      assert Real(v, held, hand, x, w[x]);
    }
  }

  // ---- the receive queue over one step of anyone ----

  function Fetched(r: Inbox): Inbox
    requires Shaped(r.v.q)
  {
    r.(held := r.held + {NextAvail(r.v.q, r.v.devIdx)}, v := VFetch(r.v))
  }

  lemma FetchPlaces(r: Inbox, h: Handler)
    requires PlacesInv(r, h) && HasAvail(r.v.q, r.v.devIdx)
    ensures PlacesInv(Fetched(r), h)
  {
    hide Places, Windows;
    FetchOk(r.v);
    var w :| Places(w, r.v, r.held, Hand(h));
    var w1 := MoveFetch(w, r.v, r.held, Hand(h));
    assert Places(w1, Fetched(r).v, Fetched(r).held, Hand(h));
  }

  lemma RxFetch(r: Inbox, h: Handler)
    requires RxInv(r, h) && HasAvail(r.v.q, r.v.devIdx)
    ensures RxInv(Fetched(r), h)
  {
    hide PlacesInv, Found, HasAvail, NextAvail;
    FetchPlaces(r, h);
    forall x, len ensures Found(Fetched(r), x, len) == Found(r, x, len) {
      FoundIs(r, Fetched(r), x, len);
    }
  }

  /** What a completion leaves of the place table. */
  lemma DeliverPlaces(r: Inbox, h: Handler, d: int, data: Bytes)
    requires PlacesInv(r, h) && MemoryInv(r, h) && d in r.held && 0 <= d < ENTRIES && |data| <= BUF
    ensures PlacesInv(r.(held := r.held - {d}, v := VComplete(r.v, UsedElem(d, |data|))), h)
  {
    hide Places, Windows, Found;
    assert r.held == (r.held - {d}) + {d};
    CompleteOk(r.v, UsedElem(d, |data|));
    var w :| Places(w, r.v, r.held, Hand(h));
    var w1 := MoveComplete(w, r.v, r.held, Hand(h), UsedElem(d, |data|));
    var r1 := r.(held := r.held - {d}, v := VComplete(r.v, UsedElem(d, |data|)));
    assert Places(w1, r1.v, r1.held, Hand(h));
  }

  /** A buffer with the device is neither unpopped nor in the handler's hand. */
  lemma HeldApart(r: Inbox, h: Handler, d: int)
    requires PlacesInv(r, h) && d in r.held
    ensures 0 <= d < ENTRIES && d !in Hand(h) && r.v.popped <= |r.v.completed|
    ensures forall i :: r.v.popped <= i < |r.v.completed| ==> r.v.completed[i].id != d
  {
    hide VqInv;
    var w :| Places(w, r.v, r.held, Hand(h));
  }

  /** Writing buffer `d` leaves what is found in every other buffer. */
  lemma FoundKept(r: Inbox, d: int, buf: Bytes, x: int, len: int)
    requires |r.bufs| == ENTRIES && 0 <= d < ENTRIES && x != d
    ensures Found(r.(bufs := r.bufs[d := buf]), x, len) == Found(r, x, len)
  {
  }

  lemma DeliverIs(r: Inbox, h: Handler, d: int, data: Bytes)
    requires MemoryInv(r, h) && d in r.held && 0 <= d < ENTRIES
    ensures Deliver(r, d, data) ==
            if |data| > BUF then r
            else r.(held := r.held - {d}, v := VComplete(r.v, UsedElem(d, |data|)), written := r.written + [data],
                    bufs := r.bufs[d := data + r.bufs[d][|data|..]])
  {
    hide Found;
    BufOfDesc(r.base, d);
  }

  lemma RxDeliver(r: Inbox, h: Handler, d: int, data: Bytes)
    requires RxInv(r, h) && Shaped(r.v.q) && |r.bufs| == ENTRIES
    ensures RxInv(Deliver(r, d, data), h)
  {
    hide PlacesInv, Deliver, VComplete, Found;
    if d in r.held {
      HeldApart(r, h, d);
      DeliverIs(r, h, d, data);
      if |data| <= BUF {
        DeliverPlaces(r, h, d, data);
        DeliverMemory(r, h, d, data);
        PlacesOnly(r.(held := r.held - {d}, v := VComplete(r.v, UsedElem(d, |data|))), Deliver(r, d, data), h, h);
      }
    } else {
      assert Deliver(r, d, data) == r by { NotHeld(r, d, data); }
    }
  }

  lemma NotHeld(r: Inbox, d: int, data: Bytes)
    requires Shaped(r.v.q) && |r.bufs| == ENTRIES && d !in r.held
    ensures Deliver(r, d, data) == r
  {
  }

  lemma DeliverMemory(r: Inbox, h: Handler, d: int, data: Bytes)
    requires MemoryInv(r, h) && 0 <= d < ENTRIES && d !in Hand(h) && |data| <= BUF
    requires forall i :: r.v.popped <= i < |r.v.completed| ==> r.v.completed[i].id != d
    ensures MemoryInv(r.(held := r.held - {d}, v := VComplete(r.v, UsedElem(d, |data|)), written := r.written + [data],
                         bufs := r.bufs[d := data + r.bufs[d][|data|..]]), h)
  {
    hide Found;
    var buf := data + r.bufs[d][|data|..];
    var r1 := r.(held := r.held - {d}, v := VComplete(r.v, UsedElem(d, |data|)), written := r.written + [data],
                 bufs := r.bufs[d := buf]);
    forall x, len | x != d ensures Found(r1, x, len) == Found(r, x, len) {
      FoundKept(r, d, buf, x, len);
      FoundIs(r.(bufs := r.bufs[d := buf]), r1, x, len);
    }
    FoundData(r1, d, data);
    assert r1.written[..r.v.popped] == r.written[..r.v.popped];
  }

  lemma FoundIs(r: Inbox, r1: Inbox, x: int, len: int)
    requires r1.bufs == r.bufs
    ensures Found(r1, x, len) == Found(r, x, len)
  {
  }

  lemma FoundData(r: Inbox, d: int, data: Bytes)
    requires 0 <= d < |r.bufs| && |data| <= |r.bufs[d]| && r.bufs[d][..|data|] == data
    ensures Found(r, d, |data|) == data
  {
  }

  /** The handler takes the completions off in the order the device made them. */
  lemma RxPop(r: Inbox)
    requires RxInv(r, RxTop) && HasUsed(r.v.q)
    ensures r.v.popped < |r.v.completed| && NextUsed(r.v.q) == r.v.completed[r.v.popped]
    ensures RxInv(r.(v := VPop(r.v)), RxHand(NextUsed(r.v.q).id, NextUsed(r.v.q).len))
  {
    hide Places, Windows, Found;
    PopOk(r.v);
    var w :| Places(w, r.v, r.held, Hand(RxTop));
    var w1 := MovePop(w, r.v, r.held);
    var r1, h1 := r.(v := VPop(r.v)), RxHand(NextUsed(r.v.q).id, NextUsed(r.v.q).len);
    assert Places(w1, r1.v, r1.held, Hand(h1));
    forall x, len ensures Found(r1, x, len) == Found(r, x, len) {
      FoundIs(r, r1, x, len);
    }
  }

  /** The handler passes on exactly what the device wrote. */
  lemma RxTake(r: Inbox, d: int, len: int)
    requires RxInv(r, RxHand(d, len))
    ensures RxInv(r.(taken := r.taken + [Found(r, d, len)]), RxRead(d))
    ensures Found(r, d, len) == r.written[|r.taken|]
  {
    hide PlacesInv, Found;
    var r1 := r.(taken := r.taken + [Found(r, d, len)]);
    PlacesOnly(r, r1, RxHand(d, len), RxRead(d));
    forall x, len ensures Found(r1, x, len) == Found(r, x, len) {
      FoundIs(r, r1, x, len);
    }
    assert r.written[..r.v.popped - 1] + [r.written[r.v.popped - 1]] == r.written[..r.v.popped];
  }

  /** The place part looks at the queue, the device's set and the hand only. */
  lemma PlacesOnly(r: Inbox, r1: Inbox, h: Handler, h1: Handler)
    requires PlacesInv(r, h) && r1.v == r.v && r1.held == r.held && Hand(h1) == Hand(h)
    requires h1.RxWritten? ==> h == h1
    ensures PlacesInv(r1, h1)
  {
    hide Places, VqInv;
  }

  lemma HandInRange(r: Inbox, h: Handler, d: int)
    requires PlacesInv(r, h) && d in Hand(h)
    ensures 0 <= d < ENTRIES
  {
    hide VqInv;
  }

  /** Storing the descriptor of the buffer in hand. */
  lemma RxLink(r: Inbox, d: int)
    requires RxInv(r, RxRead(d))
    ensures 0 <= d < ENTRIES && RxInv(r.(v := VDesc(r.v, d, RxDesc(r.base, d))), RxLinked(d))
  {
    hide Places, Windows, Found;
    HandInRange(r, RxRead(d), d);
    assert r.v.q.descs[d := RxDesc(r.base, d)] == r.v.q.descs;
    assert VDesc(r.v, d, RxDesc(r.base, d)) == r.v;
    PlacesOnly(r, r, RxRead(d), RxLinked(d));
  }

  lemma RxWrite(r: Inbox, d: int)
    requires RxInv(r, RxLinked(d))
    ensures RxInv(r.(v := VWrite(r.v, d)), RxWritten(d))
  {
    hide Places, Windows, Found;
    WriteOk(r.v, d);
    var w :| Places(w, r.v, r.held, Hand(RxLinked(d)));
    MoveWrite(w, r.v, r.held, Hand(RxLinked(d)), d);
    var r1 := r.(v := VWrite(r.v, d));
    assert Places(w, r1.v, r1.held, Hand(RxWritten(d)));
    forall x, len ensures Found(r1, x, len) == Found(r, x, len) {
      FoundIs(r, r1, x, len);
    }
  }

  lemma RxPublish(r: Inbox, d: int)
    requires RxInv(r, RxWritten(d))
    ensures RxInv(r.(v := VPublish(r.v, d)), RxTop)
  {
    hide Places, Windows, Found;
    PublishOk(r.v, d);
    var w :| Places(w, r.v, r.held, Hand(RxWritten(d)));
    var w1 := MovePublish(w, r.v, r.held, d);
    var r1 := r.(v := VPublish(r.v, d));
    assert Places(w1, r1.v, r1.held, Hand(RxTop));
    forall x, len ensures Found(r1, x, len) == Found(r, x, len) {
      FoundIs(r, r1, x, len);
    }
  }

  /** A handler that has no buffer in hand may go anywhere else where it has none. */
  lemma RxSame(r: Inbox, h: Handler, h1: Handler)
    requires RxInv(r, h) && (h1 == h || (Hand(h) == {} && Hand(h1) == {}))
    ensures RxInv(r, h1)
  {
    hide Places, VqInv, Found;
  }

  lemma RxIrq(n: Net)
    requires RxInv(n.rx, n.handler) && Formed(n)
    ensures RxInv(IrqStep(n).rx, IrqStep(n).handler)
  {
    hide RxInv, HasUsed, NextUsed, VPop, VWrite, VPublish, VDesc, Found;
    match n.handler {
      case RxTop =>
        if HasUsed(n.rx.v.q) {
          RxPop(n.rx);
        } else {
          RxSame(n.rx, n.handler, TxTop);
        }
      case RxHand(d, len) => RxTake(n.rx, d, len);
      case RxRead(d) => RxLink(n.rx, d);
      case RxLinked(d) => RxWrite(n.rx, d);
      case RxWritten(d) => RxPublish(n.rx, d);
      case _ => RxSame(n.rx, n.handler, IrqStep(n).handler);
    }
  }

  lemma RxDevice(n: Net, e: Event)
    requires RxInv(n.rx, n.handler) && Formed(n)
    ensures RxInv(DeviceStep(n, e).rx, n.handler) && DeviceStep(n, e).handler == n.handler
  {
    hide RxInv, Fetched, VFetch, Transmitted, VComplete, HasAvail, NextAvail, Deliver;
    match e {
      case DevFetchRx =>
        if HasAvail(n.rx.v.q, n.rx.v.devIdx) {
          RxFetch(n.rx, n.handler);
        }
      case DevCompleteRx(d, data) => RxDeliver(n.rx, n.handler, d, data);
      case _ =>
    }
  }

  lemma RxStep(n: Net, e: Event)
    requires RxInv(n.rx, n.handler) && Formed(n)
    ensures RxInv(Step(n, e).rx, Step(n, e).handler)
  {
    hide RxInv, IrqStep, DeviceStep, Formed, SendTx, SendIrq, BeginSend;
    match e {
      case HandlerStep => RxIrq(n);
      case Trap => RxSame(n.rx, n.handler, Step(n, e).handler);
      case Send(frame) =>
      case DriverStep =>
      case Wake =>
      case _ => RxDevice(n, e);
    }
  }

  /** Each of the 16 receive buffers is in exactly one place. */
  lemma ExactlyOnePlace(r: Inbox, h: Handler, d: int)
    requires RxInv(r, h) && 0 <= d < ENTRIES
    ensures var avail := exists i :: r.v.fetched <= i < |r.v.pushed| && r.v.pushed[i] == d;
            var unpopped := exists i :: r.v.popped <= i < |r.v.completed| && r.v.completed[i].id == d;
            var held, hand := d in r.held, d in Hand(h);
            && (avail || held || unpopped || hand)
            && !(avail && held) && !(avail && unpopped) && !(avail && hand)
            && !(held && unpopped) && !(held && hand) && !(unpopped && hand)
    ensures forall i, j :: r.v.fetched <= i < j < |r.v.pushed| ==> r.v.pushed[i] != r.v.pushed[j]
    ensures forall i, j :: r.v.popped <= i < j < |r.v.completed| ==> r.v.completed[i].id != r.v.completed[j].id
  {
    hide VqInv, MemoryInv;
    var w :| Places(w, r.v, r.held, Hand(h));
    assert Real(r.v, r.held, Hand(h), d, w[d]);
  }

  /** The descriptor that the handler is about to store. */
  function StoredDesc(h: Handler): Option<int> {
    if h.RxRead? then Some(h.d) else None
  }

  /** `virtio_net_enqueue_rx` stores a descriptor only while its buffer is in the handler's hand, not
      while the device may look at it; and every buffer that is available or with the device has the
      descriptor that points to it, before and after every step. */
  lemma DescriptorsStable(n: Net, e: Event, d: int)
    requires RxInv(n.rx, n.handler) && Formed(n) && 0 <= d < ENTRIES
    ensures n.rx.v.q.descs[d] == Desc(n.rx.base + d * 1524, 1524, 2, 0)
    ensures Shaped(Step(n, e).rx.v.q) && Step(n, e).rx.v.q.descs[d] == n.rx.v.q.descs[d]
    ensures StoredDesc(n.handler) == Some(d) ==>
              && d !in n.rx.held
              && (forall i :: n.rx.v.fetched <= i < |n.rx.v.pushed| ==> n.rx.v.pushed[i] != d)
              && (forall i :: n.rx.v.popped <= i < |n.rx.v.completed| ==> n.rx.v.completed[i].id != d)
  {
    hide Step, PlacesInv, Found;
    RxStep(n, e);
    ExactlyOnePlace(n.rx, n.handler, d);
    StepBase(n, e);
  }

  lemma StepBase(n: Net, e: Event)
    requires Formed(n)
    ensures Step(n, e).rx.base == n.rx.base
  {
    hide SendTx, SendIrq, BeginSend, Found, Transmitted, HasUsed, HasAvail, NextUsed, NextAvail;
  }

  // ---- the transmit queue: one frame in flight ----

  /** The sender has a frame out whose completion it has not been told of. */
  predicate InFlight(t: Link) {
    (t.pc.TxPublished? || t.pc.TxSubmitted? || t.pc.WaitCheck? || t.pc.WaitWfi? || t.pc.WaitOpen?) && !t.done
  }

  ghost predicate QueueInv(t: Link) {
    && VqInv(t.v)
    && |t.v.pushed| == t.v.popped + (if InFlight(t) then 1 else 0)
    && (t.pc.TxReady? || t.pc.TxRingWritten? ==> !t.done)
    && (t.pc.TxPublished? ==> 0 < |t.v.pushed|)
    && (t.pc.TxRingWritten? ==> t.v.q.availRing[|t.v.pushed| % ENTRIES] == 0)
    && (forall i :: 0 <= i < |t.v.pushed| ==> t.v.pushed[i] == 0)
    && t.v.q.submitted == (|t.v.pushed| - if t.pc.TxPublished? then 1 else 0) % TWO_16
  }

  /** From the moment it is filled until the wait returns, the buffer holds the frame; from the moment
      the descriptor is written, it spans exactly that frame. What the device sent is what was handed
      to it. */
  ghost predicate FrameInv(t: Link) {
    && Shaped(t.v.q)
    && (!t.pc.TxIdle? ==> MIN_FRAME <= |t.frame| <= MAX_FRAME && t.buffer == TxBuffer(t.frame))
    && (!t.pc.TxIdle? && !t.pc.TxFilled? ==> t.v.q.descs[0] == TxDesc(t.base, |t.frame|))
    && |t.queued| == |t.v.pushed| && |t.v.completed| <= |t.v.pushed|
    && (InFlight(t) ==> 0 < |t.queued| && t.queued[|t.queued| - 1] == t.frame)
    && t.sent == t.queued[..|t.v.completed|]
  }

  ghost predicate TxInv(t: Link) {
    QueueInv(t) && FrameInv(t)
  }

  lemma TxQueueGives(t: Link)
    requires QueueInv(t)
    ensures t.v.popped <= |t.v.completed| <= t.v.fetched <= |t.v.pushed| <= t.v.popped + 1
    ensures |t.v.completed| < |t.v.pushed| ==> InFlight(t) && |t.v.completed| == |t.v.pushed| - 1
  {
  }

  lemma TxFetch(t: Link)
    requires TxInv(t) && HasAvail(t.v.q, t.v.devIdx)
    ensures TxInv(t.(v := VFetch(t.v)))
  {
    hide TxBuffer;
    FetchOk(t.v);
  }

  lemma SlicesOf(a: Bytes, b: Bytes, c: Bytes)
    ensures (a + b + c)[|a|..|a| + |b|] == b
  {
  }

  /** While a frame is out, its descriptor shows the device exactly that frame. */
  lemma FrameDenotes(t: Link)
    requires TxInv(t) && |t.v.completed| < |t.v.pushed|
    ensures DeviceFrame(t) == Some(t.frame) && t.frame == t.queued[|t.v.completed|]
  {
    hide VqInv;
    TxQueueGives(t);
    var h: Bytes, z: Bytes := seq(HDR, _ => 0), seq(MAX_FRAME - |t.frame|, _ => 0);
    SlicesOf(h, t.frame, z);
  }

  /** What the device transmits is the frame that was handed to it. */
  lemma TxComplete(t: Link)
    requires TxInv(t) && |t.v.completed| < t.v.fetched
    ensures TxInv(Transmitted(t))
  {
    hide TxBuffer, DeviceFrame;
    TxQueueGives(t);
    FrameDenotes(t);
    CompleteOk(t.v, UsedElem(0, 0));
    assert t.queued[..|t.v.completed|] + [t.frame] == t.queued[..|t.v.completed| + 1];
  }

  lemma TxPop(t: Link)
    requires TxInv(t) && HasUsed(t.v.q)
    ensures TxInv(t.(v := VPop(t.v), done := true))
    ensures InFlight(t)
  {
    hide TxBuffer;
    PopOk(t.v);
  }

  lemma TxSend(t: Link, i: Irq)
    requires TxInv(t) && Shaped(t.v.q)
    ensures TxInv(SendTx(t, i))
  {
    hide TxInv, VDesc, VWrite, VPublish, CountSubmitted;
    match t.pc {
      case TxFilled => TxSendLink(t);
      case TxReady => TxSendWrite(t);
      case TxRingWritten => TxSendPublish(t);
      case TxPublished => TxSendCount(t);
      case _ => TxSendWait(t, i);
    }
  }

  lemma TxSendLink(t: Link)
    requires TxInv(t) && Shaped(t.v.q) && t.pc.TxFilled?
    ensures TxInv(t.(v := VDesc(t.v, 0, TxDesc(t.base, |t.frame|)), done := false, pc := TxReady))
  {
    hide TxBuffer, VqInv;
    assert VqInv(VDesc(t.v, 0, TxDesc(t.base, |t.frame|)));
  }

  lemma TxSendWait(t: Link, i: Irq)
    requires TxInv(t) && Shaped(t.v.q)
    requires !t.pc.TxFilled? && !t.pc.TxReady? && !t.pc.TxRingWritten? && !t.pc.TxPublished?
    ensures TxInv(SendTx(t, i))
  {
    hide TxBuffer, VqInv;
  }

  lemma TxSendWrite(t: Link)
    requires TxInv(t) && t.pc.TxReady?
    ensures TxInv(t.(v := VWrite(t.v, 0), pc := TxRingWritten))
  {
    hide TxBuffer;
    WriteOk(t.v, 0);
  }

  lemma TxSendPublish(t: Link)
    requires TxInv(t) && t.pc.TxRingWritten?
    ensures TxInv(t.(v := VPublish(t.v, 0), queued := t.queued + [t.frame], pc := TxPublished))
  {
    hide TxBuffer;
    PublishOk(t.v, 0);
  }

  lemma TxSendCount(t: Link)
    requires TxInv(t) && t.pc.TxPublished?
    ensures TxInv(t.(v := t.v.(q := CountSubmitted(t.v.q)), pc := TxSubmitted))
  {
    hide TxBuffer;
    WrapSlot(|t.v.pushed| - 1);
  }

  lemma TxDevice(n: Net, e: Event)
    requires Formed(n) && TxInv(n.tx)
    ensures TxInv(DeviceStep(n, e).tx)
  {
    hide TxInv, VFetch, Transmitted, VComplete, HasAvail, NextAvail, Deliver;
    match e {
      case DevFetchTx =>
        if HasAvail(n.tx.v.q, n.tx.v.devIdx) {
          TxFetch(n.tx);
        }
      case DevCompleteTx =>
        if |n.tx.v.completed| < n.tx.v.fetched {
          TxComplete(n.tx);
        }
      case _ =>
    }
  }

  lemma TxIrq(n: Net)
    requires Formed(n) && TxInv(n.tx)
    ensures TxInv(IrqStep(n).tx)
  {
    hide TxInv, VPop, VWrite, VPublish, VDesc, HasUsed, NextUsed, Found;
    if n.handler.TxTop? && HasUsed(n.tx.v.q) {
      TxPop(n.tx);
    }
  }

  lemma TxStep(n: Net, e: Event)
    requires Formed(n) && TxInv(n.tx)
    ensures TxInv(Step(n, e).tx)
  {
    hide TxInv, IrqStep, DeviceStep, SendTx, SendIrq, BeginSend, Formed;
    match e {
      case HandlerStep => TxIrq(n);
      case Send(frame) =>
        if n.tx.pc.TxIdle? {
          TxFill(n.tx, frame);
        }
      case DriverStep => TxSendGuard(n);
      case Wake =>
        if n.tx.pc.WaitWfi? {
          TxWake(n.tx);
        }
      case Trap =>
      case _ => TxDevice(n, e);
    }
  }

  lemma TxSendGuard(n: Net)
    requires Formed(n) && TxInv(n.tx)
    ensures TxInv(SendTx(n.tx, n.irq))
  {
    hide TxInv, SendTx;
    TxSend(n.tx, n.irq);
  }

  lemma TxFill(t: Link, frame: Bytes)
    requires TxInv(t) && t.pc.TxIdle?
    ensures TxInv(BeginSend(t, frame))
  {
    hide TxBuffer, VqInv;
  }

  lemma TxWake(t: Link)
    requires TxInv(t) && t.pc.WaitWfi?
    ensures TxInv(t.(pc := WaitOpen))
  {
    hide TxBuffer, VqInv;
  }

  // ---- interrupts: no completion is lost ----

  predicate RxWindow(h: Handler) {
    h.RxTop? || h.RxHand? || h.RxRead? || h.RxLinked? || h.RxWritten?
  }

  predicate TxWindow(h: Handler) {
    RxWindow(h) || h.TxTop?
  }

  /** Outside the window from the acknowledgement to the end of a queue's drain, a completion of that
      queue that nobody has taken has its status bit set or about to be set. */
  ghost predicate NoneLost(n: Net) {
    && (Pending(n.rx.v) ==> n.irq.used || n.irq.owes || RxWindow(n.handler))
    && (Pending(n.tx.v) ==> n.irq.used || n.irq.owes || TxWindow(n.handler))
    && (n.handler.GotStatus? && n.handler.used ==> n.irq.used)
  }

  /** While the sender looks at `done`, interrupts are off and no handler is running. */
  ghost predicate Masked(n: Net) {
    && (n.tx.pc.WaitCheck? || n.tx.pc.WaitWfi? || n.tx.pc.WaitRestore? ==> !n.irq.sie && n.handler.Quiet?)
    && (n.tx.pc.WaitWfi? ==> !n.tx.done)
    && (n.tx.pc.WaitRestore? ==> n.tx.done)
  }

  ghost predicate NetInv(n: Net) {
    Formed(n) && RxInv(n.rx, n.handler) && TxInv(n.tx) && NoneLost(n) && Masked(n)
  }

  lemma LostDevice(n: Net, e: Event)
    requires Formed(n) && NoneLost(n)
    ensures NoneLost(DeviceStep(n, e))
  {
    hide HasAvail, NextAvail, BufAt, DeviceFrame;
  }

  lemma LostIrq(n: Net)
    requires Formed(n) && NoneLost(n) && VqInv(n.rx.v) && VqInv(n.tx.v)
    ensures NoneLost(IrqStep(n))
  {
    hide VqInv, HasUsed, NextUsed, Formed, Found;
    PopOk(n.rx.v);
    PopOk(n.tx.v);
  }

  lemma LostSend(n: Net)
    requires Formed(n) && NoneLost(n)
    ensures Pending(SendTx(n.tx, n.irq).v) <==> Pending(n.tx.v)
    ensures SendIrq(n.tx, n.irq).used == n.irq.used && SendIrq(n.tx, n.irq).owes == n.irq.owes
  {
  }

  lemma LostStep(n: Net, e: Event)
    requires Formed(n) && NoneLost(n) && VqInv(n.rx.v) && VqInv(n.tx.v)
    ensures NoneLost(Step(n, e))
  {
    hide IrqStep, DeviceStep, SendTx, SendIrq, Formed, VqInv, TxBuffer;
    match e {
      case HandlerStep => LostIrq(n);
      case DriverStep => LostSend(n);
      case Send(frame) =>
      case Wake =>
      case Trap =>
      case _ => LostDevice(n, e);
    }
  }

  lemma MaskedDevice(n: Net, e: Event)
    requires Formed(n) && Masked(n)
    ensures Masked(DeviceStep(n, e))
  {
    hide HasAvail, NextAvail, VFetch, VComplete, Deliver, DeviceFrame;
  }

  lemma MaskedIrq(n: Net)
    requires Formed(n) && Masked(n)
    ensures Masked(IrqStep(n))
  {
    hide HasUsed, NextUsed, VPop, VWrite, VPublish, VDesc, Found;
  }

  lemma MaskedStep(n: Net, e: Event)
    requires Formed(n) && Masked(n)
    ensures Masked(Step(n, e))
  {
    hide IrqStep, DeviceStep, Formed, VWrite, VPublish, VDesc, CountSubmitted, TxBuffer;
    match e {
      case HandlerStep => MaskedIrq(n);
      case DriverStep =>
      case Send(frame) =>
      case Wake =>
      case Trap =>
      case _ => MaskedDevice(n, e);
    }
  }

  /** Every step of driver, device or handler keeps the invariant. */
  lemma StepInv(n: Net, e: Event)
    requires NetInv(n)
    ensures NetInv(Step(n, e))
  {
    hide Step, RxInv, TxInv, NoneLost, Masked, VqInv;
    Queues(n);
    RxStep(n, e);
    TxStep(n, e);
    LostStep(n, e);
    MaskedStep(n, e);
    ShapesOf(Step(n, e));
  }

  lemma Queues(n: Net)
    requires RxInv(n.rx, n.handler) && TxInv(n.tx)
    ensures VqInv(n.rx.v) && VqInv(n.tx.v)
  {
    hide MemoryInv, FrameInv;
  }

  lemma ShapesOf(n: Net)
    requires RxInv(n.rx, n.handler) && TxInv(n.tx)
    ensures Formed(n)
  {
    hide Found, Places, TxBuffer;
  }

  // ---- boot and runs ----

  /** The receive queue after `virtio_net_init` has enqueued the first `k` buffers. */
  function Enqueued(base: int, k: nat): Vq
    requires k <= ENTRIES
    ensures Shaped(Enqueued(base, k).q)
  {
    if k == 0 then EmptyVq()
    else Enqueue(Enqueued(base, k - 1), base, k - 1)
  }

  /** `virtio_net_enqueue_rx` as one step. */
  function Enqueue(v: Vq, base: int, d: int): (v1: Vq)
    requires Shaped(v.q) && 0 <= d < ENTRIES
    ensures Shaped(v1.q)
  {
    VPublish(VWrite(VDesc(v, d, RxDesc(base, d)), d), d)
  }

  lemma EnqueueOk(v: Vq, base: int, d: int)
    requires VqInv(v) && |v.pushed| < v.popped + ENTRIES && 0 <= d < ENTRIES
    ensures VqInv(Enqueue(v, base, d)) && Enqueue(v, base, d).pushed == v.pushed + [d]
    ensures Enqueue(v, base, d).q.descs == v.q.descs[d := RxDesc(base, d)]
    ensures Enqueue(v, base, d) == v.(q := Enqueue(v, base, d).q, pushed := v.pushed + [d])
  {
    hide Counters, Windows;
    VqShaped(v);
    var v1 := VDesc(v, d, RxDesc(base, d));
    WriteOk(v1, d);
    PublishOk(VWrite(v1, d), d);
  }

  lemma VqShaped(v: Vq)
    requires VqInv(v)
    ensures Shaped(v.q)
  {
  }

  lemma {:induction false} EnqueuedFacts(base: int, k: nat)
    requires k <= ENTRIES
    ensures VqInv(Enqueued(base, k)) && Enqueued(base, k).pushed == seq(k, i => i)
    ensures Enqueued(base, k).popped == 0 && Enqueued(base, k).fetched == 0 && Enqueued(base, k).completed == []
    ensures forall d :: 0 <= d < k ==> Enqueued(base, k).q.descs[d] == RxDesc(base, d)
  {
    hide VqInv, Enqueue, RxDesc;
    if k == 0 {
      EmptyOk();
    } else {
      EnqueuedFacts(base, k - 1);
      EnqueueOk(Enqueued(base, k - 1), base, k - 1);
      assert seq(k - 1, i => i) + [k - 1] == seq(k, i => i);
    }
  }

  lemma EmptyOk()
    ensures VqInv(EmptyVq())
  {
  }

  function InboxInit(base: int): Inbox {
    Inbox(Enqueued(base, ENTRIES), {}, base, seq(ENTRIES, _ => seq(BUF, _ => 0)), [], [])
  }

  function LinkInit(base: int): Link {
    Link(EmptyVq(), TxIdle, false, [], base, [], [], [])
  }

  function NetInit(rxBase: int, txBase: int, sie: bool): Net {
    Net(InboxInit(rxBase), LinkInit(txBase), Irq(false, false, false, sie, false), Quiet)
  }

  lemma InitRx(base: int)
    ensures RxInv(InboxInit(base), Quiet)
  {
    hide Enqueued, Found;
    EnqueuedFacts(base, ENTRIES);
    var r := InboxInit(base);
    var w := seq(ENTRIES, i => Available(i));
    assert Places(w, r.v, r.held, Hand(Quiet));
  }

  lemma InitTx(base: int)
    ensures TxInv(LinkInit(base))
  {
  }

  lemma InitInv(rxBase: int, txBase: int, sie: bool)
    ensures NetInv(NetInit(rxBase, txBase, sie))
  {
    hide RxInv, TxInv, Enqueued;
    InitRx(rxBase);
    InitTx(txBase);
    EnqueuedFacts(rxBase, ENTRIES);
    ShapesOf(NetInit(rxBase, txBase, sie));
  }

  function Run(n: Net, es: seq<Event>): Net
    requires NetInv(n)
    decreases |es|
  {
    if es == [] then n
    else
      StepInv(n, es[0]);
      Run(Step(n, es[0]), es[1..])
  }

  /** In every interleaving, from boot on. */
  lemma {:induction false} RunInv(n: Net, es: seq<Event>)
    requires NetInv(n)
    ensures NetInv(Run(n, es))
    decreases |es|
  {
    hide Step, RxInv, TxInv, NoneLost, Masked;
    if es != [] {
      StepInv(n, es[0]);
      RunInv(Step(n, es[0]), es[1..]);
    }
  }

  // ---- what the invariant means ----

  /** No lost wake-up: if the device is done with the frame and owes no interrupt, the status bit is
      up, so WFI does not sleep. */
  lemma WfiWakes(n: Net)
    requires NetInv(n) && n.tx.pc.WaitWfi? && |n.tx.v.completed| == |n.tx.v.pushed| && !n.irq.owes
    ensures n.irq.used
  {
    hide VqInv, RxInv, FrameInv;
  }

  /** While the device has the frame, neither the buffer nor the descriptor is rewritten, and the
      descriptor shows it exactly the frame that was handed over. */
  lemma FrameStable(n: Net, e: Event)
    requires NetInv(n) && |n.tx.v.completed| < |n.tx.v.pushed|
    ensures Step(n, e).tx.buffer == n.tx.buffer && Step(n, e).tx.v.q.descs == n.tx.v.q.descs
    ensures var f := n.tx.queued[|n.tx.queued| - 1];
            && DeviceFrame(n.tx) == Some(f)
            && n.tx.v.q.descs[0] == Desc(n.tx.base, 10 + |f|, 0, 0)
            && |n.tx.buffer| == 1524 && n.tx.buffer[10..10 + |f|] == f
            && forall i :: 0 <= i < 10 ==> n.tx.buffer[i] == 0
  {
    hide RxInv, VqInv, TxBuffer, DeviceFrame, Deliver, Found;
    TxQueueGives(n.tx);
    FrameDenotes(n.tx);
    BufferLayout(n.tx.frame);
  }

  /** Ten zero bytes of device header, the frame, and zeros up to the size of the buffer. */
  lemma BufferLayout(frame: Bytes)
    requires |frame| <= MAX_FRAME
    ensures var buffer := TxBuffer(frame);
            && |buffer| == 1524 && buffer[10..10 + |frame|] == frame
            && forall i :: 0 <= i < 1524 && !(10 <= i < 10 + |frame|) ==> buffer[i] == 0
  {
  }

  /** When the wait returns, the queue is empty again, exactly the frames handed over have been
      transmitted, in order, and SIE is as it was before the wait. */
  lemma SendReturns(n: Net)
    requires NetInv(n) && n.tx.pc.WaitRestore? && n.handler.Quiet?
    ensures var n1 := Step(n, DriverStep);
            && n1.tx.pc.TxIdle? && |n1.tx.v.pushed| == n1.tx.v.popped == |n1.tx.v.completed|
            && n1.tx.sent == n1.tx.queued && n1.irq.sie == n.irq.saved
  {
    hide RxInv, Windows, TxBuffer;
    TxQueueGives(n.tx);
  }

  /** SIE is as it was before the wait: the wait saves it when it starts, nobody changes the saved value, SIE
      itself changes only inside the wait, and the wait ends by putting the saved value back. */
  lemma SieRestored(n: Net, e: Event)
    requires NetInv(n)
    ensures var n1 := Step(n, e);
            && (n.tx.pc.TxSubmitted? && n1.tx.pc.WaitCheck? ==> n1.irq.saved == n.irq.sie && !n1.irq.sie)
            && (!n.tx.pc.TxSubmitted? ==> n1.irq.saved == n.irq.saved)
            && (n.tx.pc.WaitRestore? && n1.tx.pc.TxIdle? ==> n1.irq.sie == n.irq.saved)
            && (n1.irq.sie != n.irq.sie ==>
                  n.tx.pc.TxSubmitted? || n.tx.pc.WaitWfi? || n.tx.pc.WaitOpen? || n.tx.pc.WaitRestore?)
  {
    hide RxInv, TxInv, Deliver, DeviceFrame, TxBuffer, Found, HasUsed, HasAvail;
  }

  // ---- the frames are those the callers sent ----

  /** A send begins: no other is under way, no handler runs, and the length is that of an Ethernet frame. */
  predicate Begins(n: Net, e: Event) {
    e.Send? && n.handler.Quiet? && n.tx.pc.TxIdle? && 60 <= |e.frame| <= 1514
  }

  /** The frames handed over so far, and the one not handed over yet. */
  function Handled(t: Link): seq<Bytes> {
    t.queued + if t.pc.TxFilled? || t.pc.TxReady? || t.pc.TxRingWritten? then [t.frame] else []
  }

  /** The frames that the callers passed in the events of a run. */
  function Sends(n: Net, es: seq<Event>): seq<Bytes>
    requires NetInv(n)
    decreases |es|
  {
    if es == [] then []
    else
      StepInv(n, es[0]);
      (if Begins(n, es[0]) then [es[0].frame] else []) + Sends(Step(n, es[0]), es[1..])
  }

  /** A frame of a legal length is taken when no other is under way; any other is refused. */
  lemma SendOrRefuse(n: Net, frame: Bytes)
    requires NetInv(n) && n.handler.Quiet? && n.tx.pc.TxIdle?
    ensures 60 <= |frame| <= 1514 ==> !Step(n, Send(frame)).tx.pc.TxIdle?
    ensures !(60 <= |frame| <= 1514) ==> Step(n, Send(frame)) == n
  {
  }

  lemma StepHandled(n: Net, e: Event)
    requires Formed(n)
    ensures Handled(Step(n, e).tx) == Handled(n.tx) + if Begins(n, e) then [e.frame] else []
  {
    hide Formed, Deliver, DeviceFrame, Found, TxBuffer, HasUsed, HasAvail, VDesc, VWrite, VPublish, VFetch, VPop,
         VComplete;
  }

  lemma {:induction false} RunHandled(n: Net, es: seq<Event>)
    requires NetInv(n)
    ensures Handled(Run(n, es).tx) == Handled(n.tx) + Sends(n, es)
    decreases |es|
  {
    hide Step, RxInv, TxInv, NoneLost, Masked, Handled, Begins;
    if es != [] {
      StepInv(n, es[0]);
      StepHandled(n, es[0]);
      RunHandled(Step(n, es[0]), es[1..]);
    }
  }

  /** End to end, over any interleaving from boot on: the device has transmitted the frames that the callers
      passed, in order, and all of them whenever no send is under way. */
  lemma SentAsPassed(rxBase: int, txBase: int, sie: bool, es: seq<Event>)
    ensures NetInv(NetInit(rxBase, txBase, sie))
    ensures var n0 := NetInit(rxBase, txBase, sie);
            var t := Run(n0, es).tx;
            && |t.sent| <= |Sends(n0, es)| && t.sent == Sends(n0, es)[..|t.sent|]
            && (t.pc.TxIdle? ==> t.sent == Sends(n0, es))
  {
    hide Run, RxInv, NoneLost, Masked, Sends, VqInv, TxBuffer, NetInit;
    InitInv(rxBase, txBase, sie);
    var n0 := NetInit(rxBase, txBase, sie);
    InitHandled(rxBase, txBase, sie);
    RunHandled(n0, es);
    RunInv(n0, es);
    var t := Run(n0, es).tx;
    TxQueueGives(t);
    assert Sends(n0, es) == Handled(t);
    assert t.sent == t.queued[..|t.sent|] == Handled(t)[..|t.sent|];
  }

  lemma InitHandled(rxBase: int, txBase: int, sie: bool)
    ensures Handled(NetInit(rxBase, txBase, sie).tx) == []
  {
  }

  /** At most one frame is ever in flight, and none when a send starts. */
  lemma OneInFlight(n: Net)
    requires NetInv(n)
    ensures n.tx.v.popped <= |n.tx.v.pushed| <= n.tx.v.popped + 1
    ensures n.tx.pc.TxIdle? ==> |n.tx.v.pushed| == n.tx.v.popped && n.tx.v.q.submitted == n.tx.v.q.consumed
    ensures (n.tx.v.q.availIdx - n.tx.v.q.consumed) % 65536 == |n.tx.v.pushed| - n.tx.v.popped
  {
    hide RxInv, Windows, FrameInv;
    TxQueueGives(n.tx);
    Difference(n.tx.v.popped, |n.tx.v.pushed|);
  }

  /** `virtq_is_busy` on the transmit queue tells whether a frame is outstanding, except between the two
      stores of `virtq_kick`, where it tells the opposite. */
  lemma BusyMeaning(n: Net)
    requires NetInv(n)
    ensures Busy(n.tx.v.q) <==> ((n.tx.v.popped < |n.tx.v.pushed|) != n.tx.pc.TxPublished?)
  {
    hide RxInv, FrameInv, VqInv;
    TxQueueGives(n.tx);
    BusyCounts(n.tx.v, n.tx.pc.TxPublished?);
  }

  /** Between iterations of the receive drain 16 buffers are out, and 15 while one is in hand. */
  lemma RxOutstanding(n: Net)
    requires NetInv(n)
    ensures (n.rx.v.q.availIdx - n.rx.v.q.consumed) % 65536 == if Hand(n.handler) == {} then 16 else 15
  {
    hide TxInv, Windows, Places, MemoryInv;
    Difference(n.rx.v.popped, |n.rx.v.pushed|);
  }

  lemma Difference(m: nat, n: nat)
    requires m <= n <= m + ENTRIES
    ensures (n % TWO_16 - m % TWO_16) % TWO_16 == n - m
  {
  }

  /** In every interleaving, what the handler has passed on is what the device wrote, buffer by buffer
      and in the order of completion; whenever the receive drain is over, nothing is missing from it
      but what has come in since. */
  lemma FramesPassedOn(n: Net, es: seq<Event>)
    requires NetInv(n)
    ensures var r := Run(n, es).rx;
            && |r.taken| <= |r.written| && r.taken == r.written[..|r.taken|]
            && (!Run(n, es).handler.RxHand? ==> |r.taken| == r.v.popped)
  {
    hide Run, Places, TxInv, Found, VqInv;
    RunInv(n, es);
  }
}
