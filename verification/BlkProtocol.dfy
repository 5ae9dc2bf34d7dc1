/** `read_write_disk`, the block device and `virtio_blk_irq` as one machine that interleaves their
    steps (kernel/virtio_blk.c, kernel/virtio.c, kernel/interrupt.c). Seen through the calls that
    return, the disk behaves as if each call took effect in one step. */
module BlkProtocol {
  import opened Machine
  import opened Virtqueue

  type Sector = seq<Byte>
  type Disk = seq<Sector>

  /** `struct virtio_blk_req`, shared with the device. */
  datatype Request = Request(sector: nat, write: bool, data: Sector, status: int)

  const HEADER_LEN := 16
  const SECTOR_SIZE := 512

  datatype Pc =
    | Idle
    | Filled
    | Linked1
    | Linked2
    | Prepared
    | RingWritten
    | Published
    | Submitted
    | WaitCheck
    | WaitWfi
    | WaitOpen
    | WaitRestore
    | ReadResult

  /** Where `virtio_blk_irq` stands; `Drain` carries its local `completed`. */
  datatype Handler = Quiet | GotStatus(used: bool, cfg: bool) | Drain(completed: bool)

  /** A call of `read_write_disk`: what it was asked, and once it has returned the status the device gave
      and what a successful read put into the caller's buffer. */
  datatype Call = Call(sector: nat, write: bool, data: Sector, status: int, result: Option<Sector>)

  /** The driver's side: queue, position, `blk_done`, the address of the request buffer, the call
      under way, and the contents of the buffer as they were filled in. */
  datatype Client = Client(v: Vq, pc: Pc, done: bool, base: int, asked: Call, issued: Request)

  /** `req` is the shared buffer and `disk` the medium; `model` is the disk as the returned calls
      describe it, and `calls` lists them. */
  datatype Blk = Blk(c: Client, req: Request, disk: Disk, model: Disk, calls: seq<Call>, irq: Irq, handler: Handler)

  datatype Event =
    | DevFetch
    | DevComplete(status: int)
    | DevRaise
    | DevConfig
    | Trap
    | HandlerStep
    | StartCall(sector: nat, write: bool, data: Sector)
    | DriverStep
    | Wake

  // ---- what a request does ----

  /** The disk after a request that the device ended with `status`; 0 is success. */
  function Effect(disk: Disk, r: Request, status: int): Disk {
    if status == 0 && r.write && r.sector < |disk| then disk[r.sector := r.data] else disk
  }

  /** The request buffer after the device is done with it. */
  function Answer(disk: Disk, r: Request, status: int): Request {
    if status == 0 && !r.write && r.sector < |disk| then r.(data := disk[r.sector], status := status)
    else r.(status := status)
  }

  // ---- the descriptor chain ----

  /** The three descriptors of a request: header, data and status, each at its offset in the buffer; the
      data descriptor has the WRITE flag exactly for a read. */
  function HeaderDesc(base: int): Desc {
    Desc(base, HEADER_LEN, F_NEXT, 1)
  }

  function DataDesc(base: int, write: bool): Desc {
    Desc(base + HEADER_LEN, SECTOR_SIZE, F_NEXT + (if write then 0 else F_WRITE), 2)
  }

  /** The third store leaves `next` as it was. */
  function StatusDesc(base: int, was: Desc): Desc {
    Desc(base + HEADER_LEN + SECTOR_SIZE, 1, F_WRITE, was.next)
  }

  /** The descriptor stores of `read_write_disk`. */
  method LinkRequest(vq: Virtq, base: int, write: bool)
    requires Shaped(vq.View())
    modifies vq.descs
    ensures Shaped(vq.View())
    ensures vq.View() == WriteDesc(WriteDesc(WriteDesc(old(vq.View()), 0, HeaderDesc(base)), 1, DataDesc(base, write)),
                                   2, StatusDesc(base, old(vq.View()).descs[2]))
  {
    vq.SetDesc(0, Desc(base, HEADER_LEN, F_NEXT, 1));
    vq.SetDesc(1, Desc(base + HEADER_LEN, SECTOR_SIZE, F_NEXT + (if write then 0 else F_WRITE), 2));
    vq.SetDesc(2, vq.descs[2].(addr := base + HEADER_LEN + SECTOR_SIZE, len := 1, flags := F_WRITE));
  }

  predicate HasFlag(d: Desc, flag: int)
    requires flag == 1 || flag == 2
  {
    d.flags / flag % 2 == 1
  }

  /** The buffers a chain names, in order, or nothing if it leaves the table or does not end within
      `fuel` descriptors. */
  function Chain(descs: seq<Desc>, head: int, fuel: nat): Option<seq<Desc>>
    decreases fuel
  {
    if fuel == 0 || !(0 <= head < |descs|) then None
    else if !HasFlag(descs[head], F_NEXT) then Some([descs[head]])
    else
      var rest := Chain(descs, descs[head].next, fuel - 1);
      if rest.Some? then Some([descs[head]] + rest.value) else None
  }

  /** What a block device makes of a chain over the buffer at `base` with contents `r`: the header, the
      data and the status byte must each be one descriptor at its place, the header readable, the
      status writable, and the data writable for a read and readable for a write. The device only ever
      writes where a descriptor lets it. */
  function DeviceRequest(descs: seq<Desc>, head: int, base: int, r: Request): Option<Request> {
    match Chain(descs, head, ENTRIES)
    case None => None
    case Some(ds) =>
      if && |ds| == 3
         && ds[0].addr == base && ds[0].len == HEADER_LEN && !HasFlag(ds[0], F_WRITE)
         && ds[1].addr == base + HEADER_LEN && ds[1].len == SECTOR_SIZE && HasFlag(ds[1], F_WRITE) == !r.write
         && ds[2].addr == base + HEADER_LEN + SECTOR_SIZE && ds[2].len == 1 && HasFlag(ds[2], F_WRITE)
      then Some(r) else None
  }

  // ---- the steps ----

  /** The head of the oldest chain the device has not completed. */
  function Oldest(v: Vq): int {
    if |v.completed| < |v.pushed| then v.pushed[|v.completed|] else 0
  }

  /** The device carries out the request that the chain from `head` stands for. */
  function DeviceComplete(b: Blk, head: int, status: int): Blk
    requires Shaped(b.c.v.q)
  {
    match DeviceRequest(b.c.v.q.descs, head, b.c.base, b.req)
    case None => b
    case Some(r) =>
      b.(c := b.c.(v := VComplete(b.c.v, UsedElem(head, 0))), irq := b.irq.(owes := true),
         disk := Effect(b.disk, r, status), req := Answer(b.disk, r, status))
  }

  function DeviceStep(b: Blk, e: Event): (r: Blk)
    requires Shaped(b.c.v.q)
  {
    match e
    case DevFetch =>
      if HasAvail(b.c.v.q, b.c.v.devIdx) then b.(c := b.c.(v := VFetch(b.c.v))) else b
    case DevComplete(status) =>
      if |b.c.v.completed| < b.c.v.fetched then DeviceComplete(b, Oldest(b.c.v), status) else b
    case DevRaise => if b.irq.owes then b.(irq := b.irq.(used := true, owes := false)) else b
    case DevConfig => b.(irq := b.irq.(cfg := true))
    case _ => b
  }

  function IrqStep(b: Blk): (r: Blk)
    requires Shaped(b.c.v.q)
  {
    match b.handler
    case Quiet => b
    case GotStatus(u, c) =>
      b.(irq := b.irq.(used := b.irq.used && !u, cfg := b.irq.cfg && !c), handler := if u then Drain(false) else Quiet)
    case Drain(completed) =>
      if HasUsed(b.c.v.q) then b.(c := b.c.(v := VPop(b.c.v)), handler := Drain(true))
      else b.(c := if completed then b.c.(done := true) else b.c, handler := Quiet)
  }

  function ClientStep(c: Client, i: Irq): Client
    requires Shaped(c.v.q)
  {
    match c.pc
    case Idle => c
    case Filled => c.(v := VDesc(c.v, 0, HeaderDesc(c.base)), pc := Linked1)
    case Linked1 => c.(v := VDesc(c.v, 1, DataDesc(c.base, c.issued.write)), pc := Linked2)
    case Linked2 => c.(v := VDesc(c.v, 2, StatusDesc(c.base, c.v.q.descs[2])), done := false, pc := Prepared)
    case Prepared => c.(v := VWrite(c.v, 0), pc := RingWritten)
    case RingWritten => c.(v := VPublish(c.v, 0), pc := Published)
    case Published => c.(v := c.v.(q := CountSubmitted(c.v.q)), pc := Submitted)
    case Submitted => c.(pc := WaitCheck)
    case WaitCheck => c.(pc := if c.done then WaitRestore else WaitWfi)
    case WaitWfi => if i.used || i.cfg then c.(pc := WaitOpen) else c
    case WaitOpen => c.(pc := WaitCheck)
    case WaitRestore => c.(pc := ReadResult)
    case ReadResult => c
  }

  function ClientIrq(c: Client, i: Irq): Irq {
    match c.pc
    case Submitted => i.(saved := i.sie, sie := false)
    case WaitWfi => if i.used || i.cfg then i.(sie := true) else i
    case WaitOpen => i.(sie := false)
    case WaitRestore => i.(sie := i.saved)
    case _ => i
  }

  /** The end of `read_write_disk`: check the status, copy the data of a read. */
  function Return(b: Blk): Blk {
    var result := if b.req.status == 0 && !b.req.write then Some(b.req.data) else None;
    b.(c := b.c.(pc := Idle), model := Effect(b.model, b.c.issued, b.req.status),
       calls := b.calls + [b.c.asked.(status := b.req.status, result := result)])
  }

  /** The start of `read_write_disk`: a sector past the end is refused, otherwise the request is
      written into the shared buffer. */
  function Begin(b: Blk, sector: nat, write: bool, data: Sector): Blk {
    if sector >= |b.disk| then b
    else
      var r := Request(sector, write, if write then data else b.req.data, b.req.status);
      b.(req := r, c := b.c.(asked := Call(sector, write, data, 0, None), issued := r, pc := Filled))
  }

  /** One step of the machine. WFI may also return for reasons that have nothing to do with this device:
      that is the event `Wake`. */
  function Step(b: Blk, e: Event): (r: Blk)
    requires Shaped(b.c.v.q)
  {
    match e
    case Trap => if b.handler.Quiet? && b.irq.sie then b.(handler := GotStatus(b.irq.used, b.irq.cfg)) else b
    case HandlerStep => IrqStep(b)
    case StartCall(sector, write, data) =>
      if b.handler.Quiet? && b.c.pc.Idle? then Begin(b, sector, write, data) else b
    case DriverStep =>
      if !b.handler.Quiet? then b
      else if b.c.pc.ReadResult? then Return(b)
      else b.(c := ClientStep(b.c, b.irq), irq := ClientIrq(b.c, b.irq))
    case Wake =>
      if b.handler.Quiet? && b.c.pc.WaitWfi? then b.(c := b.c.(pc := WaitOpen), irq := b.irq.(sie := true)) else b
    case _ => DeviceStep(b, e)
  }

  // ---- one request in flight ----

  predicate Flying(pc: Pc) {
    pc.Published? || pc.Submitted? || pc.WaitCheck? || pc.WaitWfi? || pc.WaitOpen?
  }

  predicate Waiting(pc: Pc) {
    Flying(pc) || pc.WaitRestore? || pc.ReadResult?
  }

  /** How much of the descriptor chain is in place. */
  predicate Linked(q: Queue, c: Client)
    requires Shaped(q)
  {
    && (!c.pc.Idle? && !c.pc.Filled? ==> q.descs[0] == HeaderDesc(c.base))
    && (!c.pc.Idle? && !c.pc.Filled? && !c.pc.Linked1? ==> q.descs[1] == DataDesc(c.base, c.issued.write))
    && (!c.pc.Idle? && !c.pc.Filled? && !c.pc.Linked1? && !c.pc.Linked2? ==>
          q.descs[2] == StatusDesc(c.base, q.descs[2]))
  }

  ghost predicate QueueInv(c: Client, h: Handler) {
    && VqInv(c.v)
    && |c.v.pushed| == c.v.popped + (if Flying(c.pc) && !c.done && h != Drain(true) then 1 else 0)
    && (h == Drain(true) ==> Flying(c.pc) && !c.done)
    && (c.pc.Prepared? || c.pc.RingWritten? ==> !c.done)
    && (c.pc.RingWritten? ==> c.v.q.availRing[|c.v.pushed| % ENTRIES] == 0)
    && (forall i :: 0 <= i < |c.v.pushed| ==> c.v.pushed[i] == 0)
    && (Waiting(c.pc) ==> 0 < |c.v.pushed|)
    && Linked(c.v.q, c)
    && c.v.q.submitted == (|c.v.pushed| - if c.pc.Published? then 1 else 0) % TWO_16
  }

  /** The request is the one the call asked for. */
  predicate Asks(r: Request, call: Call) {
    r.sector == call.sector && r.write == call.write && (call.write ==> r.data == call.data)
  }

  /** Until the device is done the medium and the buffer are as the driver left them; after that they
      are what the request makes of them. */
  ghost predicate DataInv(b: Blk) {
    && |b.model| == |b.disk|
    && (!b.c.pc.Idle? ==> b.c.issued.sector < |b.disk| && Asks(b.c.issued, b.c.asked))
    && (if Waiting(b.c.pc) && |b.c.v.completed| == |b.c.v.pushed| then
          && b.disk == Effect(b.model, b.c.issued, b.req.status)
          && b.req == Answer(b.model, b.c.issued, b.req.status)
        else
          && b.disk == b.model
          && (!b.c.pc.Idle? ==> b.req == b.c.issued))
  }

  ghost predicate NoneLost(b: Blk) {
    && (Pending(b.c.v) ==> b.irq.used || b.irq.owes || b.handler.Drain?)
    && (b.handler.GotStatus? && b.handler.used ==> b.irq.used)
  }

  ghost predicate Masked(b: Blk) {
    && (b.c.pc.WaitCheck? || b.c.pc.WaitWfi? || b.c.pc.WaitRestore? ==> !b.irq.sie && b.handler.Quiet?)
    && (b.c.pc.WaitWfi? ==> !b.c.done)
    && (b.c.pc.WaitRestore? || b.c.pc.ReadResult? ==> b.c.done)
  }

  ghost predicate BlkInv(b: Blk) {
    QueueInv(b.c, b.handler) && DataInv(b) && NoneLost(b) && Masked(b)
  }

  lemma QueueGives(c: Client, h: Handler)
    requires QueueInv(c, h)
    ensures Shaped(c.v.q) && VqInv(c.v)
    ensures c.v.popped <= |c.v.completed| <= c.v.fetched <= |c.v.pushed| <= c.v.popped + 1
  {
  }

  // ---- the device ----

  lemma QueueFetch(c: Client, h: Handler)
    requires QueueInv(c, h) && HasAvail(c.v.q, c.v.devIdx)
    ensures QueueInv(c.(v := VFetch(c.v)), h)
  {
    FetchOk(c.v);
  }

  lemma QueueComplete(c: Client, h: Handler)
    requires QueueInv(c, h) && |c.v.completed| < c.v.fetched
    ensures QueueInv(c.(v := VComplete(c.v, UsedElem(Oldest(c.v), 0))), h)
    ensures Flying(c.pc) && |c.v.completed| + 1 == |c.v.pushed| && Oldest(c.v) == 0
  {
    CompleteOk(c.v, UsedElem(Oldest(c.v), 0));
  }

  /** Once the three descriptors are written, the chain from descriptor 0 is exactly the issued request,
      with the data direction of that request. */
  lemma ChainDenotes(c: Client, h: Handler, r: Request)
    requires QueueInv(c, h) && r.write == c.issued.write
    requires !c.pc.Idle? && !c.pc.Filled? && !c.pc.Linked1? && !c.pc.Linked2?
    ensures Shaped(c.v.q) && DeviceRequest(c.v.q.descs, 0, c.base, r) == Some(r)
    ensures c.v.q.descs[0] == Desc(c.base, 16, 1, 1)
    ensures c.v.q.descs[1] == Desc(c.base + 16, 512, if r.write then 1 else 3, 2)
    ensures c.v.q.descs[2] == Desc(c.base + 528, 1, 2, c.v.q.descs[2].next)
  {
    hide VqInv;
    QueueGives(c, h);
    var ds := c.v.q.descs;
    assert ds[0] == HeaderDesc(c.base) && ds[1] == DataDesc(c.base, c.issued.write);
    assert ds[2] == StatusDesc(c.base, ds[2]);
    assert Chain(ds, 2, ENTRIES - 2) == Some([ds[2]]);
    assert Chain(ds, 1, ENTRIES - 1) == Some([ds[1]] + [ds[2]]);
    assert Chain(ds, 0, ENTRIES) == Some([ds[0]] + ([ds[1]] + [ds[2]]));
  }

  lemma StepDevice(b: Blk, e: Event)
    requires BlkInv(b) && Shaped(b.c.v.q)
    ensures BlkInv(DeviceStep(b, e))
  {
    hide QueueInv, HasAvail, VqInv, DeviceRequest;
    QueueGives(b.c, b.handler);
    match e {
      case DevFetch =>
        if HasAvail(b.c.v.q, b.c.v.devIdx) {
          QueueFetch(b.c, b.handler);
        }
      case DevComplete(status) =>
        if |b.c.v.completed| < b.c.v.fetched {
          QueueComplete(b.c, b.handler);
          ChainDenotes(b.c, b.handler, b.req);
        }
      case _ =>
    }
  }

  // ---- the handler ----

  lemma QueuePop(c: Client, h: Handler)
    requires QueueInv(c, h) && h.Drain? && HasUsed(c.v.q)
    ensures QueueInv(c.(v := VPop(c.v)), Drain(true))
  {
    PopOk(c.v);
  }

  lemma QueueEnd(c: Client, h: Handler)
    requires QueueInv(c, h) && h.Drain?
    ensures QueueInv(if h.completed then c.(done := true) else c, Quiet)
  {
    hide Windows;
  }

  lemma StepIrq(b: Blk)
    requires BlkInv(b) && Shaped(b.c.v.q)
    ensures BlkInv(IrqStep(b))
  {
    hide VqInv, HasUsed;
    QueueGives(b.c, b.handler);
    PopOk(b.c.v);
    if b.handler.Drain? {
      if HasUsed(b.c.v.q) {
        QueuePop(b.c, b.handler);
      } else {
        QueueEnd(b.c, b.handler);
      }
    }
  }

  // ---- the caller ----

  lemma QueueClient(c: Client, i: Irq)
    requires QueueInv(c, Quiet) && Shaped(c.v.q) && (c.pc.WaitRestore? ==> c.done)
    ensures QueueInv(ClientStep(c, i), Quiet)
  {
    hide Windows;
    match c.pc {
      case Filled => QueueDesc(c, 0, HeaderDesc(c.base));
      case Linked1 => QueueDesc(c, 1, DataDesc(c.base, c.issued.write));
      case Linked2 => QueueDesc(c, 2, StatusDesc(c.base, c.v.q.descs[2]));
      case Prepared => QueueWrite(c);
      case RingWritten => QueuePublish(c);
      case Published => QueueCount(c);
      case _ =>
    }
  }

  lemma QueueDesc(c: Client, i: int, d: Desc)
    requires QueueInv(c, Quiet) && 0 <= i < ENTRIES
    ensures VqInv(VDesc(c.v, i, d))
  {
  }

  lemma QueueWrite(c: Client)
    requires QueueInv(c, Quiet) && c.pc.Prepared?
    ensures QueueInv(c.(v := VWrite(c.v, 0), pc := RingWritten), Quiet)
  {
    WriteOk(c.v, 0);
  }

  lemma QueuePublish(c: Client)
    requires QueueInv(c, Quiet) && c.pc.RingWritten?
    ensures QueueInv(c.(v := VPublish(c.v, 0), pc := Published), Quiet)
  {
    PublishOk(c.v, 0);
  }

  lemma QueueCount(c: Client)
    requires QueueInv(c, Quiet) && c.pc.Published?
    ensures QueueInv(c.(v := c.v.(q := CountSubmitted(c.v.q)), pc := Submitted), Quiet)
  {
    WrapSlot(|c.v.pushed| - 1);
  }

  lemma DataClient(b: Blk)
    requires DataInv(b) && QueueInv(b.c, Quiet) && Shaped(b.c.v.q) && b.handler.Quiet? && !b.c.pc.ReadResult?
    ensures DataInv(b.(c := ClientStep(b.c, b.irq), irq := ClientIrq(b.c, b.irq)))
  {
    hide Windows, Effect, Answer, ClientIrq;
  }

  lemma RestClient(b: Blk)
    requires NoneLost(b) && Masked(b) && Shaped(b.c.v.q) && b.handler.Quiet? && !b.c.pc.ReadResult?
    ensures var b1 := b.(c := ClientStep(b.c, b.irq), irq := ClientIrq(b.c, b.irq)); NoneLost(b1) && Masked(b1)
  {
  }

  /** The call returns with the medium equal to what the calls so far say it is. */
  lemma StepReturn(b: Blk)
    requires BlkInv(b) && b.handler.Quiet? && b.c.pc.ReadResult?
    ensures BlkInv(Return(b))
  {
    hide Windows;
    QueueGives(b.c, b.handler);
  }

  lemma StepBegin(b: Blk, sector: nat, write: bool, data: Sector)
    requires BlkInv(b) && b.handler.Quiet? && b.c.pc.Idle?
    ensures BlkInv(Begin(b, sector, write, data))
  {
    hide Windows;
  }

  lemma StepTrap(b: Blk)
    requires BlkInv(b) && b.handler.Quiet? && b.irq.sie
    ensures BlkInv(b.(handler := GotStatus(b.irq.used, b.irq.cfg)))
  {
    hide Windows;
  }

  lemma StepWake(b: Blk)
    requires BlkInv(b) && b.handler.Quiet? && b.c.pc.WaitWfi?
    ensures BlkInv(b.(c := b.c.(pc := WaitOpen), irq := b.irq.(sie := true)))
  {
    hide VqInv;
  }

  /** Every step of caller, device or handler keeps the invariant. */
  lemma StepInv(b: Blk, e: Event)
    requires BlkInv(b)
    ensures Shaped(b.c.v.q) && BlkInv(Step(b, e)) && Shaped(Step(b, e).c.v.q)
  {
    hide QueueInv, DataInv, NoneLost, IrqStep, DeviceStep, ClientStep, ClientIrq, Return, Begin;
    QueueGives(b.c, b.handler);
    match e {
      case Trap =>
        if b.handler.Quiet? && b.irq.sie {
          StepTrap(b);
        }
      case HandlerStep => StepIrq(b);
      case StartCall(sector, write, data) =>
        if b.handler.Quiet? && b.c.pc.Idle? {
          StepBegin(b, sector, write, data);
        }
      case DriverStep =>
        if b.handler.Quiet? {
          if b.c.pc.ReadResult? {
            StepReturn(b);
          } else {
            QueueClient(b.c, b.irq);
            DataClient(b);
            RestClient(b);
          }
        }
      case Wake =>
        if b.handler.Quiet? && b.c.pc.WaitWfi? {
          StepWake(b);
        }
      case _ => StepDevice(b, e);
    }
    QueueGives(Step(b, e).c, Step(b, e).handler);
  }

  // ---- boot and runs ----

  function BlkInit(base: int, disk: Disk, req: Request, sie: bool): Blk {
    Blk(Client(EmptyVq(), Idle, false, base, Call(0, false, [], 0, None), req), req, disk, disk, [],
        Irq(false, false, false, sie, false), Quiet)
  }

  lemma InitInv(base: int, disk: Disk, req: Request, sie: bool)
    ensures BlkInv(BlkInit(base, disk, req, sie))
  {
  }

  function Run(b: Blk, es: seq<Event>): Blk
    requires BlkInv(b)
    decreases |es|
  {
    if es == [] then b
    else
      StepInv(b, es[0]);
      Run(Step(b, es[0]), es[1..])
  }

  /** In every interleaving. */
  lemma {:induction false} RunInv(b: Blk, es: seq<Event>)
    requires BlkInv(b)
    ensures BlkInv(Run(b, es))
    decreases |es|
  {
    hide Step, BlkInv;
    if es != [] {
      StepInv(b, es[0]);
      RunInv(Step(b, es[0]), es[1..]);
    }
  }

  // ---- what the invariant means ----

  /** Each call is atomic: when it returns, the medium is the disk before the call with this one
      request applied; a successful read gave the sector's contents before the call. */
  lemma CallAtomic(b: Blk)
    requires BlkInv(b) && Shaped(b.c.v.q) && b.handler.Quiet? && b.c.pc.ReadResult?
    ensures var b1 := Step(b, DriverStep);
            && b1.c.pc.Idle? && b1.disk == b1.model == Effect(b.model, b.c.issued, b.req.status)
            && |b1.calls| == |b.calls| + 1
            && var call := b1.calls[|b.calls|];
            && Asks(b.c.issued, call) && call.status == b.req.status
            && (call.status == 0 && !call.write ==> call.result == Some(b.model[call.sector]))
            && (call.status != 0 ==> b1.disk == b.model && call.result == None)
  {
    hide Windows;
    QueueGives(b.c, b.handler);
  }

  /** SIE is as it was before the wait: the wait saves it when it starts, nobody changes the saved value, SIE
      itself changes only inside the wait, and the wait ends by putting the saved value back. */
  lemma SieRestored(b: Blk, e: Event)
    requires BlkInv(b) && Shaped(b.c.v.q)
    ensures var b1 := Step(b, e);
            && (b.c.pc.Submitted? && b1.c.pc.WaitCheck? ==> b1.irq.saved == b.irq.sie && !b1.irq.sie)
            && (!b.c.pc.Submitted? ==> b1.irq.saved == b.irq.saved)
            && (b.c.pc.WaitRestore? && b1.c.pc.ReadResult? ==> b1.irq.sie == b.irq.saved)
            && (b1.irq.sie != b.irq.sie ==>
                  b.c.pc.Submitted? || b.c.pc.WaitWfi? || b.c.pc.WaitOpen? || b.c.pc.WaitRestore?)
  {
    hide QueueInv, DataInv, NoneLost, Effect, Answer, DeviceRequest, HasUsed, HasAvail;
  }

  // ---- the calls as a sequential history ----

  /** A disk that carries out one call after the other. */
  function Replay(disk: Disk, calls: seq<Call>): Disk {
    if calls == [] then disk else Applied(Replay(disk, calls[..|calls| - 1]), calls[|calls| - 1])
  }

  /** Every call gave what the sequential disk would have given at that point. */
  ghost predicate Sequential(disk: Disk, calls: seq<Call>) {
    forall i :: 0 <= i < |calls| ==> Follows(Replay(disk, calls[..i]), calls[i])
  }

  ghost predicate History(disk: Disk, b: Blk) {
    b.model == Replay(disk, b.calls) && Sequential(disk, b.calls)
  }

  /** What one call more must have given. */
  predicate Follows(before: Disk, call: Call) {
    && call.sector < |before|
    && call.result == if call.status == 0 && !call.write then Some(before[call.sector]) else None
  }

  /** What one call more leaves. */
  function Applied(before: Disk, call: Call): Disk {
    if call.status == 0 && call.write && call.sector < |before| then before[call.sector := call.data] else before
  }

  lemma HistorySnoc(disk: Disk, calls: seq<Call>, call: Call)
    requires Sequential(disk, calls) && Follows(Replay(disk, calls), call)
    ensures Sequential(disk, calls + [call]) && Replay(disk, calls + [call]) == Applied(Replay(disk, calls), call)
  {
    var all := calls + [call];
    assert all[..|calls|] == calls;
    assert forall i :: 0 <= i < |calls| ==> all[..i] == calls[..i] && all[i] == calls[i];
  }

  lemma ReturnHistory(disk: Disk, b: Blk)
    requires BlkInv(b) && b.handler.Quiet? && b.c.pc.ReadResult? && History(disk, b)
    ensures History(disk, Return(b))
  {
    hide Replay, Sequential, BlkInv, Follows, Applied;
    ReturnCall(b);
    HistorySnoc(disk, b.calls, Return(b).calls[|b.calls|]);
  }

  lemma ReturnCall(b: Blk)
    requires BlkInv(b) && b.handler.Quiet? && b.c.pc.ReadResult?
    ensures |Return(b).calls| == |b.calls| + 1 && Return(b).calls == b.calls + [Return(b).calls[|b.calls|]]
    ensures Follows(b.model, Return(b).calls[|b.calls|])
    ensures Return(b).model == Applied(b.model, Return(b).calls[|b.calls|])
  {
    hide VqInv;
    QueueGives(b.c, b.handler);
  }

  lemma StepHistory(disk: Disk, b: Blk, e: Event)
    requires BlkInv(b) && Shaped(b.c.v.q) && History(disk, b)
    ensures History(disk, Step(b, e))
  {
    hide BlkInv, Replay, Sequential, Effect, Answer, DeviceRequest, ClientStep, ClientIrq, HasUsed, HasAvail;
    if e.DriverStep? && b.handler.Quiet? && b.c.pc.ReadResult? {
      ReturnHistory(disk, b);
    }
  }

  lemma {:induction false} RunHistory(disk: Disk, b: Blk, es: seq<Event>)
    requires BlkInv(b) && History(disk, b)
    ensures History(disk, Run(b, es))
    decreases |es|
  {
    hide Step, BlkInv, History;
    if es != [] {
      StepInv(b, es[0]);
      StepHistory(disk, b, es[0]);
      RunHistory(disk, Step(b, es[0]), es[1..]);
    }
  }

  // ---- the calls are those the callers made ----

  /** What a caller asks for; the contents of the buffer matter only for a write. */
  datatype Ask = Ask(sector: nat, write: bool, data: Sector)

  function AskOf(sector: nat, write: bool, data: Sector): Ask {
    Ask(sector, write, if write then data else [])
  }

  /** A call begins: nobody else is in one, no handler runs, and the sector exists. */
  predicate Begins(b: Blk, e: Event) {
    e.StartCall? && b.handler.Quiet? && b.c.pc.Idle? && e.sector < |b.disk|
  }

  /** What the calls so far and the one under way were asked. */
  function Asked(b: Blk): seq<Ask> {
    seq(|b.calls|, i requires 0 <= i < |b.calls| => AskOf(b.calls[i].sector, b.calls[i].write, b.calls[i].data))
    + if b.c.pc.Idle? then [] else [AskOf(b.c.asked.sector, b.c.asked.write, b.c.asked.data)]
  }

  /** What the callers asked in the events of a run. */
  function Begun(b: Blk, es: seq<Event>): seq<Ask>
    requires BlkInv(b)
    decreases |es|
  {
    if es == [] then []
    else
      StepInv(b, es[0]);
      (if Begins(b, es[0]) then [AskOf(es[0].sector, es[0].write, es[0].data)] else [])
      + Begun(Step(b, es[0]), es[1..])
  }

  /** A call for a sector that exists starts when no other is under way; one for a sector past the end is
      refused and changes nothing. */
  lemma StartOrRefuse(b: Blk, sector: nat, write: bool, data: Sector)
    requires BlkInv(b) && Shaped(b.c.v.q) && b.handler.Quiet? && b.c.pc.Idle?
    ensures sector < |b.disk| ==> !Step(b, StartCall(sector, write, data)).c.pc.Idle?
    ensures sector >= |b.disk| ==> Step(b, StartCall(sector, write, data)) == b
  {
  }

  lemma StepAsked(b: Blk, e: Event)
    requires BlkInv(b) && Shaped(b.c.v.q)
    ensures Asked(Step(b, e)) == Asked(b) + if Begins(b, e) then [AskOf(e.sector, e.write, e.data)] else []
  {
    hide BlkInv, Effect, Answer, DeviceRequest, HasUsed, HasAvail, VDesc, VWrite, VPublish, VFetch, VPop, VComplete;
  }

  lemma {:induction false} RunAsked(b: Blk, es: seq<Event>)
    requires BlkInv(b)
    ensures Asked(Run(b, es)) == Asked(b) + Begun(b, es)
    decreases |es|
  {
    hide Step, BlkInv, Asked, Begins;
    if es != [] {
      StepInv(b, es[0]);
      StepAsked(b, es[0]);
      RunAsked(Step(b, es[0]), es[1..]);
    }
  }

  /** End to end, over any interleaving from boot on: the calls are those the callers made, in order; those
      that returned gave what a disk gives that carries out one call after the other; and whenever no call
      is under way the medium is that disk. */
  lemma CallsSequential(base: int, disk: Disk, req: Request, sie: bool, es: seq<Event>)
    ensures BlkInv(BlkInit(base, disk, req, sie))
    ensures var b := Run(BlkInit(base, disk, req, sie), es);
            && Asked(b) == Begun(BlkInit(base, disk, req, sie), es)
            && Sequential(disk, b.calls)
            && b.model == Replay(disk, b.calls)
            && (b.c.pc.Idle? ==> b.disk == Replay(disk, b.calls))
  {
    hide Run, QueueInv, NoneLost, Masked, Begun;
    InitInv(base, disk, req, sie);
    var b := BlkInit(base, disk, req, sie);
    assert Asked(b) == [];
    RunAsked(b, es);
    RunHistory(disk, b, es);
    RunInv(b, es);
  }

  /** While the device owns the request, nobody else rewrites the request buffer or any descriptor, and
      the chain it sees is exactly the issued request. */
  lemma RequestStable(b: Blk, e: Event)
    requires BlkInv(b) && Shaped(b.c.v.q) && |b.c.v.completed| < |b.c.v.pushed|
    ensures !e.DevComplete? ==> Step(b, e).req == b.req
    ensures Step(b, e).c.v.q.descs == b.c.v.q.descs
    ensures Oldest(b.c.v) == 0 && DeviceRequest(b.c.v.q.descs, 0, b.c.base, b.req) == Some(b.c.issued)
  {
    hide VqInv, DeviceRequest;
    QueueGives(b.c, b.handler);
    ChainDenotes(b.c, b.handler, b.req);
  }

  /** `virtq_is_busy` tells whether a request is outstanding, except between the two stores of
      `virtq_kick`, where it tells the opposite. */
  lemma BusyMeaning(b: Blk)
    requires BlkInv(b)
    ensures Busy(b.c.v.q) <==> ((b.c.v.popped < |b.c.v.pushed|) != b.c.pc.Published?)
  {
    hide VqInv;
    QueueGives(b.c, b.handler);
    BusyCounts(b.c.v, b.c.pc.Published?);
  }

  lemma WfiWakes(b: Blk)
    requires BlkInv(b) && b.c.pc.WaitWfi? && |b.c.v.completed| == |b.c.v.pushed| && !b.irq.owes
    ensures b.irq.used
  {
    hide VqInv;
  }

  /** At most one request is ever in flight; none when a call starts or its wait has returned. */
  lemma OneInFlight(b: Blk)
    requires BlkInv(b)
    ensures b.c.v.popped <= |b.c.v.pushed| <= b.c.v.popped + 1
    ensures b.c.pc.Idle? || b.c.pc.ReadResult? ==>
              |b.c.v.pushed| == b.c.v.popped && b.c.v.q.availIdx == b.c.v.q.consumed == b.c.v.q.submitted
  {
    hide Windows;
    QueueGives(b.c, b.handler);
  }
}
