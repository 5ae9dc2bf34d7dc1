/** The receive path from the device to the callers of `virtio_net_pop_rx_frame`: the protocol of the
    receive queue and the capture ring run together (kernel/virtio_net.c). */
module Receiving {
  import opened Machine
  import opened Virtqueue
  import opened NetProtocol
  import opened Checksum
  import opened Ipv4
  import CR = CaptureRing

  const ETH_HEADER := 14

  /** What the receive drain makes of the bytes of one buffer: too short for a frame, or a frame with
      its type. */
  function Captured(data: Bytes): Option<CR.Capture> {
    if |data| < HDR + ETH_HEADER then None
    else
      var frame := if |data| - HDR > MAX_FRAME then data[HDR..HDR + MAX_FRAME] else data[HDR..];
      var hi: int, lo: int := frame[12], frame[13];
      Some(CR.Capture(hi * 256 + lo, frame))
  }

  /** The frames among the buffers, in order. */
  function Frames(datas: seq<Bytes>): seq<CR.Capture> {
    if datas == [] then []
    else
      var last := Captured(datas[|datas| - 1]);
      Frames(datas[..|datas| - 1]) + if last.Some? then [last.value] else []
  }

  /** A buffer holds ten bytes of device header and a frame; what is shorter than both headers is no frame. */
  function FramesIn(datas: seq<Bytes>): seq<Bytes> {
    if datas == [] then []
    else
      var last := datas[|datas| - 1];
      FramesIn(datas[..|datas| - 1]) + if |last| >= 24 then [last[10..]] else []
  }

  /** The type field of a frame, in network byte order. */
  function TypeOf(frame: Bytes): int
    requires |frame| >= 14
  {
    Be16(frame[12], frame[13])
  }

  /** What the handler makes of a header and a frame behind it: that frame and its type. */
  lemma CapturedIs(header: Bytes, frame: Bytes)
    requires |header| == 10 && |frame| <= 1514
    ensures |frame| < 14 ==> Captured(header + frame) == None
    ensures |frame| >= 14 ==> Captured(header + frame) == Some(CR.Capture(TypeOf(frame), frame))
  {
    assert (header + frame)[10..] == frame;
  }

  /** What `virtio_net_send_ethernet` builds comes back from the other side whole and with its type. */
  lemma EthernetComesBack(header: Bytes, dst: Mac, ethertype: Half, payload: seq<Byte>)
    requires |header| == 10 && |payload| <= MAX_PACKET_SIZE
    ensures var frame := EthernetFrame(dst, ethertype, payload);
            Captured(header + frame) == Some(CR.Capture(ethertype, frame))
  {
    hide EthernetFrame;
    CapturedIs(header, EthernetFrame(dst, ethertype, payload));
  }

  lemma {:induction false} FramesAre(datas: seq<Bytes>)
    requires forall i :: 0 <= i < |datas| ==> |datas[i]| <= 1524
    ensures |Frames(datas)| == |FramesIn(datas)|
    ensures var fs := FramesIn(datas);
            forall i :: 0 <= i < |fs| ==> |fs[i]| >= 14 && Frames(datas)[i] == CR.Capture(TypeOf(fs[i]), fs[i])
  {
    hide Captured;
    if datas != [] {
      var n := |datas| - 1;
      var last := datas[n];
      FramesAre(datas[..n]);
      if |last| >= 10 {
        assert last[..10] + last[10..] == last;
        CapturedIs(last[..10], last[10..]);
      } else {
        TooShort(last);
      }
    }
  }

  lemma TooShort(data: Bytes)
    requires |data| < 24
    ensures Captured(data) == None
  {
  }

  /** The network machine, the ring, and what was offered to and taken from the ring. */
  datatype Path = Path(net: Net, ring: CR.Driver, ops: seq<CR.Op>)

  datatype PathEvent = OnNet(e: Event) | Pop(capacity: nat)

  function OnRing(p: Path, op: CR.Op): Path
    requires CR.Shaped(p.ring.ring)
  {
    p.(ring := CR.DriverStep(p.ring, op), ops := p.ops + [op])
  }

  /** The handler captures the frame it has in hand; a pop runs with interrupts off. */
  function PathStep(p: Path, ev: PathEvent): Path
    requires Formed(p.net) && CR.Shaped(p.ring.ring)
  {
    match ev
    case OnNet(e) =>
      var p1 := p.(net := Step(p.net, e));
      if e.HandlerStep? && p.net.handler.RxHand? then
        var c := Captured(Found(p.net.rx, p.net.handler.d, p.net.handler.len));
        if c.Some? then OnRing(p1, CR.Offer(c.value)) else p1
      else p1
    case Pop(capacity) => if p.net.handler.Quiet? then OnRing(p, CR.Take(capacity)) else p
  }

  ghost predicate PathInv(p: Path) {
    && NetInv(p.net)
    && p.ring == CR.DriverRun(p.ops)
    && CR.Offered(p.ops) == Frames(p.net.rx.taken)
  }

  lemma PathFormed(p: Path)
    requires PathInv(p)
    ensures Formed(p.net) && CR.Shaped(p.ring.ring)
  {
    hide RxInv, TxInv, NoneLost, Masked;
  }

  lemma RingStep(p: Path, op: CR.Op)
    requires p.ring == CR.DriverRun(p.ops)
    ensures CR.Shaped(p.ring.ring) && OnRing(p, op).ring == CR.DriverRun(OnRing(p, op).ops)
    ensures CR.Offered(OnRing(p, op).ops) == CR.Offered(p.ops) + if op.Offer? then [op.c] else []
  {
    hide CR.DriverStep;
    assert (p.ops + [op])[..|p.ops|] == p.ops;
  }

  /** Only the step that reads the buffer in hand passes anything on. */
  lemma TakenStep(n: Net, e: Event)
    requires Formed(n)
    ensures Step(n, e).rx.taken ==
            if e.HandlerStep? && n.handler.RxHand? then n.rx.taken + [Found(n.rx, n.handler.d, n.handler.len)]
            else n.rx.taken
  {
    hide SendTx, SendIrq, BeginSend, Transmitted, HasUsed, HasAvail, NextUsed, Found, BufAt, VComplete;
  }

  lemma FramesSnoc(datas: seq<Bytes>, data: Bytes)
    ensures Frames(datas + [data]) == Frames(datas) + if Captured(data).Some? then [Captured(data).value] else []
  {
    hide Captured;
    assert (datas + [data])[..|datas|] == datas;
  }

  lemma PathStepInv(p: Path, ev: PathEvent)
    requires PathInv(p)
    ensures Formed(p.net) && CR.Shaped(p.ring.ring) && PathInv(PathStep(p, ev))
  {
    hide NetInv, Formed, Step, CR.Shaped, CR.DriverRun, CR.Offered, Frames, Captured, Found, CR.DriverStep;
    PathFormed(p);
    match ev {
      case OnNet(e) =>
        StepInv(p.net, e);
        TakenStep(p.net, e);
        if e.HandlerStep? && p.net.handler.RxHand? {
          var data := Found(p.net.rx, p.net.handler.d, p.net.handler.len);
          FramesSnoc(p.net.rx.taken, data);
          if Captured(data).Some? {
            RingStep(p.(net := Step(p.net, e)), CR.Offer(Captured(data).value));
          }
        }
      case Pop(capacity) => RingStep(p, CR.Take(capacity));
    }
  }

  function PathInit(rxBase: int, txBase: int, sie: bool): Path {
    Path(NetInit(rxBase, txBase, sie), CR.Driver(CR.Empty(), []), [])
  }

  lemma PathInitInv(rxBase: int, txBase: int, sie: bool)
    ensures PathInv(PathInit(rxBase, txBase, sie))
  {
    hide NetInv, Enqueued;
    InitInv(rxBase, txBase, sie);
  }

  function PathRun(p: Path, evs: seq<PathEvent>): Path
    requires PathInv(p)
    decreases |evs|
  {
    if evs == [] then p
    else
      PathStepInv(p, evs[0]);
      PathRun(PathStep(p, evs[0]), evs[1..])
  }

  lemma {:induction false} PathRunInv(p: Path, evs: seq<PathEvent>)
    requires PathInv(p)
    ensures PathInv(PathRun(p, evs))
    decreases |evs|
  {
    hide PathInv, PathStep;
    if evs != [] {
      PathStepInv(p, evs[0]);
      PathRunInv(PathStep(p, evs[0]), evs[1..]);
    }
  }

  /** The capacities that callers passed in the events of a run. */
  function Pops(p: Path, evs: seq<PathEvent>): seq<nat>
    requires PathInv(p)
    decreases |evs|
  {
    if evs == [] then []
    else
      PathStepInv(p, evs[0]);
      (if evs[0].Pop? && p.net.handler.Quiet? then [evs[0].capacity] else []) + Pops(PathStep(p, evs[0]), evs[1..])
  }

  lemma TakesStep(p: Path, ev: PathEvent)
    requires PathInv(p) && Formed(p.net) && CR.Shaped(p.ring.ring)
    ensures CR.Takes(PathStep(p, ev).ops) ==
            CR.Takes(p.ops) + if ev.Pop? && p.net.handler.Quiet? then [ev.capacity] else []
  {
    hide PathInv, Step, Captured, Found, CR.DriverStep;
    forall op: CR.Op ensures (p.ops + [op])[..|p.ops|] == p.ops {
    }
  }

  lemma {:induction false} RunTakes(p: Path, evs: seq<PathEvent>)
    requires PathInv(p)
    ensures CR.Takes(PathRun(p, evs).ops) == CR.Takes(p.ops) + Pops(p, evs)
    decreases |evs|
  {
    hide PathInv, PathStep, CR.Takes;
    if evs != [] {
      PathStepInv(p, evs[0]);
      TakesStep(p, evs[0]);
      RunTakes(PathStep(p, evs[0]), evs[1..]);
    }
  }

  /** The frames in the buffers that the device wrote and the handler has passed on. */
  function Arrived(p: Path): seq<Bytes>
    requires |p.net.rx.taken| <= |p.net.rx.written|
  {
    FramesIn(p.net.rx.written[..|p.net.rx.taken|])
  }

  /** End to end, in every interleaving of device, handler, sender and callers from boot on: the frames
      offered to the ring are those the device wrote behind its ten-byte header, in the order it completed
      them, each with the type it carries; callers have been given, in that order, those that found a place
      in the ring, each cut to the capacity its caller passed; and as long as nothing was dropped the `i`-th
      frame given is the `i`-th frame that came in. */
  lemma FramesReachCallers(rxBase: int, txBase: int, sie: bool, evs: seq<PathEvent>)
    ensures PathInv(PathInit(rxBase, txBase, sie))
    ensures var p := PathRun(PathInit(rxBase, txBase, sie), evs);
            var f := CR.FifoRun(CR.NOTHING, p.ops);
            && |p.net.rx.taken| <= |p.net.rx.written|
            && |CR.Offered(p.ops)| == |Arrived(p)|
            && (forall i :: 0 <= i < |Arrived(p)| ==>
                  |Arrived(p)[i]| >= 14 && CR.Offered(p.ops)[i] == CR.Capture(TypeOf(Arrived(p)[i]), Arrived(p)[i]))
            && CR.Takes(p.ops) == Pops(PathInit(rxBase, txBase, sie), evs)
            && |p.ring.given| == |f.caps| <= |CR.Accepted(p.ops)|
            && (forall i :: 0 <= i < |f.caps| ==> CR.IsCut(p.ring.given[i], CR.Accepted(p.ops)[i], f.caps[i]))
            && (f.dropped == 0 ==> CR.Accepted(p.ops) == CR.Offered(p.ops))
  {
    hide PathRun, NetInv, CR.FifoRun, CR.Accepted, CR.Offered, CR.Takes, Frames, FramesIn, CR.IsCut, CR.DriverRun,
         PathInit, CR.Contents, Pops;
    PathInitInv(rxBase, txBase, sie);
    var p0 := PathInit(rxBase, txBase, sie);
    PathRunInv(p0, evs);
    var p := PathRun(p0, evs);
    TakenPrefix(p.net);
    WrittenFits(p.net);
    FramesAre(p.net.rx.written[..|p.net.rx.taken|]);
    CR.RunRefines(p.ops);
    CR.GivenInOrder(p.ops);
    NoTakes(rxBase, txBase, sie);
    RunTakes(p0, evs);
  }

  lemma NoTakes(rxBase: int, txBase: int, sie: bool)
    ensures CR.Takes(PathInit(rxBase, txBase, sie).ops) == []
  {
  }

  lemma TakenPrefix(n: Net)
    requires NetInv(n)
    ensures |n.rx.taken| <= |n.rx.written| && n.rx.taken == n.rx.written[..|n.rx.taken|]
  {
    hide TxInv, PlacesInv, Found, NoneLost, Masked;
  }

  lemma WrittenFits(n: Net)
    requires NetInv(n)
    ensures forall i :: 0 <= i < |n.rx.written| ==> |n.rx.written[i]| <= 1524
  {
    hide TxInv, PlacesInv, Found, NoneLost, Masked;
  }
}
