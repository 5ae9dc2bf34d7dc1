/** The network driver gets somewhere: a handler that has seen the used-buffer status empties both queues, and
    a send returns once the device has transmitted (kernel/virtio_net.c, kernel/interrupt.c). */
module NetProgress {
  import opened Virtqueue
  import opened NetProtocol

  lemma RunCons(n: Net, e: Event, es: seq<Event>)
    requires NetInv(n)
    ensures Formed(n) && NetInv(Step(n, e)) && Run(n, [e] + es) == Run(Step(n, e), es)
  {
    hide RxInv, TxInv, NoneLost, Masked, Step;
    StepInv(n, e);
    assert ([e] + es)[1..] == es;
  }

  lemma RunNone(n: Net)
    requires NetInv(n)
    ensures Run(n, []) == n
  {
  }

  lemma {:induction false} RunAppend(n: Net, es: seq<Event>, fs: seq<Event>)
    requires NetInv(n)
    ensures NetInv(Run(n, es)) && Run(n, es + fs) == Run(Run(n, es), fs)
    decreases |es|
  {
    hide NetInv, Step, Formed;
    if es == [] {
      RunNone(n);
      assert es + fs == fs;
    } else {
      RunCons(n, es[0], []);
      RunAppend(Step(n, es[0]), es[1..], fs);
      assert es == [es[0]] + es[1..] && es + fs == [es[0]] + (es[1..] + fs);
      RunCons(n, es[0], es[1..]);
      RunCons(n, es[0], es[1..] + fs);
    }
  }

  // ---- the handler ----

  /** What a step of the receive drain leaves alone. */
  ghost predicate OnlyReceive(n: Net, n1: Net) {
    && n1.tx == n.tx && n1.irq == n.irq
    && n1.rx.v.completed == n.rx.v.completed && n1.rx.written == n.rx.written && n1.rx.held == n.rx.held
  }

  lemma RxMoves(n: Net)
    requires NetInv(n) && Formed(n)
    requires Hand(n.handler) != {} || (n.handler.RxTop? && n.rx.v.popped < |n.rx.v.completed|)
    ensures var n1 := Step(n, HandlerStep);
            && OnlyReceive(n, n1)
            && n1.rx.v.popped == n.rx.v.popped + (if n.handler.RxTop? then 1 else 0)
            && match n.handler
               case RxTop => n1.handler.RxHand?
               case RxHand(d, len) => n1.handler.RxRead?
               case RxRead(d) => n1.handler.RxLinked?
               case RxLinked(d) => n1.handler.RxWritten?
               case RxWritten(d) => n1.handler.RxTop?
               case _ => true
  {
    hide RxInv, TxInv, NoneLost, Masked, Found, VqInv;
    Queues(n);
    PopOk(n.rx.v);
  }

  /** How many steps the receive drain still has. */
  ghost function RxLeft(n: Net): int {
    (|n.rx.v.completed| - n.rx.v.popped) * 5
    + (if n.handler.RxHand? then 4 else if n.handler.RxRead? then 3 else if n.handler.RxLinked? then 2
       else if n.handler.RxWritten? then 1 else 0)
  }

  /** The receive drain ends with everything taken that the device had completed. */
  lemma {:induction false} RxDrains(n: Net) returns (es: seq<Event>, n1: Net)
    requires NetInv(n) && RxWindow(n.handler)
    ensures n1 == Run(n, es) && NetInv(n1) && n1.handler.RxTop? && OnlyReceive(n, n1)
    ensures n1.rx.v.popped == |n1.rx.v.completed| && n1.rx.taken == n1.rx.written
    decreases RxLeft(n)
  {
    hide RxInv, TxInv, NoneLost, Masked, Step, Run;
    PoppedBelow(n);
    if n.handler.RxTop? && n.rx.v.popped == |n.rx.v.completed| {
      es, n1 := [], n;
      RunNone(n);
      AllTaken(n);
    } else {
      RunCons(n, HandlerStep, []);
      RxMoves(n);
      PoppedBelow(Step(n, HandlerStep));
      var rest;
      rest, n1 := RxDrains(Step(n, HandlerStep));
      es := [HandlerStep] + rest;
      RunCons(n, HandlerStep, rest);
    }
  }

  lemma PoppedBelow(n: Net)
    requires NetInv(n)
    ensures n.rx.v.popped <= |n.rx.v.completed| && n.tx.v.popped <= |n.tx.v.completed| <= n.tx.v.popped + 1
  {
    hide RxInv, FrameInv, NoneLost, Masked;
    Queues(n);
    TxQueueGives(n.tx);
  }

  lemma AllTaken(n: Net)
    requires NetInv(n) && n.handler.RxTop? && n.rx.v.popped == |n.rx.v.completed|
    ensures n.rx.taken == n.rx.written
  {
    hide PlacesInv, TxInv, NoneLost, Masked, Found;
  }

  /** Then the transmit queue is emptied, and the sender told if a frame had gone. */
  lemma TxDrains(n: Net) returns (es: seq<Event>, n1: Net)
    requires NetInv(n) && n.handler.RxTop? && n.rx.v.popped == |n.rx.v.completed|
    ensures n1 == Run(n, es) && NetInv(n1) && n1.handler.Quiet? && n1.rx == n.rx && n1.irq == n.irq
    ensures n1.tx.v.popped == |n1.tx.v.completed|
    ensures n1.tx == n.tx.(v := n1.tx.v, done := n.tx.done || n.tx.v.popped < |n.tx.v.completed|)
    ensures n1.tx.v.completed == n.tx.v.completed
  {
    hide NetInv, Run, Formed, Found;
    es := [HandlerStep];
    assert [HandlerStep] == [HandlerStep] + [];
    RunCons(n, HandlerStep, []);
    LeavesRx(n);
    var s := Step(n, HandlerStep);
    RunNone(s);
    if s.tx.v.popped < |s.tx.v.completed| {
      RunCons(s, HandlerStep, []);
      PopsTx(s);
      var s1 := Step(s, HandlerStep);
      RunNone(s1);
      RunAppend(n, [HandlerStep], [HandlerStep]);
      RunAppend(n, [HandlerStep] + [HandlerStep], [HandlerStep]);
      RunCons(s1, HandlerStep, []);
      LeavesTx(s1);
      n1 := Step(s1, HandlerStep);
      RunNone(n1);
      es := [HandlerStep] + [HandlerStep] + [HandlerStep];
    } else {
      PoppedBelow(s);
      RunAppend(n, [HandlerStep], [HandlerStep]);
      RunCons(s, HandlerStep, []);
      LeavesTx(s);
      n1 := Step(s, HandlerStep);
      RunNone(n1);
      es := [HandlerStep] + [HandlerStep];
    }
  }

  lemma LeavesRx(n: Net)
    requires NetInv(n) && Formed(n) && n.handler.RxTop? && n.rx.v.popped == |n.rx.v.completed|
    ensures Step(n, HandlerStep) == n.(handler := TxTop)
  {
    hide RxInv, TxInv, NoneLost, Masked, VqInv;
    Queues(n);
    PopOk(n.rx.v);
  }

  lemma PopsTx(n: Net)
    requires NetInv(n) && Formed(n) && n.handler.TxTop? && n.tx.v.popped < |n.tx.v.completed|
    ensures Step(n, HandlerStep) == n.(tx := n.tx.(v := VPop(n.tx.v), done := true))
    ensures n.tx.v.popped + 1 == |n.tx.v.completed|
  {
    hide RxInv, TxInv, NoneLost, Masked, VqInv;
    Queues(n);
    PopOk(n.tx.v);
    PoppedBelow(n);
  }

  lemma LeavesTx(n: Net)
    requires NetInv(n) && Formed(n) && n.handler.TxTop? && n.tx.v.popped == |n.tx.v.completed|
    ensures Step(n, HandlerStep) == n.(handler := Quiet)
  {
    hide RxInv, TxInv, NoneLost, Masked, VqInv;
    Queues(n);
    PopOk(n.tx.v);
  }

  /** A handler that has read a used-buffer status acknowledges it, passes on everything the device wrote, tells
      the sender if a frame had gone, and ends. */
  lemma HandlerDrains(n: Net) returns (es: seq<Event>, n1: Net)
    requires NetInv(n) && n.handler.GotStatus? && n.handler.used
    ensures n1 == Run(n, es) && NetInv(n1) && n1.handler.Quiet? && !n1.irq.used
    ensures n1.rx.written == n.rx.written && n1.rx.taken == n.rx.written && n1.rx.held == n.rx.held
    ensures n1.tx == n.tx.(v := n1.tx.v, done := n.tx.done || n.tx.v.popped < |n.tx.v.completed|)
    ensures n1.irq.sie == n.irq.sie && n1.irq.saved == n.irq.saved && n1.irq.owes == n.irq.owes
  {
    hide NetInv, Run, Formed;
    RunCons(n, HandlerStep, []);
    Acknowledges(n);
    var s := Step(n, HandlerStep);
    var e1, s1 := RxDrains(s);
    var e2;
    e2, n1 := TxDrains(s1);
    es := [HandlerStep] + (e1 + e2);
    RunCons(n, HandlerStep, e1 + e2);
    RunAppend(s, e1, e2);
  }

  lemma Acknowledges(n: Net)
    requires NetInv(n) && Formed(n) && n.handler.GotStatus? && n.handler.used
    ensures var s := Step(n, HandlerStep);
            && s == n.(irq := s.irq, handler := RxTop) && !s.irq.used
            && s.irq.cfg == (n.irq.cfg && !n.handler.cfg)
            && s.irq.sie == n.irq.sie && s.irq.saved == n.irq.saved && s.irq.owes == n.irq.owes
  {
    hide NetInv;
  }

  // ---- a send ----

  function Left(pc: TxPc): nat {
    match pc
    case TxFilled => 5
    case TxReady => 4
    case TxRingWritten => 3
    case TxPublished => 2
    case TxSubmitted => 1
    case _ => 0
  }

  /** Nothing but the sender and its queue has moved, and nothing was completed. */
  ghost predicate OnlySender(n: Net, n1: Net) {
    && n1.rx == n.rx && n1.handler == n.handler && n1.tx.frame == n.tx.frame && n1.tx.sent == n.tx.sent
    && n1.tx.v.popped == n.tx.v.popped && n1.tx.v.completed == n.tx.v.completed && n1.tx.v.fetched == n.tx.v.fetched
  }

  lemma OneStepOn(n: Net)
    requires NetInv(n) && n.handler.Quiet? && 0 < Left(n.tx.pc) && (Left(n.tx.pc) <= 2 ==> !n.tx.done)
    ensures var n1 := Step(n, DriverStep);
            && Left(n1.tx.pc) == Left(n.tx.pc) - 1 && OnlySender(n, n1)
            && (Left(n1.tx.pc) <= 2 ==> !n1.tx.done) && (Left(n1.tx.pc) == 0 ==> n1.tx.pc.WaitCheck?)
  {
    hide VqInv, RxInv, FrameInv, NoneLost, Masked;
  }

  lemma {:induction false} ToWait(n: Net) returns (es: seq<Event>, n1: Net)
    requires NetInv(n) && n.handler.Quiet? && (0 < Left(n.tx.pc) || n.tx.pc.WaitCheck?)
    requires Left(n.tx.pc) <= 2 ==> !n.tx.done
    ensures n1 == Run(n, es) && NetInv(n1) && OnlySender(n, n1) && n1.tx.pc.WaitCheck? && !n1.tx.done
    decreases Left(n.tx.pc)
  {
    hide NetInv, Step, Run, Formed;
    if n.tx.pc.WaitCheck? {
      es, n1 := [], n;
      RunNone(n);
    } else {
      RunCons(n, DriverStep, []);
      OneStepOn(n);
      var rest;
      rest, n1 := ToWait(Step(n, DriverStep));
      es := [DriverStep] + rest;
      RunCons(n, DriverStep, rest);
    }
  }

  /** The device fetches the frame, transmits it, and raises its interrupt. */
  lemma DeviceTransmits(n: Net) returns (n1: Net)
    requires NetInv(n) && n.tx.pc.WaitCheck? && !n.tx.done && n.handler.Quiet?
    requires n.tx.v.fetched == n.tx.v.popped == |n.tx.v.completed|
    ensures n1 == Run(n, [DevFetchTx, DevCompleteTx, DevRaise]) && NetInv(n1)
    ensures n1.tx == n.tx.(v := n1.tx.v, sent := n.tx.sent + [n.tx.frame])
    ensures n1.handler == n.handler && n1.irq.used && n1.tx.v.popped < |n1.tx.v.completed|
  {
    hide NetInv, Run;
    assert [DevFetchTx, DevCompleteTx, DevRaise] == [DevFetchTx] + ([DevCompleteTx] + ([DevRaise] + []));
    RunCons(n, DevFetchTx, [DevCompleteTx] + ([DevRaise] + []));
    FetchDue(n);
    var s1 := Step(n, DevFetchTx);
    RunCons(s1, DevCompleteTx, [DevRaise] + []);
    TransmitDue(s1);
    var s2 := Step(s1, DevCompleteTx);
    RunCons(s2, DevRaise, []);
    n1 := Step(s2, DevRaise);
    RunNone(n1);
  }

  lemma FetchDue(n: Net)
    requires NetInv(n) && n.tx.pc.WaitCheck? && !n.tx.done && n.tx.v.fetched == n.tx.v.popped
    ensures Step(n, DevFetchTx) == n.(tx := n.tx.(v := VFetch(n.tx.v)))
  {
    hide VqInv, RxInv, FrameInv, NoneLost, Masked;
    FetchOk(n.tx.v);
  }

  lemma TransmitDue(n: Net)
    requires NetInv(n) && |n.tx.v.completed| < n.tx.v.fetched
    ensures var n1 := Step(n, DevCompleteTx);
            && n1.tx == n.tx.(v := n1.tx.v, sent := n.tx.sent + [n.tx.frame])
            && n1 == n.(tx := n1.tx, irq := n.irq.(owes := true))
            && n1.tx.v.popped == n.tx.v.popped && |n1.tx.v.completed| == |n.tx.v.completed| + 1
  {
    hide VqInv, RxInv, NoneLost, Masked, DeviceFrame, FrameInv;
    TxQueueGives(n.tx);
    FrameDenotes(n.tx);
  }

  /** One step of the wait. */
  function WaitNext(t: Link): TxPc {
    match t.pc
    case WaitCheck => if t.done then WaitRestore else WaitWfi
    case WaitWfi => WaitOpen
    case WaitOpen => WaitCheck
    case WaitRestore => TxIdle
    case pc => pc
  }

  lemma WaitStep(n: Net)
    requires NetInv(n) && n.handler.Quiet?
    requires n.tx.pc.WaitCheck? || (n.tx.pc.WaitWfi? && n.irq.used) || n.tx.pc.WaitOpen? || n.tx.pc.WaitRestore?
    ensures var n1 := Step(n, DriverStep);
            && n1 == n.(tx := n.tx.(pc := WaitNext(n.tx)), irq := n1.irq)
            && n1.irq.used == n.irq.used && (n.tx.pc.WaitWfi? ==> n1.irq.sie)
  {
    hide RxInv, TxInv, NoneLost, Masked;
  }

  lemma WaitWakes(n: Net) returns (n1: Net)
    requires NetInv(n) && n.tx.pc.WaitCheck? && !n.tx.done && n.handler.Quiet? && n.irq.used
    ensures n1 == Run(n, [DriverStep, DriverStep, Trap]) && NetInv(n1)
    ensures n1 == n.(tx := n.tx.(pc := WaitOpen), irq := n1.irq, handler := n1.handler)
    ensures n1.handler.GotStatus? && n1.handler.used
  {
    hide NetInv, Run, Step, Formed;
    assert [DriverStep, DriverStep, Trap] == [DriverStep] + ([DriverStep] + ([Trap] + []));
    RunCons(n, DriverStep, [DriverStep] + ([Trap] + []));
    WaitStep(n);
    var s1 := Step(n, DriverStep);
    RunCons(s1, DriverStep, [Trap] + []);
    WaitStep(s1);
    var s2 := Step(s1, DriverStep);
    RunCons(s2, Trap, []);
    TrapTaken(s2);
    n1 := Step(s2, Trap);
    RunNone(n1);
  }

  lemma TrapTaken(n: Net)
    requires Formed(n) && n.handler.Quiet? && n.irq.sie
    ensures Step(n, Trap) == n.(handler := GotStatus(n.irq.used, n.irq.cfg))
  {
  }

  lemma SenderReturns(n: Net) returns (n1: Net)
    requires NetInv(n) && n.tx.pc.WaitOpen? && n.tx.done && n.handler.Quiet?
    ensures n1 == Run(n, [DriverStep, DriverStep, DriverStep]) && NetInv(n1)
    ensures n1.tx.pc.TxIdle? && n1.handler.Quiet? && n1.tx.sent == n.tx.sent
  {
    hide NetInv, Run, Step, Formed;
    assert [DriverStep, DriverStep, DriverStep] == [DriverStep] + ([DriverStep] + ([DriverStep] + []));
    RunCons(n, DriverStep, [DriverStep] + ([DriverStep] + []));
    WaitStep(n);
    var s1 := Step(n, DriverStep);
    RunCons(s1, DriverStep, [DriverStep] + []);
    WaitStep(s1);
    var s2 := Step(s1, DriverStep);
    RunCons(s2, DriverStep, []);
    WaitStep(s2);
    n1 := Step(s2, DriverStep);
    RunNone(n1);
  }

  /** From every state of every run in which no send is under way, a frame of a legal length can be sent: there
      is a way on after which the send has returned and the device has transmitted exactly that frame more. */
  lemma SendCompletes(n: Net, frame: Bytes) returns (es: seq<Event>, n1: Net)
    requires NetInv(n) && n.handler.Quiet? && n.tx.pc.TxIdle? && 60 <= |frame| <= 1514
    ensures n1 == Run(n, [Send(frame)] + es) && NetInv(n1)
    ensures n1.tx.pc.TxIdle? && n1.tx.sent == n.tx.sent + [frame]
  {
    hide NetInv, Step, Run, Formed;
    RunCons(n, Send(frame), []);
    var s0 := Step(n, Send(frame));
    SendStarts(n, frame);
    var e1, s1 := ToWait(s0);
    var s2 := DeviceTransmits(s1);
    var s3 := WaitWakes(s2);
    var e4, s4 := HandlerDrains(s3);
    n1 := SenderReturns(s4);
    var e2: seq<Event> := [DevFetchTx, DevCompleteTx, DevRaise];
    var e3: seq<Event> := [DriverStep, DriverStep, Trap];
    var e5: seq<Event> := [DriverStep, DriverStep, DriverStep];
    es := e1 + (e2 + (e3 + (e4 + e5)));
    RunCons(n, Send(frame), es);
    RunAppend(s0, e1, e2 + (e3 + (e4 + e5)));
    RunAppend(s1, e2, e3 + (e4 + e5));
    RunAppend(s2, e3, e4 + e5);
    RunAppend(s3, e4, e5);
  }

  lemma SendStarts(n: Net, frame: Bytes)
    requires NetInv(n) && n.handler.Quiet? && n.tx.pc.TxIdle? && 60 <= |frame| <= 1514
    ensures var s := Step(n, Send(frame));
            && s.tx.pc.TxFilled? && s.handler.Quiet? && s.tx.frame == frame && s.tx.sent == n.tx.sent
            && s.tx.v.fetched == s.tx.v.popped == |s.tx.v.completed|
  {
    hide VqInv, RxInv, FrameInv, NoneLost, Masked, TxBuffer;
    TxQueueGives(n.tx);
  }

  // ---- a receive ----

  /** What the device writes into a buffer it holds reaches the handler: once the interrupt is raised and taken,
      everything written so far has been passed on, these bytes last. */
  lemma ReceiveCompletes(n: Net, d: int, data: Bytes) returns (es: seq<Event>, n1: Net)
    requires NetInv(n) && n.handler.Quiet? && n.irq.sie && d in n.rx.held && |data| <= 1524
    ensures n1 == Run(n, [DevCompleteRx(d, data)] + es) && NetInv(n1) && n1.handler.Quiet?
    ensures n1.rx.taken == n1.rx.written == n.rx.written + [data]
  {
    hide NetInv, Step, Run, Formed;
    RunCons(n, DevCompleteRx(d, data), []);
    Delivered(n, d, data);
    var s0 := Step(n, DevCompleteRx(d, data));
    RunCons(s0, DevRaise, []);
    Raised(s0);
    var s1 := Step(s0, DevRaise);
    RunCons(s1, Trap, []);
    TrapTaken(s1);
    var s2 := Step(s1, Trap);
    var e2;
    e2, n1 := HandlerDrains(s2);
    es := [DevRaise] + ([Trap] + e2);
    RunCons(n, DevCompleteRx(d, data), es);
    RunCons(s0, DevRaise, [Trap] + e2);
    RunCons(s1, Trap, e2);
  }

  lemma Delivered(n: Net, d: int, data: Bytes)
    requires NetInv(n) && d in n.rx.held && |data| <= 1524
    ensures var s := Step(n, DevCompleteRx(d, data));
            s.rx.written == n.rx.written + [data] && s.irq == n.irq.(owes := true) && s.handler == n.handler
  {
    hide PlacesInv, TxInv, NoneLost, Masked, Deliver, MemoryInv;
    HeldApart(n.rx, n.handler, d);
    DeliverIs(n.rx, n.handler, d, data);
  }

  lemma Raised(n: Net)
    requires Formed(n) && n.irq.owes
    ensures Step(n, DevRaise) == n.(irq := n.irq.(used := true, owes := false))
  {
  }
}
