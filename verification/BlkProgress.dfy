/** Calls of `read_write_disk` can always be brought to an end: if the device answers and the interrupt is
    taken, the caller returns with that answer (kernel/virtio_blk.c, kernel/interrupt.c). */
module BlkProgress {
  import opened Machine
  import opened Virtqueue
  import opened BlkProtocol

  lemma RunCons(b: Blk, e: Event, es: seq<Event>)
    requires BlkInv(b)
    ensures Shaped(b.c.v.q) && BlkInv(Step(b, e)) && Run(b, [e] + es) == Run(Step(b, e), es)
  {
    hide BlkInv, Step;
    StepInv(b, e);
    assert ([e] + es)[1..] == es;
  }

  /** Nothing but the position of the caller and its queue has moved, and nothing was completed. */
  ghost predicate OnlyCaller(b: Blk, b1: Blk) {
    && b1.req == b.req && b1.disk == b.disk && b1.calls == b.calls && b1.handler == b.handler
    && b1.c.asked == b.c.asked
    && b1.c.v.popped == b.c.v.popped && b1.c.v.completed == b.c.v.completed && b1.c.v.fetched == b.c.v.fetched
  }

  /** Steps from the filled-in request to the first look at `blk_done`. */
  function Left(pc: Pc): nat {
    match pc
    case Filled => 7
    case Linked1 => 6
    case Linked2 => 5
    case Prepared => 4
    case RingWritten => 3
    case Published => 2
    case Submitted => 1
    case _ => 0
  }

  lemma OneStepOn(b: Blk)
    requires BlkInv(b) && Shaped(b.c.v.q) && b.handler.Quiet? && 0 < Left(b.c.pc)
    requires b.c.pc.Published? || b.c.pc.Submitted? ==> !b.c.done
    ensures var b1 := Step(b, DriverStep);
            && Left(b1.c.pc) == Left(b.c.pc) - 1 && OnlyCaller(b, b1)
            && (Left(b1.c.pc) <= 2 ==> !b1.c.done) && (Left(b1.c.pc) == 0 ==> b1.c.pc.WaitCheck?)
  {
    hide VqInv, DataInv, NoneLost, Masked;
  }

  lemma {:induction false} ToWait(b: Blk) returns (es: seq<Event>, b1: Blk)
    requires BlkInv(b) && b.handler.Quiet? && (0 < Left(b.c.pc) || b.c.pc.WaitCheck?)
    requires Left(b.c.pc) <= 2 ==> !b.c.done
    ensures b1 == Run(b, es) && BlkInv(b1) && OnlyCaller(b, b1) && b1.c.pc.WaitCheck? && !b1.c.done
    decreases Left(b.c.pc)
  {
    hide BlkInv, Step;
    if b.c.pc.WaitCheck? {
      es, b1 := [], b;
    } else {
      RunCons(b, DriverStep, []);
      OneStepOn(b);
      var rest;
      rest, b1 := ToWait(Step(b, DriverStep));
      es := [DriverStep] + rest;
      RunCons(b, DriverStep, rest);
    }
  }

  /** The device takes the request, carries it out, and raises its interrupt. */
  lemma DeviceAnswers(b: Blk, status: int) returns (b1: Blk)
    requires BlkInv(b) && b.c.pc.WaitCheck? && !b.c.done && b.handler.Quiet?
    requires b.c.v.fetched == b.c.v.popped == |b.c.v.completed|
    ensures b1 == Run(b, [DevFetch, DevComplete(status), DevRaise]) && BlkInv(b1)
    ensures b1.c.pc == b.c.pc && b1.c.done == b.c.done && b1.handler == b.handler && b1.calls == b.calls
    ensures b1.c.asked == b.c.asked && b1.irq.used && b1.req.status == status
    ensures b1.c.v.popped == b.c.v.popped && |b1.c.v.completed| == b1.c.v.popped + 1
  {
    hide VqInv, DataInv, NoneLost, Masked, DeviceRequest, Effect;
    assert [DevFetch, DevComplete(status), DevRaise] == [DevFetch] + ([DevComplete(status)] + ([DevRaise] + []));
    RunCons(b, DevFetch, [DevComplete(status)] + ([DevRaise] + []));
    FetchOk(b.c.v);
    var b2 := Step(b, DevFetch);
    RunCons(b2, DevComplete(status), [DevRaise] + []);
    AnswerDue(b2);
    var b3 := Step(b2, DevComplete(status));
    RunCons(b3, DevRaise, []);
    b1 := Step(b3, DevRaise);
  }

  lemma AnswerDue(b: Blk)
    requires BlkInv(b) && |b.c.v.completed| < b.c.v.fetched
    ensures Shaped(b.c.v.q) && Oldest(b.c.v) == 0 && DeviceRequest(b.c.v.q.descs, 0, b.c.base, b.req) == Some(b.req)
  {
    hide VqInv, DeviceRequest;
    QueueGives(b.c, b.handler);
    QueueComplete(b.c, b.handler);
    ChainDenotes(b.c, b.handler, b.req);
  }

  /** One step of the wait. */
  function WaitNext(b: Blk): Pc {
    match b.c.pc
    case WaitCheck => if b.c.done then WaitRestore else WaitWfi
    case WaitWfi => WaitOpen
    case WaitOpen => WaitCheck
    case WaitRestore => ReadResult
    case pc => pc
  }

  lemma WaitStep(b: Blk)
    requires BlkInv(b) && Shaped(b.c.v.q) && b.handler.Quiet?
    requires b.c.pc.WaitCheck? || (b.c.pc.WaitWfi? && b.irq.used) || b.c.pc.WaitOpen? || b.c.pc.WaitRestore?
    ensures var b1 := Step(b, DriverStep);
            && b1 == b.(c := b.c.(pc := WaitNext(b)), irq := b1.irq)
            && b1.irq.used == b.irq.used && (b.c.pc.WaitWfi? ==> b1.irq.sie)
  {
    hide BlkInv;
  }

  /** The wait wakes up and the trap reads the status. */
  lemma WaitWakes(b: Blk) returns (b1: Blk)
    requires BlkInv(b) && b.c.pc.WaitCheck? && !b.c.done && b.handler.Quiet? && b.irq.used
    ensures b1 == Run(b, [DriverStep, DriverStep, Trap]) && BlkInv(b1)
    ensures b1 == b.(c := b.c.(pc := WaitOpen), irq := b1.irq, handler := b1.handler)
    ensures b1.handler.GotStatus? && b1.handler.used
  {
    hide BlkInv, Run;
    assert [DriverStep, DriverStep, Trap] == [DriverStep] + ([DriverStep] + ([Trap] + []));
    RunCons(b, DriverStep, [DriverStep] + ([Trap] + []));
    var s1 := Step(b, DriverStep);
    WaitStep(b);
    RunCons(s1, DriverStep, [Trap] + []);
    var s2 := Step(s1, DriverStep);
    WaitStep(s1);
    RunCons(s2, Trap, []);
    b1 := Step(s2, Trap);
    RunNone(b1);
  }

  lemma RunNone(b: Blk)
    requires BlkInv(b)
    ensures Run(b, []) == b
  {
  }

  /** A handler that has read a used-buffer status acknowledges it, takes every completion, and tells the
      caller if there was one. */
  lemma HandlerDrains(b: Blk) returns (b1: Blk)
    requires BlkInv(b) && b.handler.GotStatus? && b.handler.used && |b.c.v.completed| == b.c.v.popped + 1
    ensures b1 == Run(b, [HandlerStep, HandlerStep, HandlerStep]) && BlkInv(b1)
    ensures b1.handler.Quiet? && b1.c.done && b1.c.v.popped == |b1.c.v.completed| && !b1.irq.used
    ensures b1 == b.(c := b.c.(v := b1.c.v, done := true), irq := b1.irq, handler := Quiet)
  {
    hide BlkInv, Run;
    assert [HandlerStep, HandlerStep, HandlerStep] == [HandlerStep] + ([HandlerStep] + ([HandlerStep] + []));
    RunCons(b, HandlerStep, [HandlerStep] + ([HandlerStep] + []));
    var s1 := Step(b, HandlerStep);
    RunCons(s1, HandlerStep, [HandlerStep] + []);
    QueueOf(s1);
    PopOk(s1.c.v);
    var s2 := Step(s1, HandlerStep);
    RunCons(s2, HandlerStep, []);
    QueueOf(s2);
    PopOk(s2.c.v);
    b1 := Step(s2, HandlerStep);
    RunNone(b1);
  }

  lemma QueueOf(b: Blk)
    requires BlkInv(b)
    ensures VqInv(b.c.v)
  {
  }

  /** The caller sees `blk_done`, restores SIE, reads the result and returns. */
  lemma CallerReturns(b: Blk) returns (b1: Blk)
    requires BlkInv(b) && b.c.pc.WaitOpen? && b.c.done && b.handler.Quiet?
    ensures b1 == Run(b, [DriverStep, DriverStep, DriverStep, DriverStep]) && BlkInv(b1)
    ensures b1.c.pc.Idle? && b1.handler.Quiet?
    ensures |b1.calls| == |b.calls| + 1 && b1.calls[..|b.calls|] == b.calls
    ensures var call := b1.calls[|b.calls|];
            call == b.c.asked.(status := b.req.status, result := call.result)
  {
    hide BlkInv, Run, Step;
    var e4: seq<Event> := [DriverStep] + [];
    var e3 := [DriverStep] + e4;
    var e2 := [DriverStep] + e3;
    assert [DriverStep, DriverStep, DriverStep, DriverStep] == [DriverStep] + e2;
    RunCons(b, DriverStep, e2);
    WaitStep(b);
    var s1 := Step(b, DriverStep);
    RunCons(s1, DriverStep, e3);
    WaitStep(s1);
    var s2 := Step(s1, DriverStep);
    RunCons(s2, DriverStep, e4);
    WaitStep(s2);
    var s3 := Step(s2, DriverStep);
    RunCons(s3, DriverStep, []);
    LastStep(s3);
    b1 := Step(s3, DriverStep);
    RunNone(b1);
  }

  lemma LastStep(b: Blk)
    requires Shaped(b.c.v.q) && b.handler.Quiet? && b.c.pc.ReadResult?
    ensures var b1 := Step(b, DriverStep);
            && b1.c.pc.Idle? && b1.handler.Quiet? && |b1.calls| == |b.calls| + 1 && b1.calls[..|b.calls|] == b.calls
            && var call := b1.calls[|b.calls|];
            call == b.c.asked.(status := b.req.status, result := call.result)
  {
    hide Effect;
  }

  lemma {:induction false} RunAppend(b: Blk, es: seq<Event>, fs: seq<Event>)
    requires BlkInv(b)
    ensures BlkInv(Run(b, es)) && Run(b, es + fs) == Run(Run(b, es), fs)
    decreases |es|
  {
    hide BlkInv, Step;
    if es == [] {
      assert es + fs == fs;
    } else {
      RunCons(b, es[0], []);
      RunAppend(Step(b, es[0]), es[1..], fs);
      assert es == [es[0]] + es[1..] && es + fs == [es[0]] + (es[1..] + fs);
      RunCons(b, es[0], es[1..] + fs);
    }
  }

  /** In every state reached from boot, whatever a caller asks and whatever status the device gives, there is a
      way on in which the call returns: with that status, with the sector's contents if it was a successful
      read, and with the medium written if it was a successful write. */
  lemma CallCompletes(disk: Disk, b: Blk, sector: nat, write: bool, data: Sector, status: int)
      returns (es: seq<Event>, b1: Blk)
    requires BlkInv(b) && History(disk, b) && b.handler.Quiet? && b.c.pc.Idle? && sector < |b.disk|
    ensures b1 == Run(b, [StartCall(sector, write, data)] + es) && BlkInv(b1) && b1.c.pc.Idle?
    ensures b1.calls == b.calls + [Call(sector, write, data, status,
                                        if status == 0 && !write then Some(b.disk[sector]) else None)]
    ensures b1.disk == if status == 0 && write then b.disk[sector := data] else b.disk
  {
    hide BlkInv, Step, Run, History;
    RunCons(b, StartCall(sector, write, data), []);
    var s0 := Step(b, StartCall(sector, write, data));
    CallStarts(b, sector, write, data);
    var e1, s1 := ToWait(s0);
    AllQuiet(b, s0, s1);
    var s2 := DeviceAnswers(s1, status);
    var s3 := WaitWakes(s2);
    var s4 := HandlerDrains(s3);
    b1 := CallerReturns(s4);
    var e2: seq<Event> := [DevFetch, DevComplete(status), DevRaise];
    var e3: seq<Event> := [DriverStep, DriverStep, Trap];
    var e4: seq<Event> := [HandlerStep, HandlerStep, HandlerStep];
    var e5: seq<Event> := [DriverStep, DriverStep, DriverStep, DriverStep];
    es := e1 + (e2 + (e3 + (e4 + e5)));
    RunCons(b, StartCall(sector, write, data), es);
    RunAppend(s0, e1, e2 + (e3 + (e4 + e5)));
    RunAppend(s1, e2, e3 + (e4 + e5));
    RunAppend(s2, e3, e4 + e5);
    RunAppend(s3, e4, e5);
    Returned(disk, b, b1, [StartCall(sector, write, data)] + es);
  }

  lemma CallStarts(b: Blk, sector: nat, write: bool, data: Sector)
    requires BlkInv(b) && Shaped(b.c.v.q) && b.handler.Quiet? && b.c.pc.Idle? && sector < |b.disk|
    ensures var s := Step(b, StartCall(sector, write, data));
            && s.c.pc.Filled? && s.handler.Quiet? && s.calls == b.calls
            && s.c.asked == Call(sector, write, data, 0, None)
            && s.c.v == b.c.v
  {
  }

  lemma AllQuiet(b: Blk, s0: Blk, s1: Blk)
    requires BlkInv(b) && b.c.pc.Idle? && s0.c.v == b.c.v && OnlyCaller(s0, s1)
    ensures s1.c.v.fetched == s1.c.v.popped == |s1.c.v.completed|
  {
    hide VqInv;
    QueueGives(b.c, b.handler);
  }

  /** What one call more means for the medium, read off the history. */
  lemma Returned(disk: Disk, b: Blk, b1: Blk, es: seq<Event>)
    requires BlkInv(b) && History(disk, b) && b.c.pc.Idle? && b1 == Run(b, es) && BlkInv(b1) && b1.c.pc.Idle?
    requires |b1.calls| == |b.calls| + 1 && b1.calls[..|b.calls|] == b.calls
    ensures Follows(b.disk, b1.calls[|b.calls|]) && b1.disk == Applied(b.disk, b1.calls[|b.calls|])
  {
    hide Run, QueueInv, NoneLost, Masked, Follows, Applied;
    RunHistory(disk, b, es);
  }
}
