/**
 * The interrupt server and the event handler as the code runs them, from first to last access. With no chip activity
 * in between, each is the run of the transition system's steps.
 */
module InterruptHandlers {
  import opened InterruptProtocol
  import Bus = BusExclusion
  import opened BusEffects

  /** The server from its first read to its signal, undisturbed. */
  function ServerRun(s: State): (s': State)
    ensures s'.server.Idle?
    decreases match s.server
              case Idle => 0
              case AtReadIer(_) => 6
              case AtMaskAll(_, _) => 5
              case AtAckTx(_, _) => 4
              case AtAckLinkUp(_, _) => 3
              case AtRestore(_, _) => 2
              case AtSignal(_) => 1
  {
    if s.server.Idle? then s else ServerRun(ServerNext(s))
  }

  /** The handler from any point until the task waits again, undisturbed. */
  function HandlerRun(s: State, phy: Reg): (s': State)
    ensures s'.task.Waiting?
    decreases Position(s)
  {
    if s.task.Waiting? then s else HandlerRun(TaskNext(s, phy), phy)
  }

  class Ksz8851 {
    var isr: Reg
    var ier: Reg
    var rxq: seq<Frame>
    var delivered: seq<Frame>
    var signal: bool
    var signalCounter: nat
    var intDisabledCounter: nat
    var rxOverrun: nat
    var bigEndian: bool
    /** The accesses made so far, in the terms of the bus. */
    ghost var trace: seq<Bus.Op>

    /** The machine state these registers stand for when the two agents are at the given points. */
    ghost function Machine(server: Server, task: Task): (s: State)
      reads `isr, `ier, `rxq, `delivered, `signal
    {
      State(isr, ier, rxq, signal, server, task, delivered, {})
    }

    method IrqHandler() returns (signaled: bool)
      requires ier <= HANDLED
      modifies this`isr, this`ier, this`trace
      ensures trace == old(trace) + Bus.ServerOps(signaled, TX in old(isr), LD in old(isr), ier)
      ensures Carries(trace[|old(trace)|..], Causes(old(isr), old(ier)), Causes(isr, ier))
      ensures signaled <==> old(isr) * old(ier) != {}
      ensures !signaled ==> isr == old(isr) && ier == old(ier)
      ensures signaled ==> isr == old(isr) - {14, 3} && ier == old(ier) - old(isr)
      ensures isr * ier == {}
    {
      hide Bus.ReadReg, Bus.WriteRegOps, Bus.SetBit, Bus.ServerOps, Carries;
      ServerCarried(isr, ier);
      signaled := false;
      ghost var before := trace;
      var seen := isr;
      var saved := ier;
      trace := trace + Bus.ReadReg(Bus.ISR) + Bus.ReadReg(Bus.IER);
      ServerTrace(before, TX in seen, LD in seen, saved - seen);
      if seen * saved == {} {
        IdleServerTrace(before, TX in seen, LD in seen, ier);
        Suffix(before, Bus.ServerOps(false, TX in seen, LD in seen, ier));
        return false;
      }
      ghost var x :| x in seen * saved;
      assert x in {LC, TX, RX, RXO, LD};
      ier := {};
      trace := trace + Bus.WriteRegOps(Bus.IER, {});
      if LC in seen {
        saved := saved - {LC};
        signaled := true;
      }
      if TX in seen {
        isr := isr - {TX};
        trace := trace + Bus.WriteRegOps(Bus.ISR, {TX});
        saved := saved - {TX};
        signaled := true;
      }
      if RX in seen {
        saved := saved - {RX};
        signaled := true;
      }
      if RXO in seen {
        saved := saved - {RXO};
        signaled := true;
      }
      if LD in seen {
        isr := isr - {LD};
        trace := trace + Bus.SetBit(Bus.PMECR, {LD});
        saved := saved - {LD};
        signaled := true;
      }
      assert saved == old(ier) - seen && isr == seen - {TX, LD};
      ier := saved;
      trace := trace + Bus.WriteRegOps(Bus.IER, saved);
      Suffix(before, Bus.ServerOps(true, TX in seen, LD in seen, ier));
    }

    /** The interrupt server: nonzero means the interrupt was ours. */
    method Isr() returns (ours: bool)
      requires ier <= HANDLED
      modifies this`isr, this`ier, this`signal, this`signalCounter, this`trace
      ensures intDisabledCounter != 0 ==> !ours && Machine(Idle, Waiting) == old(Machine(Idle, Waiting))
      ensures intDisabledCounter == 0 ==> Machine(Idle, Waiting) == ServerRun(old(Machine(AtReadIer(isr), Waiting)))
      ensures signalCounter == old(signalCounter) + (if ours then 1 else 0)
    {
      if intDisabledCounter != 0 {
        return false;
      }
      ServerRunResult(Machine(AtReadIer(isr), Waiting));
      ours := IrqHandler();
      if ours {
        signal := true;
        signalCounter := signalCounter + 1;
      }
    }

    /** One frame from the head of the queue; the handler's frame counter is the caller's. */
    method ReceivePacket()
      requires rxq != []
      modifies this`rxq, this`delivered, this`trace
      ensures trace == old(trace) + Bus.ReceiveOps(OnTheBus(bigEndian, old(rxq)[0]))
      ensures KeepsMode(trace[|old(trace)|..], bigEndian)
      ensures Deliverable(old(rxq)[0]) ==> SetsMode(trace[|old(trace)|..], bigEndian)
      ensures var f := old(rxq)[0];
              && rxq == (if 15 in f.status || f.status * {0, 1, 2, 4, 10, 11, 12, 13} != {} then old(rxq)[1..] else old(rxq))
              && delivered == old(delivered) + (if 15 in f.status && 0 < f.length <= 1522 then [f] else [])
    {
      var frame := rxq[0];
      trace := trace + Bus.ReceiveOps(OnTheBus(bigEndian, frame));
      Suffix(old(trace), Bus.ReceiveOps(OnTheBus(bigEndian, frame)));
      ReceptionMode(bigEndian, frame);
      if FRAME_VALID !in frame.status {
        if frame.status * FRAME_ERRORS != {} {
          rxq := rxq[1..];
        }
        return;
      }
      rxq := rxq[1..];
      if 0 < frame.length <= MAX_LENGTH {
        delivered := delivered + [frame];
      }
    }

    /** One turn of the receive loop, after the turns given. */
    method TakeTurn(left: nat, ghost before: seq<Bus.Op>, ghost turns: seq<Bus.Reception>, ghost status: Reg,
                    ghost mask: Reg, ghost phy: Reg)
      returns (ghost turns': seq<Bus.Reception>)
      requires 0 < left <= |rxq| && trace == before + Bus.ReceiveAllOps(turns)
      requires KeepsMode(Bus.ReceiveAllOps(turns), bigEndian)
      modifies this`rxq, this`delivered, this`trace
      ensures left - 1 <= |rxq| && |turns'| == |turns| + 1
      ensures trace == before + Bus.ReceiveAllOps(turns') && KeepsMode(Bus.ReceiveAllOps(turns'), bigEndian)
      ensures HandlerRun(old(Machine(Idle, AtFrame(status, mask, left))), phy)
              == HandlerRun(Machine(Idle, AtFrame(status, mask, left - 1)), phy)
    {
      ghost var s := Machine(Idle, AtFrame(status, mask, left));
      ghost var one := OnTheBus(bigEndian, rxq[0]);
      turns' := turns + [one];
      TurnTrace(before, turns, one);
      TurnMode(turns, bigEndian, rxq[0]);
      hide KeepsMode, SetsMode, HandlerRun, Bus.ReceiveAllOps, Bus.ReceiveOps, OnTheBus;
      ReceivePacket();
      FrameRun(s, Machine(Idle, AtFrame(status, mask, left - 1)), phy);
    }

    /** The handler's receive loop: as many turns as the chip's 8-bit frame counter says. */
    method ReceivePending(ghost status: Reg, ghost mask: Reg, ghost phy: Reg)
      returns (ghost turns: seq<Bus.Reception>)
      requires |rxq| <= MAX_FRAMES
      modifies this`rxq, this`delivered, this`trace
      ensures |turns| == |old(rxq)| && trace == old(trace) + Bus.ReceiveAllOps(turns)
      ensures KeepsMode(Bus.ReceiveAllOps(turns), bigEndian)
      ensures HandlerRun(Machine(Idle, AtOverrunRead(status, mask + {RX})), phy)
              == HandlerRun(old(Machine(Idle, AtFrame(status, mask, |rxq|))), phy)
    {
      ghost var start := Machine(Idle, AtFrame(status, mask, |rxq|));
      var frameCount := |rxq| % 256;
      turns := [];
      assert frameCount == |rxq|;
      hide KeepsMode, HandlerRun, Bus.ReceiveAllOps, Machine;
      NoTurns(bigEndian);
      while frameCount > 0
        invariant 0 <= frameCount <= |rxq|
        invariant |turns| + frameCount == |old(rxq)| && trace == old(trace) + Bus.ReceiveAllOps(turns)
        invariant KeepsMode(Bus.ReceiveAllOps(turns), bigEndian)
        invariant HandlerRun(start, phy) == HandlerRun(Machine(Idle, AtFrame(status, mask, frameCount)), phy)
      {
        turns := TakeTurn(frameCount, old(trace), turns, status, mask, phy);
        frameCount := frameCount - 1;
      }
      LoopEnds(status, mask, phy);
    }

    lemma LoopEnds(status: Reg, mask: Reg, phy: Reg)
      ensures HandlerRun(Machine(Idle, AtFrame(status, mask, 0)), phy)
              == HandlerRun(Machine(Idle, AtOverrunRead(status, mask + {RX})), phy)
    {
      NoFrameRun(Machine(Idle, AtFrame(status, mask, 0)), phy);
    }

    /** The handler's branches and its end. Each takes the run from the point before it to the point behind it. */
    method HandleLink(phy: Reg) returns (status: Reg, mask: Reg)
      modifies this`isr, this`trace
      ensures status == (if LC in old(isr) then phy else old(isr)) && mask == (if LC in old(isr) then {15} else {})
      ensures isr == if LC in old(isr) then old(isr) - {LC} else old(isr)
      ensures HandlerRun(old(Machine(Idle, AtReadIsr)), phy) == HandlerRun(Machine(Idle, AtAckRx(status, mask)), phy)
      ensures trace == if LC in old(isr) then old(trace) + (Bus.WriteRegOps(Bus.ISR, {LC}) + Bus.ReadReg(Bus.P1SR))
                       else old(trace)
    {
      StartRun(Machine(Idle, AtReadIsr), phy);
      mask := {};
      status := isr;
      if LC in status {
        isr := isr - {LC};
        trace := trace + (Bus.WriteRegOps(Bus.ISR, {LC}) + Bus.ReadReg(Bus.P1SR));
        status := phy;
        mask := {LC};
      }
    }

    method HandleReceive(status: Reg, mask: Reg, phy: Reg) returns (mask': Reg, ghost turns: seq<Bus.Reception>)
      requires |rxq| <= MAX_FRAMES
      modifies this`isr, this`rxq, this`delivered, this`trace
      ensures HandlerRun(old(Machine(Idle, AtAckRx(status, mask))), phy)
              == HandlerRun(Machine(Idle, AtOverrunRead(status, mask')), phy)
      ensures isr == if RX in status then old(isr) - {RX} else old(isr)
      ensures mask' == mask + status * {13}
      ensures |turns| == (if RX in status then |old(rxq)| else 0) && KeepsMode(Bus.ReceiveAllOps(turns), bigEndian)
      ensures trace == if RX in status then old(trace) + (Bus.WriteRegOps(Bus.ISR, {RX}) + Bus.ReadReg(Bus.RXFCTR))
                                            + Bus.ReceiveAllOps(turns)
                       else old(trace)
    {
      NoTurns(bigEndian);
      hide HandlerRun, Bus.ReadReg, Bus.WriteRegOps, Bus.ReceiveAllOps, KeepsMode;
      CountRun(Machine(Idle, AtAckRx(status, mask)), phy);
      mask' := mask;
      turns := [];
      if RX in status {
        isr := isr - {RX};
        trace := trace + (Bus.WriteRegOps(Bus.ISR, {RX}) + Bus.ReadReg(Bus.RXFCTR));
        turns := ReceivePending(status, mask, phy);
        mask' := mask + {RX};
      }
    }

    method HandleOverrun(status: Reg, mask: Reg, phy: Reg) returns (mask': Reg)
      modifies this`isr, this`rxOverrun, this`trace
      ensures HandlerRun(old(Machine(Idle, AtOverrunRead(status, mask))), phy)
              == HandlerRun(Machine(Idle, AtIerRead(mask')), phy)
      ensures mask' == mask + status * {14, 11, 3}
      ensures isr == if RXO in status then {} else old(isr)
      ensures rxOverrun == old(rxOverrun) + if RXO in status then 1 else 0
      ensures trace == if RXO in status then old(trace) + Bus.SetBit(Bus.ISR, {RXO}) else old(trace)
    {
      OverrunRun(Machine(Idle, AtOverrunRead(status, mask)), phy);
      hide HandlerRun;
      mask' := mask;
      if RXO in status {
        rxOverrun := rxOverrun + 1;
        var value := isr;
        isr := isr - (value + {RXO});
        trace := trace + Bus.SetBit(Bus.ISR, {RXO});
        mask' := mask + {RXO};
      }
      mask' := LateMask(status, mask');
      assert mask' == mask + status * {14, 11, 3};
    }

    method HandleEnd(mask: Reg, phy: Reg)
      modifies this`ier, this`trace
      ensures Machine(Idle, Waiting) == HandlerRun(old(Machine(Idle, AtIerRead(mask))), phy)
      ensures ier == old(ier) + mask && trace == old(trace) + Bus.SetBit(Bus.IER, mask) + [Bus.Enable]
    {
      FinalRun(Machine(Idle, AtIerRead(mask)), phy);
      hide HandlerRun;
      var value := ier;
      ier := value + mask;
      trace := trace + Bus.SetBit(Bus.IER, mask) + [Bus.Enable];
    }

    /** The whole handler; turns are the receive loop's, enabled the sources set in IER at its end. */
    method EventHandler(phy: Reg) returns (ghost turns: seq<Bus.Reception>, ghost enabled: Reg)
      requires |rxq| <= MAX_FRAMES
      modifies this
      ensures Machine(Idle, Waiting) == HandlerRun(old(Machine(Idle, AtReadIsr)), phy)
      ensures signal == old(signal) && signalCounter == old(signalCounter)
      ensures intDisabledCounter == old(intDisabledCounter)
      ensures var status := if LC in old(isr) then phy else old(isr);
              && trace == old(trace) + Bus.HandlerOps(LC in old(isr), RX in status, turns, RXO in status, enabled)
              && |turns| == (if RX in status then |old(rxq)| else 0)
              && enabled == (if 15 in old(isr) then {15} else {}) + status * {14, 13, 11, 3} && ier == old(ier) + enabled
              && rxOverrun == old(rxOverrun) + (if RXO in status then 1 else 0)
      ensures KeepsMode(trace[|old(trace)|..], bigEndian) && bigEndian == old(bigEndian)
      ensures Carries(trace[|old(trace)|..], Causes(old(isr), old(ier)), Causes(isr, ier))
    {
      hide Bus.ReadReg, Bus.WriteRegOps, Bus.SetBit, Bus.HandlerOps, Bus.ReceiveAllOps, HandlerRun, KeepsMode, Carries, Machine;
      trace := trace + [Bus.Disable] + Bus.ReadReg(Bus.ISR);
      var status, mask := HandleLink(phy);
      mask, turns := HandleReceive(status, mask, phy);
      ghost var first := if LC in old(isr) then {15} else {};
      mask := HandleOverrun(status, mask, phy);
      MasksJoin(first, status);
      HandleEnd(mask, phy);
      enabled := mask;
      HandlerTrace(old(trace), LC in old(isr), RX in status, turns, RXO in status, mask);
      HandlerTells(old(trace), Causes(old(isr), old(ier)), status, turns, mask, bigEndian);
    }
  }

  /** Where the transition system starts: a calm chip whose causes are all masked, after the driver went online. */
  lemma OnlineIsStart(c: Bus.Chip, acc: Reg)
    requires CalmChip(c) && Bus.RegOf(c, Bus.IER) == {}
    ensures Holds(Performed(c, acc, Bus.OnlineOps()).0, Causes(ONLINE.isr, ONLINE.ier))
  {
    OnlineEffect(c, acc);
    assert Bus.RegOf(c, Bus.IER) + {15, 13, 11} == SOURCES;
  }

  /** Taken offline and online again it is there from any chip that is calm, whatever was pending or enabled. */
  lemma BackAtStart(c: Bus.Chip)
    requires CalmChip(c)
    ensures Holds(Performed(c, {}, Bus.OfflineOps() + Bus.OnlineOps()).0, Causes(ONLINE.isr, ONLINE.ier))
  {
    OfflineEffect(c);
    var (c', acc) := Performed(c, {}, Bus.OfflineOps());
    OnlineIsStart(c', acc);
    hide Performed, Bus.OnlineOps, Bus.OfflineOps;
    PerformedConcat(c, {}, Bus.OfflineOps(), Bus.OnlineOps());
  }

  // ---- The accesses as bus operations ----

  lemma HandlerTells(before: seq<Bus.Op>, s: Causes, status: Reg, turns: seq<Bus.Reception>, mask: Reg, big: bool)
    requires KeepsMode(Bus.ReceiveAllOps(turns), big)
    ensures var ops := Bus.HandlerOps(LC in s.isr, RX in status, turns, RXO in status, mask);
            var linked := if LC in s.isr then s.isr - {LC} else s.isr;
            var received := if RX in status then linked - {RX} else linked;
            && KeepsMode((before + ops)[|before|..], big)
            && Carries((before + ops)[|before|..], s, Causes(if RXO in status then {} else received, s.ier + mask))
  {
    var linked := if LC in s.isr then s.isr - {LC} else s.isr;
    var received := if RX in status then linked - {RX} else linked;
    assert Acknowledged(s.isr, LC in s.isr, RX in status, RXO in status) == if RXO in status then {} else received;
    hide *;
    Suffix(before, Bus.HandlerOps(LC in s.isr, RX in status, turns, RXO in status, mask));
    HandlerKeepsMode(LC in s.isr, RX in status, turns, RXO in status, mask, big);
    HandlerCarries(s, LC in s.isr, RX in status, turns, RXO in status, mask);
  }

  lemma NoTurns(big: bool)
    ensures Bus.ReceiveAllOps([]) == [] && KeepsMode(Bus.ReceiveAllOps([]), big)
  {
    BlocksKeepMode(Bus.ISR, {}, big);
  }

  lemma MasksJoin(first: Reg, status: Reg)
    ensures first + status * {13} + status * {14, 11, 3} == first + status * {14, 13, 11, 3}
  {
  }

  lemma Suffix(before: seq<Bus.Op>, ops: seq<Bus.Op>)
    ensures (before + ops)[|before|..] == ops
  {
  }

  lemma ServerCarried(isr: Reg, ier: Reg)
    ensures var claims := isr * ier != {};
            Carries(Bus.ServerOps(claims, TX in isr, LD in isr, ier - isr), Causes(isr, ier),
                    if claims then Causes(isr - {TX, LD}, ier - isr) else Causes(isr, ier))
    ensures Carries(Bus.ServerOps(false, TX in isr, LD in isr, ier), Causes(isr, ier), Causes(isr, ier))
  {
    ServerCarries(Causes(isr, ier), isr * ier != {}, TX in isr, LD in isr, ier - isr);
    ServerCarries(Causes(isr, ier), false, TX in isr, LD in isr, ier);
    assert isr - (if TX in isr then {14} else {}) - (if LD in isr then {3} else {}) == isr - {TX, LD};
  }

  /** Every reception keeps the chip in the driver's endian mode, and a good one puts it there. */
  lemma ReceptionMode(big: bool, frame: Frame)
    ensures KeepsMode(Bus.ReceiveOps(OnTheBus(big, frame)), big)
    ensures Deliverable(frame) ==> SetsMode(Bus.ReceiveOps(OnTheBus(big, frame)), big)
  {
    if Deliverable(frame) {
      GoodSetsMode(FramePointer(big), (frame.length + 3) / 4 * 2, big);
    } else {
      OtherReceptionsKeepMode(OnTheBus(big, frame), big);
    }
  }

  lemma {:induction false} TurnMode(turns: seq<Bus.Reception>, big: bool, frame: Frame)
    requires KeepsMode(Bus.ReceiveAllOps(turns), big)
    ensures KeepsMode(Bus.ReceiveAllOps(turns + [OnTheBus(big, frame)]), big)
  {
    var one := Bus.ReceiveOps(OnTheBus(big, frame));
    ReceptionMode(big, frame);
    hide KeepsMode;
    KeepsModeConcat(Bus.ReceiveAllOps(turns), one, big);
    TurnTrace([], turns, OnTheBus(big, frame));
    assert [] + Bus.ReceiveAllOps(turns) == Bus.ReceiveAllOps(turns);
    assert [] + Bus.ReceiveAllOps(turns + [OnTheBus(big, frame)]) == Bus.ReceiveAllOps(turns + [OnTheBus(big, frame)]);
  }

  lemma ServerTrace(before: seq<Bus.Op>, tx: bool, linkUp: bool, ier: Reg)
    ensures var masked := before + Bus.ReadReg(Bus.ISR) + Bus.ReadReg(Bus.IER) + Bus.WriteRegOps(Bus.IER, {});
            var acked := if tx then masked + Bus.WriteRegOps(Bus.ISR, {TX}) else masked;
            var woken := if linkUp then acked + Bus.SetBit(Bus.PMECR, {LD}) else acked;
            woken + Bus.WriteRegOps(Bus.IER, ier) == before + Bus.ServerOps(true, tx, linkUp, ier)
  {
    var a, b, c := Bus.ReadReg(Bus.ISR), Bus.ReadReg(Bus.IER), Bus.WriteRegOps(Bus.IER, {});
    var d: seq<Bus.Op> := if tx then Bus.WriteRegOps(Bus.ISR, {TX}) else [];
    var e: seq<Bus.Op> := if linkUp then Bus.SetBit(Bus.PMECR, {LD}) else [];
    assert Bus.ServerOps(true, tx, linkUp, ier) == a + (b + (c + (d + (e + Bus.WriteRegOps(Bus.IER, ier)))));
    Assoc(before, a, b, c, d, e, Bus.WriteRegOps(Bus.IER, ier));
  }

  lemma IdleServerTrace(before: seq<Bus.Op>, tx: bool, linkUp: bool, ier: Reg)
    ensures before + Bus.ReadReg(Bus.ISR) + Bus.ReadReg(Bus.IER) == before + Bus.ServerOps(false, tx, linkUp, ier)
  {
    Assoc(before, Bus.ReadReg(Bus.ISR), Bus.ReadReg(Bus.IER), [], [], [], []);
  }

  /** Address zero with auto increment, and the endian mode, which this register cannot be read back for. */
  function FramePointer(big: bool): (v: Reg) {
    if big then {14, 11} else {14}
  }

  /** The way through ksz8851ReceivePacket that a queued frame takes. */
  function OnTheBus(big: bool, frame: Frame): (r: Bus.Reception) {
    if FRAME_VALID !in frame.status then if frame.status * FRAME_ERRORS != {} then Bus.Released else Bus.Ignored
    else if 0 < frame.length <= MAX_LENGTH then Bus.Good(FramePointer(big), (frame.length + 3) / 4 * 2)
    else Bus.Oversized
  }

  lemma {:induction false} TurnTrace(before: seq<Bus.Op>, turns: seq<Bus.Reception>, r: Bus.Reception)
    ensures before + Bus.ReceiveAllOps(turns) + Bus.ReceiveOps(r) == before + Bus.ReceiveAllOps(turns + [r])
    decreases |turns|
  {
    hide Bus.ReceiveOps;
    if turns == [] {
      assert [r][1..] == [] && Bus.ReceiveAllOps([r]) == Bus.ReceiveOps(r) + Bus.ReceiveAllOps([]);
      assert before + [] == before && Bus.ReceiveOps(r) + [] == Bus.ReceiveOps(r);
    } else {
      var first, rest := Bus.ReceiveOps(turns[0]), turns[1..];
      assert (turns + [r])[1..] == rest + [r];
      TurnTrace(before + first, rest, r);
      AssocThree(before, first, Bus.ReceiveAllOps(rest));
      AssocThree(before, first, Bus.ReceiveAllOps(rest + [r]));
    }
  }

  lemma AssocThree(a: seq<Bus.Op>, b: seq<Bus.Op>, c: seq<Bus.Op>)
    ensures a + b + c == a + (b + c) && a + [] == a
  {
  }

  lemma HandlerTrace(before: seq<Bus.Op>, link: bool, rx: bool, turns: seq<Bus.Reception>, overrun: bool, mask: Reg)
    ensures var start := before + [Bus.Disable] + Bus.ReadReg(Bus.ISR);
            var linked := if link then start + (Bus.WriteRegOps(Bus.ISR, {LC}) + Bus.ReadReg(Bus.P1SR)) else start;
            var counted := linked + (Bus.WriteRegOps(Bus.ISR, {RX}) + Bus.ReadReg(Bus.RXFCTR));
            var received := if rx then counted + Bus.ReceiveAllOps(turns) else linked;
            var overran := if overrun then received + Bus.SetBit(Bus.ISR, {RXO}) else received;
            overran + Bus.SetBit(Bus.IER, mask) + [Bus.Enable] == before + Bus.HandlerOps(link, rx, turns, overrun, mask)
  {
    var a, g := Bus.ReadReg(Bus.ISR), Bus.SetBit(Bus.IER, mask) + [Bus.Enable];
    var c: seq<Bus.Op> := if link then Bus.WriteRegOps(Bus.ISR, {LC}) + Bus.ReadReg(Bus.P1SR) else [];
    var ack, count, all := Bus.WriteRegOps(Bus.ISR, {RX}), Bus.ReadReg(Bus.RXFCTR), Bus.ReceiveAllOps(turns);
    var d: seq<Bus.Op> := if rx then ack + (count + all) else [];
    var e: seq<Bus.Op> := if overrun then Bus.SetBit(Bus.ISR, {RXO}) else [];
    assert Bus.HandlerOps(link, rx, turns, overrun, mask) == [Bus.Disable] + (a + (c + (d + (e + g))));
    hide *;
    var start := before + [Bus.Disable] + a;
    var linked, received := start + c, start + c + d;
    AssocThree(start, c, []);
    AssocThree(ack, count, all);
    AssocThree(linked, ack + count, all);
    AssocThree(received, e, []);
    AssocThree(received + e, Bus.SetBit(Bus.IER, mask), [Bus.Enable]);
    Assoc(before, [Bus.Disable], a, c, d, e, g);
  }

  lemma Assoc(a: seq<Bus.Op>, b: seq<Bus.Op>, c: seq<Bus.Op>, d: seq<Bus.Op>, e: seq<Bus.Op>, f: seq<Bus.Op>,
              g: seq<Bus.Op>)
    ensures a + b + c + d + e + f + g == a + (b + (c + (d + (e + (f + g)))))
    ensures a + [] == a
  {
  }

  lemma ServerRunResult(s: State)
    requires s.server.AtReadIer? && s.server.seen == s.isr && s.ier <= HANDLED
    ensures var claimed := s.isr * s.ier != {};
            ServerRun(s) == s.(isr := if claimed then s.isr - {TX, LD} else s.isr,
                               ier := if claimed then s.ier - s.isr else s.ier,
                               signal := s.signal || claimed, server := Idle)
  {
    var seen, saved := s.isr, s.ier;
    var s1 := ServerNext(s);
    if seen * saved != {} {
      var x :| x in seen * saved;
      assert x in seen * HANDLED;
      assert saved - seen * HANDLED == saved - seen;
      var s2 := ServerNext(s1);
      var s3 := ServerNext(s2);
      var s4 := ServerNext(s3);
      assert s4 == s.(isr := s.isr - {TX, LD}, ier := {}, server := AtRestore(seen, saved));
      var s5 := ServerNext(s4);
      assert s5 == s4.(ier := saved - seen, server := AtSignal(true));
      assert ServerRun(s4) == ServerRun(s5) == ServerNext(s5);
      assert ServerRun(s) == ServerRun(s1) == ServerRun(s2) == ServerRun(s3) == ServerRun(s4);
    } else {
      assert ServerRun(s) == ServerRun(s1) == s1;
    }
  }

  // The handler's run, one stretch of its code at a time.

  lemma StartRun(s: State, phy: Reg)
    requires s.task == AtReadIsr
    ensures HandlerRun(s, phy)
            == HandlerRun(if LC in s.isr then s.(isr := s.isr - {LC}, task := AtAckRx(phy, {LC}))
                          else s.(task := AtAckRx(s.isr, {})), phy)
  {
    var t := TaskNext(s, phy);
    if LC in s.isr {
      var u := TaskNext(t, phy);
      assert HandlerRun(s, phy) == HandlerRun(t, phy) == HandlerRun(u, phy) == HandlerRun(TaskNext(u, phy), phy);
    }
  }

  lemma CountRun(s: State, phy: Reg)
    requires s.task.AtAckRx?
    ensures var status, mask := s.task.status, s.task.mask;
            HandlerRun(s, phy)
            == HandlerRun(if RX in status then s.(isr := s.isr - {RX}, task := AtFrame(status, mask, |s.rxq|))
                          else s.(task := AtOverrunRead(status, mask)), phy)
  {
    var t := TaskNext(s, phy);
    if RX in s.task.status {
      assert HandlerRun(s, phy) == HandlerRun(t, phy) == HandlerRun(TaskNext(t, phy), phy);
    }
  }

  /** One turn of the receive loop. */
  lemma FrameRun(s: State, s': State, phy: Reg)
    requires s.task.AtFrame? && s.task.left > 0 && s.rxq != []
    requires s' == s.(rxq := if Releasable(s.rxq[0]) then s.rxq[1..] else s.rxq,
                      delivered := s.delivered + (if Deliverable(s.rxq[0]) then [s.rxq[0]] else []),
                      task := AtFrame(s.task.status, s.task.mask, s.task.left - 1))
    ensures HandlerRun(s, phy) == HandlerRun(s', phy)
  {
    var t := TaskNext(s, phy);
    if Deliverable(s.rxq[0]) {
      assert HandlerRun(s, phy) == HandlerRun(t, phy) == HandlerRun(TaskNext(t, phy), phy);
      assert TaskNext(t, phy) == s';
    } else {
      assert s.delivered + [] == s.delivered;
      assert t == s';
    }
  }

  lemma NoFrameRun(s: State, phy: Reg)
    requires s.task.AtFrame? && s.task.left == 0
    ensures HandlerRun(s, phy) == HandlerRun(s.(task := AtOverrunRead(s.task.status, s.task.mask + {RX})), phy)
  {
  }

  lemma OverrunRun(s: State, phy: Reg)
    requires s.task.AtOverrunRead?
    ensures var status, mask := s.task.status, s.task.mask;
            HandlerRun(s, phy)
            == HandlerRun(if RXO in status
                          then s.(isr := s.isr - (s.isr + {RXO}), task := AtIerRead(LateMask(status, mask + {RXO})))
                          else s.(task := AtIerRead(LateMask(status, mask))), phy)
  {
    var t := TaskNext(s, phy);
    if RXO in s.task.status {
      assert HandlerRun(s, phy) == HandlerRun(t, phy) == HandlerRun(TaskNext(t, phy), phy);
    }
  }

  lemma FinalRun(s: State, phy: Reg)
    requires s.task.AtIerRead?
    ensures HandlerRun(s, phy) == s.(ier := s.ier + s.task.mask, task := Waiting)
  {
    var t := TaskNext(s, phy);
    var u := TaskNext(t, phy);
    assert HandlerRun(s, phy) == HandlerRun(t, phy) == HandlerRun(u, phy) == TaskNext(u, phy);
  }

  /**
   * What one undisturbed handler run achieves when neither a link change nor an overrun is pending: the receive
   * cause is acknowledged and enabled, and every frame that was queued has left the queue, the good ones upwards.
   */
  lemma HandlerDrains(s: State, phy: Reg)
    requires s.server.Idle? && s.task == AtReadIsr && LC !in s.isr && RXO !in s.isr && RX in s.isr
    requires forall i :: 0 <= i < |s.rxq| ==> Releasable(s.rxq[i])
    ensures HandlerRun(s, phy) == s.(isr := s.isr - {RX}, ier := s.ier + LateMask(s.isr, {RX}), rxq := [],
                                     delivered := s.delivered + Good(s.rxq), task := Waiting)
  {
    StartRun(s, phy);
    CountRun(s.(task := AtAckRx(s.isr, {})), phy);
    DrainLoop(s.(isr := s.isr - {RX}, task := AtFrame(s.isr, {}, |s.rxq|)), phy);
    assert {} + {RX} == {RX};
  }

  lemma {:induction false} DrainLoop(s: State, phy: Reg)
    requires s.server.Idle? && s.task.AtFrame? && s.task.left == |s.rxq| && RXO !in s.task.status
    requires forall i :: 0 <= i < |s.rxq| ==> Releasable(s.rxq[i])
    ensures HandlerRun(s, phy)
            == s.(ier := s.ier + LateMask(s.task.status, s.task.mask + {RX}), rxq := [],
                  delivered := s.delivered + Good(s.rxq), task := Waiting)
    decreases |s.rxq|
  {
    var status, mask := s.task.status, s.task.mask;
    if s.rxq == [] {
      assert s.delivered + Good(s.rxq) == s.delivered;
      NoFrameRun(s, phy);
      OverrunRun(s.(task := AtOverrunRead(status, mask + {RX})), phy);
      FinalRun(s.(task := AtIerRead(LateMask(status, mask + {RX}))), phy);
    } else {
      var up := if Deliverable(s.rxq[0]) then [s.rxq[0]] else [];
      var t := s.(rxq := s.rxq[1..], delivered := s.delivered + up, task := AtFrame(status, mask, |s.rxq| - 1));
      FrameRun(s, t, phy);
      DrainLoop(t, phy);
      assert s.delivered + (up + Good(s.rxq[1..])) == (s.delivered + up) + Good(s.rxq[1..]);
    }
  }
}
