/**
 * Chip access exclusion at the level of single bus cycles. The chip has one command port, which selects a register,
 * and one data port, which reaches the register just selected or, with no fresh selection and SDA set, the FIFO.
 * Any number of tasks and the interrupt server run driver functions on it. Nothing keeps them apart but Disable:
 * while its nesting count is not zero there is no task switch and no interrupt, and tasks stand still while the
 * server runs.
 */
module BusExclusion {
  type Reg = set<int>

  const NO_REG := -1
  const RXQCR := 0x82
  const TXMIR := 0x78
  const TXQCR := 0x80
  const RXFHSR := 0x7C
  const RXFHBCR := 0x7E
  const RXFDPR := 0x86
  const RXFCTR := 0x9C
  const IER := 0x90
  const ISR := 0x92
  const PMECR := 0xD4
  const P1SR := 0xF8
  const TXCR := 0x70
  const RXCR1 := 0x74
  const MARL := 0x10
  const MARM := 0x12
  const MARH := 0x14

  /** Bits of RXQCR. */
  const SDA := 3
  const RRXEF := 0
  /** RXFCTE, ADRFE and RXIPHTOE, as ksz8851Init leaves it. */
  const RXQCR_CONFIG: Reg := {9, 5, 4}

  datatype Op =
    | Disable
    | Enable
    | Select(reg: int)
    | Get
    | Put(value: Reg)
    | PutOr(bits: Reg)      // what Get read, with bits set
    | PutAndNot(bits: Reg)  // what Get read, with bits cleared
    | Push(word: int)
    | Pull

  datatype Access = Wrote(word: int) | Took

  /** armed: the selection not yet used up; transfer: FIFO accesses since SDA was set; log: finished transfers. */
  datatype Chip = Chip(armed: int, regs: map<int, Reg>, transfer: seq<Access>, log: seq<seq<Access>>)

  function RegOf(c: Chip, r: int): (v: Reg) {
    if r in c.regs then c.regs[r] else {}
  }

  /** The wakeup bit of PMECR that also clears the link-up cause of ISR, which has the same number. */
  const LINK_UP := 3

  /**
   * Causes of ISR clear when written as one, and the link-up cause through PMECR. RRXEF clears itself; the edges of SDA
   * start and finish a transfer.
   */
  function WriteReg(c: Chip, r: int, v: Reg): (c': Chip)
    ensures c'.armed == NO_REG
  {
    if r == ISR then c.(armed := NO_REG, regs := c.regs[r := RegOf(c, r) - v])
    else if r == PMECR then
      c.(armed := NO_REG, regs := c.regs[r := v][ISR := RegOf(c, ISR) - (if LINK_UP in v then {LINK_UP} else {})])
    else if r != RXQCR then c.(armed := NO_REG, regs := c.regs[r := v])
    else
      var was, now := SDA in RegOf(c, RXQCR), SDA in v;
      c.(armed := NO_REG, regs := c.regs[r := v - {RRXEF}],
         transfer := if now && !was then [] else c.transfer,
         log := if was && !now then c.log + [c.transfer] else c.log)
  }

  function DataWrite(c: Chip, v: Reg): (c': Chip) {
    if c.armed != NO_REG then WriteReg(c, c.armed, v) else c
  }

  /** A data cycle meant for the FIFO; with a selection pending it would hit that register instead. */
  function FifoCycle(c: Chip, a: Access): (c': Chip) {
    if c.armed != NO_REG then WriteReg(c, c.armed, {})
    else if SDA in RegOf(c, RXQCR) then c.(transfer := c.transfer + [a])
    else c
  }

  // ---- What a driver function may do: a typestate over its own operations ----

  /** In: inside Disable (or in the server); sda, loaded and words as the function's own operations make them. */
  datatype Mode = Out | In(armed: int, sda: bool, loaded: int, words: seq<Access>) | Bad

  const ENTERED := In(NO_REG, false, NO_REG, [])

  function ModeAfter(m: Mode, op: Op): (m': Mode) {
    match op
    case Disable => if m.Out? then ENTERED else Bad
    case Enable => if m.In? && m.armed == NO_REG && !m.sda then Out else Bad
    case Select(r) => if m.In? && m.armed == NO_REG && r != NO_REG then m.(armed := r) else Bad
    case Get => if m.In? && m.armed != NO_REG then m.(armed := NO_REG, loaded := m.armed) else Bad
    case Put(_) =>
      if m.In? && m.armed != NO_REG && m.armed != RXQCR then m.(armed := NO_REG, loaded := NO_REG) else Bad
    case PutOr(bits) =>
      if !m.In? || m.armed == NO_REG || m.loaded != m.armed then Bad
      else if m.armed != RXQCR || bits == {RRXEF} then m.(armed := NO_REG, loaded := NO_REG)
      else if bits == {SDA} && !m.sda then m.(armed := NO_REG, loaded := NO_REG, sda := true, words := [])
      else Bad
    case PutAndNot(bits) =>
      if !m.In? || m.armed == NO_REG || m.loaded != m.armed then Bad
      else if m.armed != RXQCR then m.(armed := NO_REG, loaded := NO_REG)
      else if bits == {SDA} && m.sda then m.(armed := NO_REG, loaded := NO_REG, sda := false)
      else Bad
    case Push(w) => if m.In? && m.armed == NO_REG && m.sda then m.(words := m.words + [Wrote(w)]) else Bad
    case Pull => if m.In? && m.armed == NO_REG && m.sda then m.(words := m.words + [Took]) else Bad
  }

  function ModeRun(m: Mode, ops: seq<Op>): (m': Mode)
    decreases |ops|
  {
    if ops == [] then m else ModeRun(ModeAfter(m, ops[0]), ops[1..])
  }

  // ---- The driver's functions as operation sequences ----

  function ReadReg(r: int): (p: seq<Op>) { [Select(r), Get] }

  function WriteRegOps(r: int, v: Reg): (p: seq<Op>) { [Select(r), Put(v)] }

  function SetBit(r: int, bits: Reg): (p: seq<Op>) { [Select(r), Get, Select(r), PutOr(bits)] }

  function ClearBit(r: int, bits: Reg): (p: seq<Op>) { [Select(r), Get, Select(r), PutAndNot(bits)] }

  function Pushes(words: seq<int>): (p: seq<Op>)
    ensures |p| == |words|
  {
    if words == [] then [] else [Push(words[0])] + Pushes(words[1..])
  }

  function Pulls(n: nat): (p: seq<Op>) {
    if n == 0 then [] else [Pull] + Pulls(n - 1)
  }

  /** Both send paths: the space check, and only when there is space the transfer and its start. */
  function SendOps(words: seq<int>, space: bool): (p: seq<Op>) {
    [Disable] + (ReadReg(TXMIR) + ((if space then TransferOps(words) else []) + [Enable]))
  }

  function TransferOps(words: seq<int>): (p: seq<Op>) {
    SetBit(RXQCR, {SDA}) + (Pushes(words) + (ClearBit(RXQCR, {SDA}) + SetBit(TXQCR, {0})))
  }

  /** The four ways through ksz8851ReceivePacket; a good frame ends with the window for its delivery. */
  datatype Reception = Ignored | Released | Oversized | Good(fdpr: Reg, words: nat)

  function ReceiveOps(r: Reception): (p: seq<Op>) {
    match r
    case Ignored => ReadReg(RXFHSR)
    case Released => ReadReg(RXFHSR) + SetBit(RXQCR, {RRXEF})
    case Oversized => ReadReg(RXFHSR) + (ReadReg(RXFHBCR) + SetBit(RXQCR, {RRXEF}))
    case Good(fdpr, words) =>
      ReadReg(RXFHSR) + (ReadReg(RXFHBCR) + (WriteRegOps(RXFDPR, fdpr) + (SetBit(RXQCR, {SDA})
      + (Pulls(3 + words) + (ClearBit(RXQCR, {SDA}) + [Enable, Disable])))))
  }

  function ReceiveAllOps(rs: seq<Reception>): (p: seq<Op>) {
    if rs == [] then [] else ReceiveOps(rs[0]) + ReceiveAllOps(rs[1..])
  }

  function HandlerOps(link: bool, rx: bool, rs: seq<Reception>, overrun: bool, mask: Reg): (p: seq<Op>) {
    [Disable] + (ReadReg(ISR)
    + ((if link then WriteRegOps(ISR, {15}) + ReadReg(P1SR) else [])
    + ((if rx then WriteRegOps(ISR, {13}) + (ReadReg(RXFCTR) + ReceiveAllOps(rs)) else [])
    + ((if overrun then SetBit(ISR, {11}) else [])
    + (SetBit(IER, mask) + [Enable])))))
  }

  function OnlineOps(): (p: seq<Op>) {
    [Disable] + (SetBit(ISR, {15, 14, 13, 11, 9, 8, 6, 5, 4, 3, 2, 1}) + (SetBit(IER, {15, 13, 11})
    + (SetBit(TXCR, {0}) + (SetBit(RXCR1, {0}) + [Enable]))))
  }

  function OfflineOps(): (p: seq<Op>) {
    [Disable] + (WriteRegOps(IER, {}) + (ClearBit(TXCR, {0}) + (ClearBit(RXCR1, {0}) + [Enable])))
  }

  function SetAddressOps(high: Reg, middle: Reg, low: Reg): (p: seq<Op>) {
    [Disable] + (WriteRegOps(MARH, high) + (WriteRegOps(MARM, middle) + (WriteRegOps(MARL, low) + [Enable])))
  }

  /** The interrupt server, which needs no Disable of its own. */
  function ServerOps(claims: bool, tx: bool, linkUp: bool, ier: Reg): (p: seq<Op>) {
    ReadReg(ISR) + (ReadReg(IER)
    + (if !claims then [] else
         WriteRegOps(IER, {})
         + ((if tx then WriteRegOps(ISR, {14}) else [])
         + ((if linkUp then SetBit(PMECR, {3}) else []) + WriteRegOps(IER, ier)))))
  }

  /** A task's function starts and ends outside Disable, on every path. */
  predicate TaskFunction(p: seq<Op>) {
    ModeRun(Out, p) == Out
  }

  /** The server runs with interrupts held off by the CPU, so it uses neither Disable nor Enable. */
  predicate ServerFunction(p: seq<Op>) {
    var m := ModeRun(ENTERED, p);
    m.In? && m.armed == NO_REG && !m.sda && Unnested(p)
  }

  predicate Unnested(p: seq<Op>) {
    forall i :: 0 <= i < |p| ==> !p[i].Disable? && !p[i].Enable?
  }

  lemma {:induction false} ModeRunConcat(m: Mode, p: seq<Op>, q: seq<Op>)
    ensures ModeRun(m, p + q) == ModeRun(ModeRun(m, p), q)
    decreases |p|
  {
    if p == [] {
      assert p + q == q;
    } else {
      assert (p + q)[1..] == p[1..] + q;
      ModeRunConcat(ModeAfter(m, p[0]), p[1..], q);
    }
  }

  /** Inside, no selection pending, no transfer open. */
  predicate Calm(m: Mode) {
    m.In? && m.armed == NO_REG && !m.sda
  }

  lemma TwoOps(m: Mode, a: Op, b: Op)
    ensures ModeRun(m, [a, b]) == ModeAfter(ModeAfter(m, a), b)
  {
    assert [a, b][1..] == [b];
    assert ModeRun(ModeAfter(m, a), [b]) == ModeRun(ModeAfter(ModeAfter(m, a), b), []);
  }

  lemma ReadRegMode(m: Mode, r: int)
    requires m.In? && m.armed == NO_REG && r != NO_REG
    ensures ModeRun(m, ReadReg(r)) == m.(loaded := r)
  {
    TwoOps(m, Select(r), Get);
  }

  lemma WriteRegMode(m: Mode, r: int, v: Reg)
    requires m.In? && m.armed == NO_REG && r != NO_REG && r != RXQCR
    ensures ModeRun(m, WriteRegOps(r, v)) == m.(loaded := NO_REG)
  {
    TwoOps(m, Select(r), Put(v));
  }

  /** The read-modify-writes, which alone may touch RXQCR. */
  lemma ModifyMode(m: Mode, r: int, last: Op)
    requires m.In? && m.armed == NO_REG && r != NO_REG && (last.PutOr? || last.PutAndNot?)
    ensures ModeRun(m, [Select(r), Get, Select(r), last]) == ModeAfter(m.(armed := r, loaded := r), last)
  {
    var m' := ModeAfter(ModeAfter(m, Select(r)), Get);
    assert [Select(r), Get, Select(r), last] == [Select(r), Get] + [Select(r), last];
    ModeRunConcat(m, [Select(r), Get], [Select(r), last]);
    TwoOps(m, Select(r), Get);
    TwoOps(m', Select(r), last);
  }

  function WroteAll(words: seq<int>): (a: seq<Access>) {
    seq(|words|, i requires 0 <= i < |words| => Wrote(words[i]))
  }

  lemma {:induction false} PushesMode(m: Mode, words: seq<int>)
    requires m.In? && m.armed == NO_REG && m.sda
    ensures ModeRun(m, Pushes(words)) == m.(words := m.words + WroteAll(words))
    decreases |words|
  {
    if words == [] {
      assert m.words + WroteAll(words) == m.words;
    } else {
      PushesMode(m.(words := m.words + [Wrote(words[0])]), words[1..]);
      assert m.words + [Wrote(words[0])] + WroteAll(words[1..]) == m.words + WroteAll(words);
    }
  }

  lemma {:induction false} PullsMode(m: Mode, n: nat)
    requires m.In? && m.armed == NO_REG && m.sda
    ensures ModeRun(m, Pulls(n)) == m.(words := m.words + seq(n, i => Took))
    decreases n
  {
    if n == 0 {
      assert m.words + seq(n, i => Took) == m.words;
    } else {
      PullsMode(m.(words := m.words + [Took]), n - 1);
      assert m.words + [Took] + seq(n - 1, i => Took) == m.words + seq(n, i => Took);
    }
  }

  /** A transfer carries exactly the words it was called with. */
  lemma TransferMode(m: Mode, words: seq<int>)
    requires Calm(m)
    ensures Calm(ModeRun(m, TransferOps(words))) && ModeRun(m, TransferOps(words)).words == WroteAll(words)
  {
    var open := m.(loaded := NO_REG, sda := true, words := []);
    ModifyMode(m, RXQCR, PutOr({SDA}));
    PushesMode(open, words);
    assert [] + WroteAll(words) == WroteAll(words);
    var full := open.(words := WroteAll(words));
    ModifyMode(full, RXQCR, PutAndNot({SDA}));
    var closed := full.(sda := false);
    ModifyMode(closed, TXQCR, PutOr({0}));
    ModeRunConcat(m, SetBit(RXQCR, {SDA}), Pushes(words) + (ClearBit(RXQCR, {SDA}) + SetBit(TXQCR, {0})));
    ModeRunConcat(open, Pushes(words), ClearBit(RXQCR, {SDA}) + SetBit(TXQCR, {0}));
    ModeRunConcat(full, ClearBit(RXQCR, {SDA}), SetBit(TXQCR, {0}));
  }

  /** p, started calm, ends calm. */
  ghost predicate KeepsCalm(p: seq<Op>) {
    forall m :: Calm(m) ==> Calm(ModeRun(m, p))
  }

  lemma CalmSequence(p: seq<Op>, q: seq<Op>)
    requires KeepsCalm(p) && KeepsCalm(q)
    ensures KeepsCalm(p + q)
  {
    forall m | Calm(m) ensures Calm(ModeRun(m, p + q)) {
      ModeRunConcat(m, p, q);
    }
  }

  lemma CalmBlocks(r: int, v: Reg)
    requires r != NO_REG && r != RXQCR
    ensures KeepsCalm(WriteRegOps(r, v)) && KeepsCalm(SetBit(r, v)) && KeepsCalm(ClearBit(r, v))
    ensures KeepsCalm(ReadReg(r)) && KeepsCalm(SetBit(RXQCR, {RRXEF})) && KeepsCalm([])
  {
    forall m | Calm(m)
      ensures Calm(ModeRun(m, WriteRegOps(r, v))) && Calm(ModeRun(m, SetBit(r, v))) && Calm(ModeRun(m, ClearBit(r, v)))
      ensures Calm(ModeRun(m, ReadReg(r))) && Calm(ModeRun(m, SetBit(RXQCR, {RRXEF})))
    {
      WriteRegMode(m, r, v);
      ModifyMode(m, r, PutOr(v));
      ModifyMode(m, r, PutAndNot(v));
      ReadRegMode(m, r);
      ModifyMode(m, RXQCR, PutOr({RRXEF}));
    }
  }

  /** A body that keeps calm, bracketed by Disable and Enable, is a task function. */
  lemma Bracketed(body: seq<Op>)
    requires KeepsCalm(body)
    ensures TaskFunction([Disable] + (body + [Enable]))
  {
    var p := [Disable] + (body + [Enable]);
    assert p[1..] == body + [Enable];
    ModeRunConcat(ENTERED, body, [Enable]);
    var m := ModeRun(ENTERED, body);
    assert ModeRun(m, [Enable]) == ModeRun(ModeAfter(m, Enable), []);
  }

  lemma SendIsTaskFunction(words: seq<int>, space: bool)
    ensures TaskFunction(SendOps(words, space))
  {
    var rest := if space then TransferOps(words) else [];
    forall m | Calm(m) ensures Calm(ModeRun(m, rest)) {
      TransferMode(m, words);
    }
    CalmBlocks(TXMIR, {});
    CalmSequence(ReadReg(TXMIR), rest);
    Bracketed(ReadReg(TXMIR) + rest);
    assert SendOps(words, space) == [Disable] + ((ReadReg(TXMIR) + rest) + [Enable]);
  }

  lemma ServerIsServerFunction(claims: bool, tx: bool, linkUp: bool, ier: Reg)
    ensures ServerFunction(ServerOps(claims, tx, linkUp, ier))
  {
    CalmBlocks(ISR, {14});
    CalmBlocks(IER, {});
    CalmBlocks(IER, ier);
    CalmBlocks(PMECR, {3});
    var ack := if tx then WriteRegOps(ISR, {14}) else [];
    var wake := if linkUp then SetBit(PMECR, {3}) else [];
    CalmSequence(wake, WriteRegOps(IER, ier));
    CalmSequence(ack, wake + WriteRegOps(IER, ier));
    CalmSequence(WriteRegOps(IER, {}), ack + (wake + WriteRegOps(IER, ier)));
    var taken := if claims then WriteRegOps(IER, {}) + (ack + (wake + WriteRegOps(IER, ier))) else [];
    CalmSequence(ReadReg(IER), taken);
    CalmSequence(ReadReg(ISR), ReadReg(IER) + taken);
    assert Unnested(taken) by {
      assert Unnested(ack) && Unnested(wake);
    }
  }

  lemma OnlineAndOfflineAreTaskFunctions(high: Reg, middle: Reg, low: Reg)
    ensures TaskFunction(OnlineOps()) && TaskFunction(OfflineOps()) && TaskFunction(SetAddressOps(high, middle, low))
  {
    var all := {15, 14, 13, 11, 9, 8, 6, 5, 4, 3, 2, 1};
    CalmBlocks(ISR, all);
    CalmBlocks(IER, {15, 13, 11});
    CalmBlocks(IER, {});
    CalmBlocks(TXCR, {0});
    CalmBlocks(RXCR1, {0});
    FourBlocks(SetBit(ISR, all), SetBit(IER, {15, 13, 11}), SetBit(TXCR, {0}), SetBit(RXCR1, {0}));
    FourBlocks(WriteRegOps(IER, {}), ClearBit(TXCR, {0}), ClearBit(RXCR1, {0}), []);
    assert [] + [Enable] == [Enable];
    CalmBlocks(MARH, high);
    CalmBlocks(MARM, middle);
    CalmBlocks(MARL, low);
    FourBlocks(WriteRegOps(MARH, high), WriteRegOps(MARM, middle), WriteRegOps(MARL, low), []);
  }

  lemma FourBlocks(a: seq<Op>, b: seq<Op>, c: seq<Op>, d: seq<Op>)
    requires KeepsCalm(a) && KeepsCalm(b) && KeepsCalm(c) && KeepsCalm(d)
    ensures TaskFunction([Disable] + (a + (b + (c + (d + [Enable])))))
  {
    CalmSequence(c, d);
    CalmSequence(b, c + d);
    CalmSequence(a, b + (c + d));
    Bracketed(a + (b + (c + d)));
    assert a + (b + (c + (d + [Enable]))) == (a + (b + (c + d))) + [Enable];
  }

  lemma ReadTransferKeepsCalm(n: nat)
    ensures KeepsCalm(SetBit(RXQCR, {SDA}) + (Pulls(n) + (ClearBit(RXQCR, {SDA}) + [Enable, Disable])))
  {
    var tail := ClearBit(RXQCR, {SDA}) + [Enable, Disable];
    forall m | Calm(m) ensures Calm(ModeRun(m, SetBit(RXQCR, {SDA}) + (Pulls(n) + tail))) {
      var open := m.(loaded := NO_REG, sda := true, words := []);
      ModifyMode(m, RXQCR, PutOr({SDA}));
      ModeRunConcat(m, SetBit(RXQCR, {SDA}), Pulls(n) + tail);
      PullsMode(open, n);
      ModeRunConcat(open, Pulls(n), tail);
      var full := ModeRun(open, Pulls(n));
      ModifyMode(full, RXQCR, PutAndNot({SDA}));
      ModeRunConcat(full, ClearBit(RXQCR, {SDA}), [Enable, Disable]);
      TwoOps(ModeRun(full, ClearBit(RXQCR, {SDA})), Enable, Disable);
    }
  }

  lemma ReceiveKeepsCalm(r: Reception)
    ensures KeepsCalm(ReceiveOps(r))
  {
    CalmBlocks(RXFHSR, {});
    CalmBlocks(RXFHBCR, {});
    match r
    case Ignored =>
    case Released => CalmSequence(ReadReg(RXFHSR), SetBit(RXQCR, {RRXEF}));
    case Oversized =>
      CalmSequence(ReadReg(RXFHBCR), SetBit(RXQCR, {RRXEF}));
      CalmSequence(ReadReg(RXFHSR), ReadReg(RXFHBCR) + SetBit(RXQCR, {RRXEF}));
    case Good(fdpr, words) =>
      CalmBlocks(RXFDPR, fdpr);
      ReadTransferKeepsCalm(3 + words);
      var transfer := SetBit(RXQCR, {SDA}) + (Pulls(3 + words) + (ClearBit(RXQCR, {SDA}) + [Enable, Disable]));
      CalmSequence(WriteRegOps(RXFDPR, fdpr), transfer);
      CalmSequence(ReadReg(RXFHBCR), WriteRegOps(RXFDPR, fdpr) + transfer);
      CalmSequence(ReadReg(RXFHSR), ReadReg(RXFHBCR) + (WriteRegOps(RXFDPR, fdpr) + transfer));
  }

  lemma {:induction false} ReceiveAllKeepsCalm(rs: seq<Reception>)
    ensures KeepsCalm(ReceiveAllOps(rs))
  {
    if rs != [] {
      ReceiveKeepsCalm(rs[0]);
      ReceiveAllKeepsCalm(rs[1..]);
      CalmSequence(ReceiveOps(rs[0]), ReceiveAllOps(rs[1..]));
    }
  }

  lemma HandlerIsTaskFunction(link: bool, rx: bool, rs: seq<Reception>, overrun: bool, mask: Reg)
    ensures TaskFunction(HandlerOps(link, rx, rs, overrun, mask))
  {
    CalmBlocks(ISR, {15});
    CalmBlocks(ISR, {13});
    CalmBlocks(ISR, {11});
    CalmBlocks(P1SR, {});
    CalmBlocks(RXFCTR, {});
    CalmBlocks(IER, mask);
    var a := if link then WriteRegOps(ISR, {15}) + ReadReg(P1SR) else [];
    CalmSequence(WriteRegOps(ISR, {15}), ReadReg(P1SR));
    ReceiveAllKeepsCalm(rs);
    CalmSequence(ReadReg(RXFCTR), ReceiveAllOps(rs));
    CalmSequence(WriteRegOps(ISR, {13}), ReadReg(RXFCTR) + ReceiveAllOps(rs));
    var b := if rx then WriteRegOps(ISR, {13}) + (ReadReg(RXFCTR) + ReceiveAllOps(rs)) else [];
    var c := if overrun then SetBit(ISR, {11}) else [];
    CalmSequence(ReadReg(ISR), a);
    FourBlocks(ReadReg(ISR) + a, b, c, SetBit(IER, mask));
    assert (ReadReg(ISR) + a) + (b + (c + (SetBit(IER, mask) + [Enable])))
        == ReadReg(ISR) + (a + (b + (c + (SetBit(IER, mask) + [Enable]))));
  }

  // ---- The system ----

  /** acc: the value of the last Get; mode: what the agent's own operations have made of the chip. */
  datatype Agent = Agent(rest: seq<Op>, acc: Reg, mode: Mode)

  /** done: per finished transfer, the accesses its owner made, in the owners' own account. */
  datatype Machine = Machine(chip: Chip, depth: nat, current: nat, serving: bool, server: Agent,
                            tasks: map<nat, Agent>, done: seq<seq<Access>>)

  datatype Event =
    | ChipChanges(reg: int, value: Reg)
    | SwitchTo(task: nat)
    | Call(ops: seq<Op>)
    | Interrupt(ops: seq<Op>)
    | Cycle

  function Resting(): (a: Agent) {
    Agent([], {}, Out)
  }

  function TaskOf(s: Machine, t: nat): (a: Agent) {
    if t in s.tasks then s.tasks[t] else Resting()
  }

  function Running(s: Machine): (a: Agent) {
    if s.serving then s.server else TaskOf(s, s.current)
  }

  function Initial(regs: map<int, Reg>): (s: Machine) {
    Machine(Chip(NO_REG, regs[RXQCR := RXQCR_CONFIG], [], []), 0, 0, false, Resting(), map[], [])
  }

  /** The only obstacles are the nesting count and a running server; nothing here speaks of who owns the chip. */
  predicate Enabled(s: Machine, e: Event) {
    match e
    case ChipChanges(reg, _) => reg != RXQCR
    case SwitchTo(_) => !s.serving && s.depth == 0
    case Call(ops) => !s.serving && TaskOf(s, s.current).rest == [] && TaskFunction(ops)
    case Interrupt(ops) => !s.serving && s.depth == 0 && ServerFunction(ops)
    case Cycle => Running(s).rest != []
  }

  function ChipCycle(c: Chip, acc: Reg, op: Op): (c': Chip) {
    match op
    case Disable => c
    case Enable => c
    case Select(r) => c.(armed := r)
    case Get => if c.armed != NO_REG then c.(armed := NO_REG) else FifoCycle(c, Took)
    case Put(v) => DataWrite(c, v)
    case PutOr(bits) => DataWrite(c, acc + bits)
    case PutAndNot(bits) => DataWrite(c, acc - bits)
    case Push(w) => FifoCycle(c, Wrote(w))
    case Pull => FifoCycle(c, Took)
  }

  function Execute(a: Agent, c: Chip): (a': Agent)
    requires a.rest != []
  {
    var op := a.rest[0];
    Agent(a.rest[1..], if op.Get? then RegOf(c, c.armed) else a.acc, ModeAfter(a.mode, op))
  }

  function Next(s: Machine, e: Event): (s': Machine)
    requires Enabled(s, e)
  {
    match e
    case ChipChanges(reg, value) => s.(chip := s.chip.(regs := s.chip.regs[reg := value]))
    case SwitchTo(t) => s.(current := t)
    case Call(ops) => s.(tasks := s.tasks[s.current := TaskOf(s, s.current).(rest := ops)])
    case Interrupt(ops) => if ops == [] then s else s.(serving := true, server := Agent(ops, {}, ENTERED))
    case Cycle =>
      var a, op := Running(s), Running(s).rest[0];
      var a' := Execute(a, s.chip);
      var finished := op.PutAndNot? && a.mode.In? && a.mode.armed == RXQCR;
      var s' := s.(chip := ChipCycle(s.chip, a.acc, op),
                   depth := if op.Disable? then s.depth + 1
                            else if op.Enable? && s.depth > 0 then s.depth - 1 else s.depth,
                   done := if finished then s.done + [a.mode.words] else s.done);
      if s.serving then s'.(server := a', serving := a'.rest != [])
      else s'.(tasks := s.tasks[s.current := a'])
  }

  // ---- Exclusion ----

  /** The chip is exactly as the operations of the one agent with mode m, and of nobody else, have left it. */
  predicate Owned(c: Chip, acc: Reg, m: Mode) {
    && RegOf(c, RXQCR) - {SDA} == RXQCR_CONFIG
    && match m
       case Bad => false
       case Out => c.armed == NO_REG && SDA !in RegOf(c, RXQCR)
       case In(armed, sda, loaded, words) =>
         && c.armed == armed
         && (SDA in RegOf(c, RXQCR) <==> sda)
         && (loaded == RXQCR ==> acc == RegOf(c, RXQCR))
         && (sda ==> c.transfer == words)
  }

  predicate ServerUnderWay(a: Agent) {
    a.rest != [] && a.mode.In? && Unnested(a.rest) && Calm(ModeRun(a.mode, a.rest))
  }

  ghost predicate Inv(s: Machine) {
    && s.chip.log == s.done
    && Owned(s.chip, Running(s).acc, Running(s).mode)
    && (forall t :: ModeRun(TaskOf(s, t).mode, TaskOf(s, t).rest) == Out)
    && (forall t :: t != s.current || s.serving ==> TaskOf(s, t).mode.Out?)
    && s.depth == (if TaskOf(s, s.current).mode.In? then 1 else 0)
    && (s.serving ==> ServerUnderWay(s.server))
  }

  lemma {:induction false} BadStays(ops: seq<Op>)
    ensures ModeRun(Bad, ops) == Bad
  {
    if ops != [] {
      BadStays(ops[1..]);
    }
  }

  /** One bus cycle of an allowed operation keeps the chip in step with its owner, and the log with its account. */
  lemma CycleKeepsOwned(c: Chip, acc: Reg, m: Mode, op: Op)
    requires Owned(c, acc, m) && !ModeAfter(m, op).Bad?
    ensures Owned(ChipCycle(c, acc, op), if op.Get? then RegOf(c, c.armed) else acc, ModeAfter(m, op))
    ensures ChipCycle(c, acc, op).log
            == if op.PutAndNot? && m.armed == RXQCR then c.log + [m.words] else c.log
  {
  }

  lemma InitialHolds(regs: map<int, Reg>)
    ensures Inv(Initial(regs))
  {
  }

  lemma CallKeeps(s: Machine, ops: seq<Op>)
    requires Inv(s) && Enabled(s, Call(ops))
    ensures Inv(Next(s, Call(ops)))
  {
    var s' := Next(s, Call(ops));
    assert TaskOf(s, s.current).mode == Out by {
      assert ModeRun(TaskOf(s, s.current).mode, TaskOf(s, s.current).rest) == Out;
    }
    forall t ensures ModeRun(TaskOf(s', t).mode, TaskOf(s', t).rest) == Out {
      assert ModeRun(TaskOf(s, t).mode, TaskOf(s, t).rest) == Out;
    }
    forall t | t != s'.current || s'.serving ensures TaskOf(s', t).mode.Out? {
      assert TaskOf(s', t) == TaskOf(s, t);
    }
  }

  lemma SwitchKeeps(s: Machine, t: nat)
    requires Inv(s) && Enabled(s, SwitchTo(t))
    ensures Inv(Next(s, SwitchTo(t)))
  {
    var s' := Next(s, SwitchTo(t));
    assert forall u :: ModeRun(TaskOf(s, u).mode, TaskOf(s, u).rest) == Out && TaskOf(s', u) == TaskOf(s, u);
    forall u ensures TaskOf(s', u).mode.Out? {
      BadStays(TaskOf(s, u).rest);
    }
  }

  lemma InterruptKeeps(s: Machine, ops: seq<Op>)
    requires Inv(s) && Enabled(s, Interrupt(ops))
    ensures Inv(Next(s, Interrupt(ops)))
  {
    var s' := Next(s, Interrupt(ops));
    assert forall u :: ModeRun(TaskOf(s, u).mode, TaskOf(s, u).rest) == Out && TaskOf(s', u) == TaskOf(s, u);
    forall u ensures TaskOf(s', u).mode.Out? {
      BadStays(TaskOf(s, u).rest);
    }
  }

  lemma ServerCycleKeeps(s: Machine)
    requires Inv(s) && Enabled(s, Cycle) && s.serving
    ensures Inv(Next(s, Cycle))
  {
    var s', a := Next(s, Cycle), s.server;
    var m' := ModeAfter(a.mode, a.rest[0]);
    assert forall t :: ModeRun(TaskOf(s, t).mode, TaskOf(s, t).rest) == Out && TaskOf(s', t) == TaskOf(s, t);
    BadStays(a.rest[1..]);
    CycleKeepsOwned(s.chip, a.acc, a.mode, a.rest[0]);
    if a.rest[1..] == [] {
      assert ModeRun(m', a.rest[1..]) == m';
      assert TaskOf(s, s.current).mode.Out?;
    }
  }

  lemma TaskCycleKeeps(s: Machine)
    requires Inv(s) && Enabled(s, Cycle) && !s.serving
    ensures Inv(Next(s, Cycle))
  {
    var s', a := Next(s, Cycle), TaskOf(s, s.current);
    assert ModeRun(a.mode, a.rest) == Out;
    BadStays(a.rest[1..]);
    CycleKeepsOwned(s.chip, a.acc, a.mode, a.rest[0]);
    forall t ensures ModeRun(TaskOf(s', t).mode, TaskOf(s', t).rest) == Out {
      assert ModeRun(TaskOf(s, t).mode, TaskOf(s, t).rest) == Out;
    }
    forall t | t != s'.current || s'.serving ensures TaskOf(s', t).mode.Out? {
      assert TaskOf(s', t) == TaskOf(s, t);
    }
  }

  lemma StepKeepsExclusion(s: Machine, e: Event)
    requires Inv(s) && Enabled(s, e)
    ensures Inv(Next(s, e))
  {
    match e
    case ChipChanges(reg, value) =>
      var s' := Next(s, e);
      assert forall t :: TaskOf(s', t) == TaskOf(s, t);
      assert RegOf(s'.chip, RXQCR) == RegOf(s.chip, RXQCR);
    case SwitchTo(t) => SwitchKeeps(s, t);
    case Call(ops) => CallKeeps(s, ops);
    case Interrupt(ops) => InterruptKeeps(s, ops);
    case Cycle =>
      if s.serving {
        ServerCycleKeeps(s);
      } else {
        TaskCycleKeeps(s);
      }
  }

  predicate Possible(s: Machine, run: seq<Event>)
    decreases |run|
  {
    run != [] ==> Enabled(s, run[0]) && Possible(Next(s, run[0]), run[1..])
  }

  function Exec(s: Machine, run: seq<Event>): (s': Machine)
    requires Possible(s, run)
    decreases |run|
  {
    if run == [] then s else Exec(Next(s, run[0]), run[1..])
  }

  lemma {:induction false} ExclusionInEveryRun(s: Machine, run: seq<Event>)
    requires Inv(s) && Possible(s, run)
    ensures Inv(Exec(s, run))
    decreases |run|
  {
    if run != [] {
      StepKeepsExclusion(s, run[0]);
      ExclusionInEveryRun(Next(s, run[0]), run[1..]);
    }
  }

  /**
   * In every interleaving of any number of tasks, the server and the chip: a data cycle reaches the register its own
   * agent selected last, or the FIFO while that agent itself holds SDA; SDA is set only while its owner is inside
   * Disable or is the server; the finished transfers are, word for word, those their owners made; a task that is
   * between function calls has restored the nesting count; and no read-modify-write of the shared RXQCR is lost.
   */
  lemma Exclusion(regs: map<int, Reg>, run: seq<Event>)
    requires Possible(Initial(regs), run)
    ensures var s := Exec(Initial(regs), run);
            var a := Running(s);
            && (a.rest != [] && (a.rest[0].Get? || a.rest[0].Put? || a.rest[0].PutOr? || a.rest[0].PutAndNot?) ==>
                  a.mode.In? && s.chip.armed == a.mode.armed != NO_REG)
            && (a.rest != [] && (a.rest[0].Push? || a.rest[0].Pull?) ==>
                  a.mode.In? && a.mode.sda && s.chip.armed == NO_REG && SDA in RegOf(s.chip, RXQCR)
                  && s.chip.transfer == a.mode.words)
            && (SDA in RegOf(s.chip, RXQCR) ==> a.mode.In? && a.mode.sda && (s.serving || s.depth > 0))
            && s.chip.log == s.done
            && (!s.serving && TaskOf(s, s.current).rest == [] ==> s.depth == 0 && SDA !in RegOf(s.chip, RXQCR))
            && RegOf(s.chip, RXQCR) - {SDA} == RXQCR_CONFIG
  {
    InitialHolds(regs);
    ExclusionInEveryRun(Initial(regs), run);
    var s := Exec(Initial(regs), run);
    var a := Running(s);
    if a.rest != [] {
      BadStays(a.rest[1..]);
    }
    assert ModeRun(TaskOf(s, s.current).mode, TaskOf(s, s.current).rest) == Out;
  }

  // ---- Whose words ----

  /** The transfers a function finishes from mode m on, read off its own operations. */
  function Transfers(m: Mode, ops: seq<Op>): (r: seq<seq<Access>>)
    decreases |ops|
  {
    if ops == [] then []
    else (if ops[0].PutAndNot? && m.In? && m.armed == RXQCR then [m.words] else []) + Transfers(ModeAfter(m, ops[0]), ops[1..])
  }

  /** A cycle adds to the chip's log exactly what it takes off the transfers its agent still owes. */
  lemma LogPaysWhatIsOwed(s: Machine)
    requires Inv(s) && Enabled(s, Cycle)
    ensures var a, s' := Running(s), Next(s, Cycle);
            var a' := if s.serving then s'.server else TaskOf(s', s.current);
            s'.chip.log + Transfers(a'.mode, a'.rest) == s.chip.log + Transfers(a.mode, a.rest)
  {
    StepKeepsExclusion(s, Cycle);
    var a := Running(s);
    assert Transfers(a.mode, a.rest)
        == (if a.rest[0].PutAndNot? && a.mode.In? && a.mode.armed == RXQCR then [a.mode.words] else [])
           + Transfers(ModeAfter(a.mode, a.rest[0]), a.rest[1..]);
  }

  lemma {:induction false} TransfersConcat(m: Mode, p: seq<Op>, q: seq<Op>)
    ensures Transfers(m, p + q) == Transfers(m, p) + Transfers(ModeRun(m, p), q)
    decreases |p|
  {
    if p == [] {
      assert p + q == q;
    } else {
      assert (p + q)[1..] == p[1..] + q;
      TransfersConcat(ModeAfter(m, p[0]), p[1..], q);
      var head := if p[0].PutAndNot? && m.In? && m.armed == RXQCR then [m.words] else [];
      var m' := ModeAfter(m, p[0]);
      assert head + (Transfers(m', p[1..]) + Transfers(ModeRun(m', p[1..]), q))
          == (head + Transfers(m', p[1..])) + Transfers(ModeRun(m', p[1..]), q);
    }
  }

  lemma {:induction false} NoTransfers(m: Mode, ops: seq<Op>)
    requires forall i :: 0 <= i < |ops| ==> !ops[i].PutAndNot?
    ensures Transfers(m, ops) == []
    decreases |ops|
  {
    if ops != [] {
      NoTransfers(ModeAfter(m, ops[0]), ops[1..]);
    }
  }

  lemma {:induction false} OnlyPushes(words: seq<int>)
    ensures forall i :: 0 <= i < |words| ==> Pushes(words)[i] == Push(words[i])
  {
    if words != [] {
      OnlyPushes(words[1..]);
    }
  }

  /** A send that finds space owes the chip one transfer, of precisely its words; one that finds none owes nothing. */
  lemma SendOwes(words: seq<int>, space: bool)
    ensures Transfers(Out, SendOps(words, space)) == if space then [WroteAll(words)] else []
  {
    var rest := if space then TransferOps(words) else [];
    var before, after := [Disable] + ReadReg(TXMIR), rest + [Enable];
    assert SendOps(words, space) == before + after;
    TransfersConcat(Out, before, after);
    NoTransfers(Out, before);
    ModeRunConcat(Out, [Disable], ReadReg(TXMIR));
    assert ModeRun(Out, [Disable]) == ModeRun(ENTERED, []);
    ReadRegMode(ENTERED, TXMIR);
    var m := ENTERED.(loaded := TXMIR);
    TransfersConcat(m, rest, [Enable]);
    NoTransfers(ModeRun(m, rest), [Enable]);
    if space {
      TransferOwes(m, words);
    } else {
      NoTransfers(m, rest);
    }
  }

  lemma TransferOwes(m: Mode, words: seq<int>)
    requires Calm(m)
    ensures Transfers(m, TransferOps(words)) == [WroteAll(words)]
  {
    var open := m.(loaded := NO_REG, sda := true, words := []);
    ModifyMode(m, RXQCR, PutOr({SDA}));
    var rest := Pushes(words) + (ClearBit(RXQCR, {SDA}) + SetBit(TXQCR, {0}));
    TransfersConcat(m, SetBit(RXQCR, {SDA}), rest);
    NoTransfers(m, SetBit(RXQCR, {SDA}));
    OpenOwes(open, words);
  }

  lemma OpenOwes(m: Mode, words: seq<int>)
    requires m.In? && m.armed == NO_REG && m.sda && m.words == []
    ensures Transfers(m, Pushes(words) + (ClearBit(RXQCR, {SDA}) + SetBit(TXQCR, {0}))) == [WroteAll(words)]
  {
    var close, start := ClearBit(RXQCR, {SDA}), SetBit(TXQCR, {0});
    PushesMode(m, words);
    var full := m.(words := m.words + WroteAll(words));
    assert full.words == WroteAll(words);
    TransfersConcat(m, Pushes(words), close + start);
    OnlyPushes(words);
    NoTransfers(m, Pushes(words));
    TransfersConcat(full, close, start);
    NoTransfers(ModeRun(full, close), start);
    CloseOwes(full);
  }

  lemma CloseOwes(m: Mode)
    requires m.In? && m.armed == NO_REG && m.sda
    ensures Transfers(m, ClearBit(RXQCR, {SDA})) == [m.words]
  {
    var front, last := [Select(RXQCR), Get, Select(RXQCR)], PutAndNot({SDA});
    assert ClearBit(RXQCR, {SDA}) == front + [last];
    TransfersConcat(m, front, [last]);
    NoTransfers(m, front);
    assert front == [Select(RXQCR), Get] + [Select(RXQCR)];
    ModeRunConcat(m, [Select(RXQCR), Get], [Select(RXQCR)]);
    TwoOps(m, Select(RXQCR), Get);
    var m' := m.(loaded := RXQCR);
    assert ModeRun(m', [Select(RXQCR)]) == ModeRun(ModeAfter(m', Select(RXQCR)), []);
    var m'' := m'.(armed := RXQCR);
    assert Transfers(m'', [last]) == [m''.words] + Transfers(ModeAfter(m'', last), []);
  }
}
