/** What the driver's operation sequences do to the chip's registers when nothing comes between them. */
module BusEffects {
  import opened BusExclusion

  /** The chip and the value last read, after the operations. */
  function Performed(c: Chip, acc: Reg, ops: seq<Op>): (r: (Chip, Reg))
    decreases |ops|
  {
    if ops == [] then (c, acc)
    else Performed(ChipCycle(c, acc, ops[0]), if ops[0].Get? then RegOf(c, c.armed) else acc, ops[1..])
  }

  /** No selection pending, no transfer open. */
  predicate CalmChip(c: Chip) {
    c.armed == NO_REG && SDA !in RegOf(c, RXQCR)
  }

  lemma {:induction false} PerformedConcat(c: Chip, acc: Reg, p: seq<Op>, q: seq<Op>)
    ensures var (c', acc') := Performed(c, acc, p); Performed(c, acc, p + q) == Performed(c', acc', q)
    decreases |p|
  {
    hide ChipCycle;
    if p == [] {
      assert p + q == q;
    } else {
      assert (p + q)[1..] == p[1..] + q;
      PerformedConcat(ChipCycle(c, acc, p[0]), if p[0].Get? then RegOf(c, c.armed) else acc, p[1..], q);
    }
  }

  lemma PerformOne(c: Chip, acc: Reg, op: Op)
    ensures Performed(c, acc, [op]) == (ChipCycle(c, acc, op), if op.Get? then RegOf(c, c.armed) else acc)
  {
    assert [op][1..] == [];
  }

  lemma PerformTwo(c: Chip, acc: Reg, a: Op, b: Op)
    ensures var c1, acc1 := ChipCycle(c, acc, a), if a.Get? then RegOf(c, c.armed) else acc;
            Performed(c, acc, [a, b]) == (ChipCycle(c1, acc1, b), if b.Get? then RegOf(c1, c1.armed) else acc1)
  {
    hide ChipCycle;
    assert [a, b] == [a] + [b];
    PerformedConcat(c, acc, [a], [b]);
    PerformOne(c, acc, a);
    PerformOne(ChipCycle(c, acc, a), if a.Get? then RegOf(c, c.armed) else acc, b);
  }

  lemma ReadEffect(c: Chip, acc: Reg, r: int)
    requires c.armed == NO_REG && r != NO_REG
    ensures Performed(c, acc, ReadReg(r)) == (c, RegOf(c, r))
  {
    PerformTwo(c, acc, Select(r), Get);
  }

  lemma WriteEffect(c: Chip, acc: Reg, r: int, v: Reg)
    requires c.armed == NO_REG && r != NO_REG
    ensures Performed(c, acc, WriteRegOps(r, v)) == (WriteReg(c, r, v), acc)
  {
    PerformTwo(c, acc, Select(r), Put(v));
  }

  lemma ModifyEffect(c: Chip, acc: Reg, r: int, bits: Reg)
    requires c.armed == NO_REG && r != NO_REG
    ensures Performed(c, acc, SetBit(r, bits)) == (WriteReg(c, r, RegOf(c, r) + bits), RegOf(c, r))
    ensures Performed(c, acc, ClearBit(r, bits)) == (WriteReg(c, r, RegOf(c, r) - bits), RegOf(c, r))
  {
    var set_, clear := [Select(r), PutOr(bits)], [Select(r), PutAndNot(bits)];
    assert SetBit(r, bits) == ReadReg(r) + set_ && ClearBit(r, bits) == ReadReg(r) + clear;
    ReadEffect(c, acc, r);
    PerformedConcat(c, acc, ReadReg(r), set_);
    PerformedConcat(c, acc, ReadReg(r), clear);
    PerformTwo(c, RegOf(c, r), Select(r), PutOr(bits));
    PerformTwo(c, RegOf(c, r), Select(r), PutAndNot(bits));
  }

  lemma {:induction false} PushEffect(c: Chip, acc: Reg, words: seq<int>)
    requires c.armed == NO_REG && SDA in RegOf(c, RXQCR)
    ensures Performed(c, acc, Pushes(words)) == (c.(transfer := c.transfer + WroteAll(words)), acc)
    decreases |words|
  {
    if words == [] {
      assert c.transfer + WroteAll(words) == c.transfer;
    } else {
      PushEffect(c.(transfer := c.transfer + [Wrote(words[0])]), acc, words[1..]);
      assert c.transfer + [Wrote(words[0])] + WroteAll(words[1..]) == c.transfer + WroteAll(words);
    }
  }

  lemma {:induction false} PullEffect(c: Chip, acc: Reg, n: nat)
    requires c.armed == NO_REG && SDA in RegOf(c, RXQCR)
    ensures Performed(c, acc, Pulls(n)) == (c.(transfer := c.transfer + seq(n, i => Took)), acc)
    decreases n
  {
    if n == 0 {
      assert c.transfer + seq(n, i => Took) == c.transfer;
    } else {
      PullEffect(c.(transfer := c.transfer + [Took]), acc, n - 1);
      assert c.transfer + [Took] + seq(n - 1, i => Took) == c.transfer + seq(n, i => Took);
    }
  }

  // ---- Sending ----

  /** A send that finds room adds its words as one transfer to the chip's log and starts it by bit 0 of TXQCR. */
  lemma SendEffect(c: Chip, words: seq<int>, space: bool)
    requires CalmChip(c)
    ensures var c' := Performed(c, {}, SendOps(words, space)).0;
            && CalmChip(c') && RegOf(c', RXFDPR) == RegOf(c, RXFDPR)
            && (space ==> c'.log == c.log + [WroteAll(words)] && 0 in RegOf(c', TXQCR))
            && (!space ==> c' == c)
  {
    var rest := (if space then TransferOps(words) else []) + [Enable];
    PerformedConcat(c, {}, [Disable], ReadReg(TXMIR) + rest);
    PerformOne(c, {}, Disable);
    PerformedConcat(c, {}, ReadReg(TXMIR), rest);
    ReadEffect(c, {}, TXMIR);
    var acc := RegOf(c, TXMIR);
    PerformedConcat(c, acc, if space then TransferOps(words) else [], [Enable]);
    TransferEffect(c, acc, words);
    var (c', acc') := Performed(c, acc, if space then TransferOps(words) else []);
    PerformOne(c', acc', Enable);
  }

  lemma TransferEffect(c: Chip, acc: Reg, words: seq<int>)
    requires CalmChip(c)
    ensures var c' := Performed(c, acc, TransferOps(words)).0;
            && CalmChip(c') && RegOf(c', RXFDPR) == RegOf(c, RXFDPR)
            && c'.log == c.log + [WroteAll(words)] && 0 in RegOf(c', TXQCR)
  {
    var close, start := ClearBit(RXQCR, {SDA}), SetBit(TXQCR, {0});
    ModifyEffect(c, acc, RXQCR, {SDA});
    var c1, acc1 := WriteReg(c, RXQCR, RegOf(c, RXQCR) + {SDA}), RegOf(c, RXQCR);
    PushEffect(c1, acc1, words);
    var c2 := c1.(transfer := c1.transfer + WroteAll(words));
    assert c2.transfer == WroteAll(words);
    TransferCloses(c2, acc1);
    hide Performed, TransferOps, SetBit, ClearBit, Pushes;
    TransferChain(c, acc, words);
    PerformedConcat(c, acc, SetBit(RXQCR, {SDA}), Pushes(words) + (close + start));
    PerformedConcat(c1, acc1, Pushes(words), close + start);
  }

  lemma TransferCloses(c: Chip, acc: Reg)
    requires c.armed == NO_REG && SDA in RegOf(c, RXQCR)
    ensures var c' := Performed(c, acc, ClearBit(RXQCR, {SDA}) + SetBit(TXQCR, {0})).0;
            && CalmChip(c') && RegOf(c', RXFDPR) == RegOf(c, RXFDPR)
            && c'.log == c.log + [c.transfer] && 0 in RegOf(c', TXQCR)
  {
    ModifyEffect(c, acc, RXQCR, {SDA});
    var c1, acc1 := WriteReg(c, RXQCR, RegOf(c, RXQCR) - {SDA}), RegOf(c, RXQCR);
    ModifyEffect(c1, acc1, TXQCR, {0});
    PerformedConcat(c, acc, ClearBit(RXQCR, {SDA}), SetBit(TXQCR, {0}));
  }

  lemma TransferChain(c: Chip, acc: Reg, words: seq<int>)
    ensures TransferOps(words)
            == SetBit(RXQCR, {SDA}) + (Pushes(words) + (ClearBit(RXQCR, {SDA}) + SetBit(TXQCR, {0})))
  {
  }

  // ---- The endian mode ----

  /** Bit 11 of RXFDPR: the chip swaps the bytes of every word that passes its data port. */
  predicate InBigEndian(c: Chip) {
    11 in RegOf(c, RXFDPR)
  }

  /** On a calm chip in the given mode the operations end with the chip calm and in that mode. */
  ghost predicate KeepsMode(ops: seq<Op>, big: bool) {
    forall c, acc :: CalmChip(c) && (InBigEndian(c) <==> big) ==>
                       var c' := Performed(c, acc, ops).0; CalmChip(c') && (InBigEndian(c') <==> big)
  }

  /** From a calm chip in any mode the operations end with bit 14 of RXFDPR set, and bit 11 as the mode says. */
  ghost predicate SetsMode(ops: seq<Op>, big: bool) {
    forall c, acc :: CalmChip(c) ==>
                       var c' := Performed(c, acc, ops).0;
                       CalmChip(c') && 14 in RegOf(c', RXFDPR) && (InBigEndian(c') <==> big)
  }

  lemma KeepsModeConcat(p: seq<Op>, q: seq<Op>, big: bool)
    requires KeepsMode(p, big) && KeepsMode(q, big)
    ensures KeepsMode(p + q, big)
  {
    forall c, acc | CalmChip(c) && (InBigEndian(c) <==> big)
      ensures var c' := Performed(c, acc, p + q).0; CalmChip(c') && (InBigEndian(c') <==> big)
    {
      PerformedConcat(c, acc, p, q);
      var (c1, acc1) := Performed(c, acc, p);
      assert CalmChip(c1) && (InBigEndian(c1) <==> big);
    }
  }

  lemma SetsKeeps(ops: seq<Op>, big: bool)
    requires SetsMode(ops, big)
    ensures KeepsMode(ops, big)
  {
  }

  lemma BlocksKeepMode(r: int, v: Reg, big: bool)
    requires r != NO_REG && r != RXQCR && r != RXFDPR
    ensures KeepsMode(ReadReg(r), big) && KeepsMode(WriteRegOps(r, v), big)
    ensures KeepsMode(SetBit(r, v), big) && KeepsMode(ClearBit(r, v), big)
    ensures KeepsMode(SetBit(RXQCR, {RRXEF}), big) && KeepsMode([], big) && KeepsMode([Disable], big) && KeepsMode([Enable], big)
  {
    forall c, acc | CalmChip(c) && (InBigEndian(c) <==> big)
      ensures var d := Performed(c, acc, ReadReg(r)).0; CalmChip(d) && (InBigEndian(d) <==> big)
      ensures var d := Performed(c, acc, WriteRegOps(r, v)).0; CalmChip(d) && (InBigEndian(d) <==> big)
      ensures var d := Performed(c, acc, SetBit(r, v)).0; CalmChip(d) && (InBigEndian(d) <==> big)
      ensures var d := Performed(c, acc, ClearBit(r, v)).0; CalmChip(d) && (InBigEndian(d) <==> big)
      ensures var d := Performed(c, acc, SetBit(RXQCR, {RRXEF})).0; CalmChip(d) && (InBigEndian(d) <==> big)
      ensures Performed(c, acc, []).0 == Performed(c, acc, [Disable]).0 == Performed(c, acc, [Enable]).0 == c
    {
      ReadEffect(c, acc, r);
      WriteEffect(c, acc, r, v);
      ModifyEffect(c, acc, r, v);
      ModifyEffect(c, acc, RXQCR, {RRXEF});
      PerformOne(c, acc, Disable);
      PerformOne(c, acc, Enable);
      hide Performed;
    }
  }

  lemma PulledMode(c: Chip, acc: Reg, n: nat)
    requires CalmChip(c)
    ensures var ops := SetBit(RXQCR, {SDA}) + (Pulls(n) + (ClearBit(RXQCR, {SDA}) + [Enable, Disable]));
            var c' := Performed(c, acc, ops).0;
            CalmChip(c') && RegOf(c', RXFDPR) == RegOf(c, RXFDPR)
            && RegOf(c', ISR) == RegOf(c, ISR) && RegOf(c', IER) == RegOf(c, IER)
  {
    var open, close, rest := SetBit(RXQCR, {SDA}), ClearBit(RXQCR, {SDA}), [Enable, Disable];
    ModifyEffect(c, acc, RXQCR, {SDA});
    var c1, acc1 := WriteReg(c, RXQCR, RegOf(c, RXQCR) + {SDA}), RegOf(c, RXQCR);
    PullEffect(c1, acc1, n);
    var c2 := c1.(transfer := c1.transfer + seq(n, i => Took));
    ModifyEffect(c2, acc1, RXQCR, {SDA});
    var c3, acc3 := WriteReg(c2, RXQCR, RegOf(c2, RXQCR) - {SDA}), RegOf(c2, RXQCR);
    PerformTwo(c3, acc3, Enable, Disable);
    hide Performed, SetBit, ClearBit, Pulls;
    PerformedConcat(c, acc, open, Pulls(n) + (close + rest));
    PerformedConcat(c1, acc1, Pulls(n), close + rest);
    PerformedConcat(c2, acc1, close, rest);
  }

  /** A good reception leaves the frame pointer register as it was written in it. */
  lemma GoodSetsMode(pointer: Reg, n: nat, big: bool)
    requires 14 in pointer && (11 in pointer <==> big)
    ensures SetsMode(ReceiveOps(Good(pointer, n)), big)
  {
    var status, count, point := ReadReg(RXFHSR), ReadReg(RXFHBCR), WriteRegOps(RXFDPR, pointer);
    var pull := SetBit(RXQCR, {SDA}) + (Pulls(3 + n) + (ClearBit(RXQCR, {SDA}) + [Enable, Disable]));
    assert ReceiveOps(Good(pointer, n)) == status + (count + (point + pull));
    forall c, acc | CalmChip(c)
      ensures var c' := Performed(c, acc, ReceiveOps(Good(pointer, n))).0;
              CalmChip(c') && 14 in RegOf(c', RXFDPR) && (InBigEndian(c') <==> big)
    {
      ReadEffect(c, acc, RXFHSR);
      var acc1, acc2 := RegOf(c, RXFHSR), RegOf(c, RXFHBCR);
      ReadEffect(c, acc1, RXFHBCR);
      WriteEffect(c, acc2, RXFDPR, pointer);
      var c1 := WriteReg(c, RXFDPR, pointer);
      PulledMode(c1, acc2, 3 + n);
      hide Performed, ReadReg, WriteRegOps, Pulls, SetBit, ClearBit, ReceiveOps;
      PerformedConcat(c, acc, status, count + (point + pull));
      PerformedConcat(c, acc1, count, point + pull);
      PerformedConcat(c, acc2, point, pull);
    }
  }

  lemma OtherReceptionsKeepMode(r: Reception, big: bool)
    requires !r.Good?
    ensures KeepsMode(ReceiveOps(r), big)
  {
    BlocksKeepMode(RXFHSR, {}, big);
    BlocksKeepMode(RXFHBCR, {}, big);
    var release := SetBit(RXQCR, {RRXEF});
    hide KeepsMode;
    KeepsModeConcat(ReadReg(RXFHSR), release, big);
    KeepsModeConcat(ReadReg(RXFHBCR), release, big);
    KeepsModeConcat(ReadReg(RXFHSR), ReadReg(RXFHBCR) + release, big);
  }

  /** The handler as a whole keeps the mode if its receptions do. */
  lemma HandlerKeepsMode(link: bool, rx: bool, rs: seq<Reception>, overrun: bool, mask: Reg, big: bool)
    requires KeepsMode(ReceiveAllOps(rs), big)
    ensures KeepsMode(HandlerOps(link, rx, rs, overrun, mask), big)
  {
    BlocksKeepMode(ISR, {15}, big);
    BlocksKeepMode(ISR, {13}, big);
    BlocksKeepMode(ISR, {11}, big);
    BlocksKeepMode(P1SR, {}, big);
    BlocksKeepMode(RXFCTR, {}, big);
    BlocksKeepMode(IER, mask, big);
    hide KeepsMode, SetBit, ReadReg, WriteRegOps, ReceiveAllOps;
    var a := if link then WriteRegOps(ISR, {15}) + ReadReg(P1SR) else [];
    KeepsModeConcat(WriteRegOps(ISR, {15}), ReadReg(P1SR), big);
    KeepsModeConcat(ReadReg(RXFCTR), ReceiveAllOps(rs), big);
    KeepsModeConcat(WriteRegOps(ISR, {13}), ReadReg(RXFCTR) + ReceiveAllOps(rs), big);
    var b := if rx then WriteRegOps(ISR, {13}) + (ReadReg(RXFCTR) + ReceiveAllOps(rs)) else [];
    var d := if overrun then SetBit(ISR, {11}) else [];
    var e := SetBit(IER, mask) + [Enable];
    KeepsModeConcat(SetBit(IER, mask), [Enable], big);
    KeepsModeConcat(d, e, big);
    KeepsModeConcat(b, d + e, big);
    KeepsModeConcat(a, b + (d + e), big);
    KeepsModeConcat(ReadReg(ISR), a + (b + (d + e)), big);
    KeepsModeConcat([Disable], ReadReg(ISR) + (a + (b + (d + e))), big);
  }

  // ---- The interrupt registers ----

  /** What the interrupt registers hold. */
  datatype Causes = Causes(isr: Reg, ier: Reg)

  predicate Holds(c: Chip, s: Causes) {
    CalmChip(c) && RegOf(c, ISR) == s.isr && RegOf(c, IER) == s.ier
  }

  /** On a calm chip the operations take the interrupt registers from the one state to the other. */
  ghost predicate Carries(ops: seq<Op>, s: Causes, s': Causes) {
    forall c, acc :: Holds(c, s) ==> Holds(Performed(c, acc, ops).0, s')
  }

  lemma CarriesConcat(p: seq<Op>, q: seq<Op>, s: Causes, s1: Causes, s': Causes)
    requires Carries(p, s, s1) && Carries(q, s1, s')
    ensures Carries(p + q, s, s')
  {
    forall c, acc | Holds(c, s) ensures Holds(Performed(c, acc, p + q).0, s') {
      PerformedConcat(c, acc, p, q);
      var (c1, acc1) := Performed(c, acc, p);
      assert Holds(c1, s1);
    }
  }

  lemma CarriedApart(r: int, v: Reg, s: Causes)
    requires r != NO_REG && r != RXQCR && r != ISR && r != IER && r != PMECR
    ensures Carries(ReadReg(r), s, s) && Carries(WriteRegOps(r, v), s, s)
    ensures Carries(SetBit(r, v), s, s) && Carries(ClearBit(r, v), s, s)
    ensures Carries(SetBit(RXQCR, {RRXEF}), s, s) && Carries([], s, s) && Carries([Disable], s, s) && Carries([Enable], s, s)
  {
    forall c, acc | Holds(c, s)
      ensures Holds(Performed(c, acc, ReadReg(r)).0, s) && Holds(Performed(c, acc, WriteRegOps(r, v)).0, s)
      ensures Holds(Performed(c, acc, SetBit(r, v)).0, s) && Holds(Performed(c, acc, ClearBit(r, v)).0, s)
      ensures Holds(Performed(c, acc, SetBit(RXQCR, {RRXEF})).0, s)
      ensures Performed(c, acc, []).0 == Performed(c, acc, [Disable]).0 == Performed(c, acc, [Enable]).0 == c
    {
      ReadEffect(c, acc, r);
      WriteEffect(c, acc, r, v);
      ModifyEffect(c, acc, r, v);
      ModifyEffect(c, acc, RXQCR, {RRXEF});
      PerformOne(c, acc, Disable);
      PerformOne(c, acc, Enable);
      hide Performed;
    }
  }

  /** Writing causes clears them; a read-modify-write clears with them whatever is pending; PMECR clears link-up. */
  lemma CarriedCauses(v: Reg, s: Causes)
    ensures Carries(ReadReg(ISR), s, s) && Carries(ReadReg(IER), s, s)
    ensures Carries(WriteRegOps(ISR, v), s, s.(isr := s.isr - v)) && Carries(WriteRegOps(IER, v), s, s.(ier := v))
    ensures Carries(SetBit(ISR, v), s, s.(isr := {})) && Carries(SetBit(IER, v), s, s.(ier := s.ier + v))
    ensures Carries(SetBit(PMECR, {LINK_UP}), s, s.(isr := s.isr - {LINK_UP}))
  {
    forall c, acc | Holds(c, s)
      ensures Holds(Performed(c, acc, ReadReg(ISR)).0, s) && Holds(Performed(c, acc, ReadReg(IER)).0, s)
      ensures Holds(Performed(c, acc, WriteRegOps(ISR, v)).0, s.(isr := s.isr - v))
      ensures Holds(Performed(c, acc, WriteRegOps(IER, v)).0, s.(ier := v))
      ensures Holds(Performed(c, acc, SetBit(ISR, v)).0, s.(isr := {}))
      ensures Holds(Performed(c, acc, SetBit(IER, v)).0, s.(ier := s.ier + v))
      ensures Holds(Performed(c, acc, SetBit(PMECR, {LINK_UP})).0, s.(isr := s.isr - {LINK_UP}))
    {
      ReadEffect(c, acc, ISR);
      ReadEffect(c, acc, IER);
      WriteEffect(c, acc, ISR, v);
      WriteEffect(c, acc, IER, v);
      ModifyEffect(c, acc, ISR, v);
      ModifyEffect(c, acc, IER, v);
      ModifyEffect(c, acc, PMECR, {LINK_UP});
      hide Performed;
    }
  }

  /** The server, executed: a claiming one acknowledges transmission and link-up and leaves IER as told. */
  lemma ServerCarries(s: Causes, claims: bool, tx: bool, linkUp: bool, ier: Reg)
    ensures Carries(ServerOps(claims, tx, linkUp, ier), s,
                    if !claims then s
                    else Causes(s.isr - (if tx then {14} else {}) - (if linkUp then {3} else {}), ier))
  {
    var masked := s.(ier := {});
    var acked := if tx then masked.(isr := s.isr - {14}) else masked;
    var woken := if linkUp then acked.(isr := acked.isr - {3}) else acked;
    assert woken.isr == s.isr - (if tx then {14} else {}) - (if linkUp then {3} else {});
    CarriedCauses({}, s);
    CarriedCauses({14}, masked);
    CarriedCauses({}, acked);
    CarriedCauses(ier, woken);
    CarriedApart(TXMIR, {}, s);
    CarriedApart(TXMIR, {}, masked);
    CarriedApart(TXMIR, {}, acked);
    hide Carries, SetBit, ReadReg, WriteRegOps;
    var a := if tx then WriteRegOps(ISR, {14}) else [];
    var b := if linkUp then SetBit(PMECR, {3}) else [];
    var last := WriteRegOps(IER, ier);
    CarriesConcat(b, last, acked, woken, woken.(ier := ier));
    CarriesConcat(a, b + last, masked, acked, woken.(ier := ier));
    CarriesConcat(WriteRegOps(IER, {}), a + (b + last), s, masked, woken.(ier := ier));
    var taken := if claims then WriteRegOps(IER, {}) + (a + (b + last)) else [];
    var s' := if claims then woken.(ier := ier) else s;
    CarriesConcat(ReadReg(IER), taken, s, s, s');
    CarriesConcat(ReadReg(ISR), ReadReg(IER) + taken, s, s, s');
  }

  lemma ReceptionCarries(r: Reception, s: Causes)
    ensures Carries(ReceiveOps(r), s, s)
  {
    CarriedApart(RXFHSR, {}, s);
    CarriedApart(RXFHBCR, {}, s);
    var status, count, release := ReadReg(RXFHSR), ReadReg(RXFHBCR), SetBit(RXQCR, {RRXEF});
    match r {
      case Ignored =>
      case Released => CarriesConcat(status, release, s, s, s);
      case Oversized =>
        CarriesConcat(count, release, s, s, s);
        CarriesConcat(status, count + release, s, s, s);
      case Good(pointer, n) =>
        var point := WriteRegOps(RXFDPR, pointer);
        var pull := SetBit(RXQCR, {SDA}) + (Pulls(3 + n) + (ClearBit(RXQCR, {SDA}) + [Enable, Disable]));
        CarriedApart(RXFDPR, pointer, s);
        assert Carries(pull, s, s) by {
          forall c, acc | Holds(c, s) ensures Holds(Performed(c, acc, pull).0, s) {
            PulledMode(c, acc, 3 + n);
          }
        }
        hide Carries, SetBit, ReadReg, WriteRegOps;
        CarriesConcat(point, pull, s, s, s);
        CarriesConcat(count, point + pull, s, s, s);
        CarriesConcat(status, count + (point + pull), s, s, s);
    }
  }

  lemma {:induction false} ReceptionsCarry(rs: seq<Reception>, s: Causes)
    ensures Carries(ReceiveAllOps(rs), s, s)
    decreases |rs|
  {
    hide ReceiveOps;
    if rs != [] {
      ReceptionCarries(rs[0], s);
      ReceptionsCarry(rs[1..], s);
      CarriesConcat(ReceiveOps(rs[0]), ReceiveAllOps(rs[1..]), s, s, s);
    }
  }

  /** What the handler's acknowledgements leave pending: an overrun takes every other cause with it. */
  function Acknowledged(isr: Reg, link: bool, rx: bool, overrun: bool): (r: Reg) {
    if overrun then {} else isr - (if link then {15} else {}) - (if rx then {13} else {})
  }

  /** The handler, executed. */
  lemma HandlerCarries(s: Causes, link: bool, rx: bool, rs: seq<Reception>, overrun: bool, mask: Reg)
    ensures Carries(HandlerOps(link, rx, rs, overrun, mask), s, Causes(Acknowledged(s.isr, link, rx, overrun), s.ier + mask))
  {
    var s1 := if link then s.(isr := s.isr - {15}) else s;
    var s2 := if rx then s1.(isr := s1.isr - {13}) else s1;
    var s3 := if overrun then s2.(isr := {}) else s2;
    assert s3 == s.(isr := Acknowledged(s.isr, link, rx, overrun));
    var s4 := s3.(ier := s3.ier + mask);
    CarriedCauses({15}, s);
    CarriedCauses({13}, s1);
    CarriedCauses({11}, s2);
    CarriedCauses(mask, s3);
    CarriedApart(P1SR, {}, s);
    CarriedApart(P1SR, {}, s1);
    CarriedApart(RXFCTR, {}, s2);
    CarriedApart(RXFCTR, {}, s4);
    ReceptionsCarry(rs, s2);
    hide Carries, SetBit, ReadReg, WriteRegOps, ReceiveAllOps;
    var a := if link then WriteRegOps(ISR, {15}) + ReadReg(P1SR) else [];
    var linked := s.(isr := s.isr - {15});
    CarriedApart(P1SR, {}, linked);
    CarriesConcat(WriteRegOps(ISR, {15}), ReadReg(P1SR), s, linked, linked);
    var counted := ReadReg(RXFCTR) + ReceiveAllOps(rs);
    var received := s1.(isr := s1.isr - {13});
    CarriedApart(RXFCTR, {}, received);
    ReceptionsCarry(rs, received);
    CarriesConcat(ReadReg(RXFCTR), ReceiveAllOps(rs), received, received, received);
    CarriesConcat(WriteRegOps(ISR, {13}), counted, s1, received, received);
    var b := if rx then WriteRegOps(ISR, {13}) + counted else [];
    CarriedApart(P1SR, {}, s2);
    var d := if overrun then SetBit(ISR, {11}) else [];
    CarriesConcat(SetBit(IER, mask), [Enable], s3, s4, s4);
    CarriesConcat(d, SetBit(IER, mask) + [Enable], s2, s3, s4);
    CarriesConcat(b, d + (SetBit(IER, mask) + [Enable]), s1, s2, s4);
    CarriesConcat(a, b + (d + (SetBit(IER, mask) + [Enable])), s, s1, s4);
    CarriesConcat(ReadReg(ISR), a + (b + (d + (SetBit(IER, mask) + [Enable]))), s, s, s4);
    CarriesConcat([Disable], ReadReg(ISR) + (a + (b + (d + (SetBit(IER, mask) + [Enable])))), s, s, s4);
  }

  // ---- Online, offline, address ----

  /** The chip after bits of a register were set, and after they were cleared, by reading it and writing it back. */
  function Set(c: Chip, r: int, bits: Reg): (c': Chip)
    ensures c'.armed == NO_REG
  {
    WriteReg(c, r, RegOf(c, r) + bits)
  }

  function Reset(c: Chip, r: int, bits: Reg): (c': Chip)
    ensures c'.armed == NO_REG
  {
    WriteReg(c, r, RegOf(c, r) - bits)
  }

  lemma SetOthers(c: Chip, r: int, bits: Reg)
    requires r != PMECR && r != RXQCR
    ensures RegOf(Set(c, r, bits), r) == if r == ISR then RegOf(c, r) - (RegOf(c, r) + bits) else RegOf(c, r) + bits
    ensures forall q :: q != r ==> RegOf(Set(c, r, bits), q) == RegOf(c, q)
  {
  }

  lemma ResetOthers(c: Chip, r: int, bits: Reg)
    requires r != PMECR && r != RXQCR && r != ISR
    ensures RegOf(Reset(c, r, bits), r) == RegOf(c, r) - bits
    ensures forall q :: q != r ==> RegOf(Reset(c, r, bits), q) == RegOf(c, q)
  {
  }

  lemma WriteOthers(c: Chip, r: int, v: Reg)
    requires r != PMECR && r != RXQCR && r != ISR
    ensures RegOf(WriteReg(c, r, v), r) == v
    ensures forall q :: q != r ==> RegOf(WriteReg(c, r, v), q) == RegOf(c, q)
  {
  }

  lemma SetBitNext(c: Chip, acc: Reg, r: int, bits: Reg, rest: seq<Op>)
    requires c.armed == NO_REG && r != NO_REG
    ensures Performed(c, acc, SetBit(r, bits) + rest) == Performed(Set(c, r, bits), RegOf(c, r), rest)
  {
    ModifyEffect(c, acc, r, bits);
    PerformedConcat(c, acc, SetBit(r, bits), rest);
  }

  lemma ClearBitNext(c: Chip, acc: Reg, r: int, bits: Reg, rest: seq<Op>)
    requires c.armed == NO_REG && r != NO_REG
    ensures Performed(c, acc, ClearBit(r, bits) + rest) == Performed(Reset(c, r, bits), RegOf(c, r), rest)
  {
    ModifyEffect(c, acc, r, bits);
    PerformedConcat(c, acc, ClearBit(r, bits), rest);
  }

  lemma WriteNext(c: Chip, acc: Reg, r: int, v: Reg, rest: seq<Op>)
    requires c.armed == NO_REG && r != NO_REG
    ensures Performed(c, acc, WriteRegOps(r, v) + rest) == Performed(WriteReg(c, r, v), acc, rest)
  {
    WriteEffect(c, acc, r, v);
    PerformedConcat(c, acc, WriteRegOps(r, v), rest);
  }

  lemma EnterNext(c: Chip, acc: Reg, rest: seq<Op>)
    ensures Performed(c, acc, [Disable] + rest) == Performed(c, acc, rest) && Performed(c, acc, [Enable]).0 == c
  {
    PerformOne(c, acc, Disable);
    PerformOne(c, acc, Enable);
    PerformedConcat(c, acc, [Disable], rest);
  }

  /**
   * Going online clears every pending cause, adds link change, receive and overrun to the enabled ones, and switches
   * transmitter and receiver on; the other bits of those registers and all other registers stay.
   */
  lemma OnlineEffect(c: Chip, acc: Reg)
    requires CalmChip(c)
    ensures var c' := Performed(c, acc, OnlineOps()).0;
            && Holds(c', Causes({}, RegOf(c, IER) + {15, 13, 11}))
            && RegOf(c', TXCR) == RegOf(c, TXCR) + {0} && RegOf(c', RXCR1) == RegOf(c, RXCR1) + {0}
            && forall r :: r != ISR && r != IER && r != TXCR && r != RXCR1 ==> RegOf(c', r) == RegOf(c, r)
  {
    var all: Reg := {15, 14, 13, 11, 9, 8, 6, 5, 4, 3, 2, 1};
    var c1 := Set(c, ISR, all);
    var c2 := Set(c1, IER, {15, 13, 11});
    var c3 := Set(c2, TXCR, {0});
    var last := SetBit(RXCR1, {0}) + [Enable];
    var rest := SetBit(IER, {15, 13, 11}) + (SetBit(TXCR, {0}) + last);
    assert OnlineOps() == [Disable] + (SetBit(ISR, all) + rest);
    assert RegOf(c, ISR) - (RegOf(c, ISR) + all) == {};
    SetOthers(c, ISR, all);
    SetOthers(c1, IER, {15, 13, 11});
    SetOthers(c2, TXCR, {0});
    SetOthers(c3, RXCR1, {0});
    hide Performed, SetBit, Set, WriteReg, RegOf;
    EnterNext(c, acc, SetBit(ISR, all) + rest);
    SetBitNext(c, acc, ISR, all, rest);
    SetBitNext(c1, RegOf(c, ISR), IER, {15, 13, 11}, SetBit(TXCR, {0}) + last);
    SetBitNext(c2, RegOf(c1, IER), TXCR, {0}, last);
    SetBitNext(c3, RegOf(c2, TXCR), RXCR1, {0}, [Enable]);
    EnterNext(Set(c3, RXCR1, {0}), RegOf(c3, RXCR1), []);
  }

  /** Going offline enables no cause, switches both directions off and leaves pending causes and all else alone. */
  lemma OfflineEffect(c: Chip)
    requires CalmChip(c)
    ensures var c' := Performed(c, {}, OfflineOps()).0;
            && Holds(c', Causes(RegOf(c, ISR), {}))
            && RegOf(c', TXCR) == RegOf(c, TXCR) - {0} && RegOf(c', RXCR1) == RegOf(c, RXCR1) - {0}
            && forall r :: r != IER && r != TXCR && r != RXCR1 ==> RegOf(c', r) == RegOf(c, r)
  {
    var c1 := WriteReg(c, IER, {});
    var c2 := Reset(c1, TXCR, {0});
    var last := ClearBit(RXCR1, {0}) + [Enable];
    assert OfflineOps() == [Disable] + (WriteRegOps(IER, {}) + (ClearBit(TXCR, {0}) + last));
    WriteOthers(c, IER, {});
    ResetOthers(c1, TXCR, {0});
    ResetOthers(c2, RXCR1, {0});
    hide Performed, ClearBit, WriteRegOps, Reset, WriteReg, RegOf;
    EnterNext(c, {}, WriteRegOps(IER, {}) + (ClearBit(TXCR, {0}) + last));
    WriteNext(c, {}, IER, {}, ClearBit(TXCR, {0}) + last);
    ClearBitNext(c1, {}, TXCR, {0}, last);
    ClearBitNext(c2, RegOf(c1, TXCR), RXCR1, {0}, [Enable]);
    EnterNext(Reset(c2, RXCR1, {0}), RegOf(c2, RXCR1), []);
  }

  /** Setting the address puts its three words into their registers and touches nothing else. */
  lemma AddressEffect(c: Chip, high: Reg, middle: Reg, low: Reg)
    requires CalmChip(c)
    ensures var c' := Performed(c, {}, SetAddressOps(high, middle, low)).0;
            && CalmChip(c') && RegOf(c', 0x14) == high && RegOf(c', 0x12) == middle && RegOf(c', 0x10) == low
            && forall r :: r != 0x14 && r != 0x12 && r != 0x10 ==> RegOf(c', r) == RegOf(c, r)
  {
    var c1 := WriteReg(c, MARH, high);
    var c2 := WriteReg(c1, MARM, middle);
    var c3 := WriteReg(c2, MARL, low);
    var last := WriteRegOps(MARL, low) + [Enable];
    assert SetAddressOps(high, middle, low) == [Disable] + (WriteRegOps(MARH, high) + (WriteRegOps(MARM, middle) + last));
    hide Performed, WriteRegOps;
    EnterNext(c, {}, WriteRegOps(MARH, high) + (WriteRegOps(MARM, middle) + last));
    WriteNext(c, {}, MARH, high, WriteRegOps(MARM, middle) + last);
    WriteNext(c1, {}, MARM, middle, last);
    WriteNext(c2, {}, MARL, low, [Enable]);
    EnterNext(c3, {}, []);
  }
}
