/** The driver's send and receive functions, run on a chip that keeps the words it is given. */
module NicDriver {
  import opened Words
  import opened Wrappers
  import opened Frames
  import opened BusExclusion
  import opened BusEffects
  import TQ = TransmitQueue
  import Protocol = InterruptProtocol
  import Handlers = InterruptHandlers

  datatype Error = NoError | InvalidLength | Failure

  datatype Reception = InvalidPacket | BadSize | Delivered(size: U16)

  /** The receive buffer's size, and its size rounded up to the 32-bit accesses that fill it. */
  const RX_BUFFER_SIZE := ETH_MAX_FRAME_SIZE + 4
  const RX_BUFFER_REACH := 1524

  /** The word that would round a transfer up to 32 bits. realSend leaves out the 4 bytes of the transmit header. */
  function AligningWord(realSend: nat): (words: seq<U16>) {
    if realSend % 4 != 0 then [0] else []
  }

  /** The 16-bit loop counters of the FIFO functions, for whole words and for 32-bit units. */
  function WordCount(length: nat): (n: U16) {
    (length + 1) / 2 % 0x10000
  }

  function DwordCount(length: nat): (n: U16) {
    Dword(length) / 2 % 0x10000
  }

  lemma CountsFit(length: nat)
    requires length <= MAX_SPACE
    ensures 2 * WordCount(length) == Even(length) && 2 * DwordCount(length) == Dword(length)
  {
    var k, m := (length + 1) / 2, (length + 3) / 4;
    assert 0 <= k < 0x10000 && k % 0x10000 == k;
    assert Dword(length) == 2 * m + 2 * m && Dword(length) / 2 == 2 * m;
    assert 0 <= 2 * m < 0x10000 && 2 * m % 0x10000 == 2 * m;
  }

  /** A queued frame as the interrupt protocol sees it. */
  function AsFrame(f: RxFrame): (frame: Protocol.Frame)
    ensures Protocol.Releasable(frame) <==> f.valid || f.flagged
    ensures Protocol.Deliverable(frame) <==> f.valid && 0 < f.length <= RX_BUFFER_SIZE
  {
    var validity: Protocol.Reg := if f.valid then {Protocol.FRAME_VALID} else {};
    var errors: Protocol.Reg := if f.flagged then {0} else {};
    assert 0 in Protocol.FRAME_ERRORS;
    Protocol.Frame(validity + errors, f.length)
  }

  class Nic {
    var bigEndian: bool
    var frameId: U16
    /** Chip: the frame pointer register, whose bit 11 is the order in which words pass the data port. */
    var fdpr: Reg
    /** Chip: free transmit memory, bytes per queued frame, ids accepted, words since SDA was set, frames taken. */
    var free: int
    var stored: seq<nat>
    var ids: seq<nat>
    var fifo: seq<U16>
    var sent: seq<TxFrame>
    var rxq: seq<RxFrame>
    /** The accesses made so far, in the terms of the bus. */
    ghost var trace: seq<Op>

    /** The chip is in the endian mode the driver believes it is in. */
    predicate Agrees()
      reads this
    {
      11 in fdpr <==> bigEndian
    }

    ghost function Queue(): (q: TQ.Queue)
      reads this
    {
      TQ.Queue(free, frameId, stored, ids)
    }

    /** Rounds up to whole words only. The result is made of the loop counter, which ends below zero. */
    method WriteFifoWordAlign(data: seq<Byte>, length: nat) returns (written: U16)
      requires 2 * WordCount(length) <= |data|
      modifies `fifo, `trace
      ensures fifo == old(fifo) + Pack(bigEndian, data[..2 * WordCount(length)])
      ensures trace == old(trace) + Pushes(Pack(bigEndian, data[..2 * WordCount(length)]))
      ensures written == 0xFFFE
    {
      hide *;
      ghost var count := WordCount(length);
      var sizeInWord: U16 := WordCount(length);
      var i: int := 0;
      NothingWritten(bigEndian, data);
      // The test of the source's loop counts down whether or not it succeeds.
      var goOn := sizeInWord != 0;
      sizeInWord := (sizeInWord - 1) % 0x10000;
      while goOn
        invariant 0 <= i <= count && (goOn <==> i < count)
        invariant sizeInWord == if goOn then count - i - 1 else 0xFFFF
        invariant fifo == old(fifo) + Pack(bigEndian, data[..2 * i])
        invariant trace == old(trace) + Pushes(Pack(bigEndian, data[..2 * i]))
        decreases count - i
      {
        WriteWord(data, i, old(fifo), old(trace));
        i := i + 1;
        goOn := sizeInWord != 0;
        sizeInWord := (sizeInWord - 1) % 0x10000;
      }
      written := sizeInWord * 2 % 0x10000;
    }

    /** Puts one word of memory into the FIFO, in the order of the endian mode. */
    method WriteWord(data: seq<Byte>, i: nat, ghost fifoBefore: seq<U16>, ghost traceBefore: seq<Op>)
      requires 2 * i + 2 <= |data|
      requires fifo == fifoBefore + Pack(bigEndian, data[..2 * i])
      requires trace == traceBefore + Pushes(Pack(bigEndian, data[..2 * i]))
      modifies `fifo, `trace
      ensures fifo == fifoBefore + Pack(bigEndian, data[..2 * (i + 1)])
      ensures trace == traceBefore + Pushes(Pack(bigEndian, data[..2 * (i + 1)]))
    {
      var value := WordOf(bigEndian, data[2 * i], data[2 * i + 1]);
      hide *;
      OneWordMore(fifoBefore, traceBefore, bigEndian, data, i);
      fifo := fifo + [value];
      trace := trace + [Push(value)];
    }

    /** Rounds up to 32-bit units. */
    method WriteFifo(data: seq<Byte>, length: nat)
      requires 2 * DwordCount(length) <= |data|
      modifies `fifo, `trace
      ensures fifo == old(fifo) + Pack(bigEndian, data[..2 * DwordCount(length)])
      ensures trace == old(trace) + Pushes(Pack(bigEndian, data[..2 * DwordCount(length)]))
    {
      hide *;
      var sizeInWord: int := DwordCount(length);
      var i: int := 0;
      NothingWritten(bigEndian, data);
      while sizeInWord > 0
        invariant 0 <= sizeInWord && i + sizeInWord == DwordCount(length)
        invariant fifo == old(fifo) + Pack(bigEndian, data[..2 * i])
        invariant trace == old(trace) + Pushes(Pack(bigEndian, data[..2 * i]))
      {
        WriteWord(data, i, old(fifo), old(trace));
        i := i + 1;
        sizeInWord := sizeInWord - 1;
      }
    }

    /** Chip: METFE takes what the transfer left as one frame. */
    method StartTransmission()
      requires ChipFrame(11 in fdpr, fifo).Some?
      modifies this`free, this`stored, this`ids, this`sent
      ensures free == old(free) - 2 * |fifo| && stored == old(stored) + [2 * |fifo|]
      ensures sent == old(sent) + [ChipFrame(11 in fdpr, fifo).value]
      ensures ids == old(ids) + [ChipFrame(11 in fdpr, fifo).value.control % 64]
    {
      var frame := ChipFrame(11 in fdpr, fifo).value;
      sent := sent + [frame];
      ids := ids + [frame.control % 64];
      stored := stored + [2 * |fifo|];
      free := free - 2 * |fifo|;
    }

    /** buffer is read up to the next 32-bit boundary, as the source does. */
    method SendPacket(buffer: seq<Byte>, length: nat) returns (result: Error)
      requires Agrees() && 0 <= free < MAX_SPACE
      requires MIN_PAYLOAD <= length <= ETH_MAX_FRAME_SIZE ==> Dword(length) <= |buffer|
      modifies this
      ensures Queue() == TQ.Next(old(Queue()), TQ.Raw(length))
      ensures bigEndian == old(bigEndian) && fdpr == old(fdpr) && rxq == old(rxq)
      ensures result.InvalidLength? <==> !(MIN_PAYLOAD <= length <= ETH_MAX_FRAME_SIZE)
      ensures result.NoError? <==> TQ.RawAccepted(old(Queue()), length)
      ensures !result.NoError? ==> sent == old(sent) && fifo == old(fifo)
      ensures result.NoError? ==>
                sent == old(sent) + [TxFrame(0x8000 + old(frameId) % 64, length, buffer[..length])]
      ensures result.NoError? <==> 46 <= length <= 1518 && length + 8 <= old(free)
      ensures trace == old(trace) + if result.InvalidLength? then [] else SendOps(fifo, result.NoError?)
    {
      hide SendOps, TransferOps, ReadReg, RawWords, ChipFrame;
      if length < MIN_PAYLOAD || length > ETH_MAX_FRAME_SIZE {
        return InvalidLength;
      }
      ghost var before := trace;
      trace := trace + ([Disable] + ReadReg(TXMIR));
      var n := free;
      if length + 8 > n {
        RefusedOps(before, fifo);
        trace := trace + [Enable];
        return Failure;
      }
      WriteRaw(buffer, length);
      ghost var id := frameId;
      frameId := (frameId + 1) % 0x10000;
      RawTransfer(bigEndian, id, buffer, length);
      StartTransmission();
      AcceptedOps(before, fifo);
      trace := trace + [Enable];
      return NoError;
    }

    /** The raw transfer itself, from setting SDA to the start of the transmission. */
    method WriteRaw(buffer: seq<Byte>, length: nat)
      requires length <= ETH_MAX_FRAME_SIZE && Dword(length) <= |buffer|
      modifies `fifo, `trace
      ensures fifo == RawWords(bigEndian, frameId, buffer, length)
      ensures trace == old(trace) + TransferOps(fifo)
    {
      var header := TxHeader(frameId, length);
      CountsFit(4);
      CountsFit(length);
      assert header[..4] == header;
      ghost var before := trace;
      fifo := [];
      trace := trace + SetBit(RXQCR, {SDA});
      WriteFifo(header, 4);
      WriteFifo(buffer, length);
      PushesConcat(Pack(bigEndian, header), Pack(bigEndian, buffer[..Dword(length)]));
      TransferJoins(before, Pushes(Pack(bigEndian, header)), Pushes(Pack(bigEndian, buffer[..Dword(length)])), fifo);
      trace := trace + (ClearBit(RXQCR, {SDA}) + SetBit(TXQCR, {0}));
    }

    /** payload is read up to the padded length and the next 16-bit boundary, as the source does. */
    method SendPacketCooked(dst: seq<Byte>, src: seq<Byte>, packetType: U16, payload: seq<Byte>, payloadLength: nat)
      returns (result: Error)
      requires Agrees() && 0 <= free < MAX_SPACE && |dst| == |src| == 6
      requires TQ.CookedAccepted(Queue(), payloadLength) ==> Even(Padded(payloadLength)) <= |payload|
      modifies this
      ensures Queue() == TQ.Next(old(Queue()), TQ.Cooked(payloadLength))
      ensures bigEndian == old(bigEndian) && fdpr == old(fdpr) && rxq == old(rxq)
      ensures result.NoError? <==> TQ.CookedAccepted(old(Queue()), payloadLength)
      ensures !result.NoError? ==> result.Failure? && sent == old(sent) && fifo == old(fifo)
      ensures result.NoError? ==>
                && fifo == CookedWords(bigEndian, old(frameId), dst, src, packetType, payload, payloadLength)
                && ChipFrame(bigEndian, fifo).Some? && sent == old(sent) + [ChipFrame(bigEndian, fifo).value]
      ensures result.NoError? <==> (if payloadLength < 46 then 46 else payloadLength) + 8 <= old(free)
      ensures result.NoError? ==>
                var n := if payloadLength < 46 then 46 else payloadLength;
                && n <= |payload|
                && sent == old(sent) + [TxFrame(0x8000 + old(frameId) % 64, n + 14,
                                                dst + src + [packetType / 256, packetType % 256] + payload[..n])]
      ensures trace == old(trace) + SendOps(fifo, result.NoError?)
    {
      hide SendOps, TransferOps, ReadReg, CookedWords, ChipFrame, ControlWord;
      var length := payloadLength;
      if length < MIN_PAYLOAD {
        length := MIN_PAYLOAD;
      }
      ghost var before := trace;
      trace := trace + ([Disable] + ReadReg(TXMIR));
      var n := free;
      if length + 8 > n {
        RefusedOps(before, fifo);
        trace := trace + [Enable];
        return Failure;
      }
      WriteCooked(dst, src, packetType, payload, length);
      CookedTransfer(bigEndian, frameId, dst, src, packetType, payload, payloadLength);
      frameId := (frameId + 1) % 0x10000;
      StartTransmission();
      AcceptedOps(before, fifo);
      trace := trace + [Enable];
      return NoError;
    }

    /** The cooked transfer itself. It ends on a 32-bit boundary only for every other even length. */
    method WriteCooked(dst: seq<Byte>, src: seq<Byte>, packetType: U16, payload: seq<Byte>, length: nat)
      requires |dst| == |src| == 6 && MIN_PAYLOAD <= length < MAX_SPACE && Even(length) <= |payload|
      modifies `fifo, `trace
      ensures fifo == CookedWords(bigEndian, frameId, dst, src, packetType, payload, length)
      ensures 2 * |fifo| % 4 == 0 <==> Even(length) % 4 == 2
      ensures trace == old(trace) + TransferOps(fifo)
    {
      var header, kind := TxHeader(frameId, length + ETH_HEADER_SIZE), InMemory(packetType);
      assert Padded(length) == length && Even(4) == 4 == |header| && Even(2) == 2 == |kind| && Even(6) == 6;
      CookedAlignment(bigEndian, frameId, dst, src, packetType, payload, length);
      CookedIsPieces(bigEndian, frameId, dst, src, packetType, payload, length);
      hide *;
      ghost var before := trace;
      fifo := [];
      trace := trace + SetBit(RXQCR, {SDA});
      var realSend: int := WritePieces(header, dst, src, kind, payload[..Even(length)], length);
      realSend := realSend + ETH_HEADER_SIZE;
      NoAligningWord(fifo);
      // The wrapped count makes realSend 0x1000C, so the aligning word is never written.
      fifo := fifo + AligningWord(realSend);
      TransferOf(before, fifo);
      trace := trace + (ClearBit(RXQCR, {SDA}) + SetBit(TXQCR, {0}));
    }

    /** The five pieces of a cooked frame, one after the other; the result is that of the last of them. */
    method WritePieces(header: seq<Byte>, dst: seq<Byte>, src: seq<Byte>, kind: seq<Byte>, body: seq<Byte>, length: nat)
      returns (written: U16)
      requires fifo == [] && length < MAX_SPACE
      requires |header| == Even(4) && |dst| == |src| == Even(6) && |kind| == Even(2) && |body| == Even(length)
      modifies `fifo, `trace
      ensures fifo == Pieces(bigEndian, header, dst, src, kind, body)
      ensures trace == old(trace) + Pushes(fifo) && written == 0xFFFE
    {
      ghost var before := trace;
      assert Pushes(fifo) == [];
      StartsEmpty(Pack(bigEndian, header));
      hide Pack, Pushes, Even;
      written := WritePiece(header, 4, before);
      written := WritePiece(dst, 6, before);
      written := WritePiece(src, 6, before);
      written := WritePiece(kind, 2, before);
      written := WritePiece(body, length, before);
    }

    method WritePiece(data: seq<Byte>, length: nat, ghost before: seq<Op>) returns (written: U16)
      requires length < MAX_SPACE && |data| == Even(length) && trace == before + Pushes(fifo)
      modifies `fifo, `trace
      ensures fifo == old(fifo) + Pack(bigEndian, data) && written == 0xFFFE
      ensures trace == before + Pushes(fifo)
    {
      CountsFit(length);
      assert data[..2 * WordCount(length)] == data;
      ghost var words := Pack(bigEndian, data);
      hide *;
      PushesJoin(before, fifo, words);
      written := WriteFifoWordAlign(data, length);
    }

    /** Fills memory from its base on, in 32-bit units, with what the FIFO gives. */
    method ReadFifo(memory: array<Byte>, base: nat, stream: seq<Byte>, length: nat)
      requires Agrees() && length < 0x1000 && Dword(length) <= |stream| && base + Dword(length) <= memory.Length
      modifies memory, `trace
      ensures memory[base..base + Dword(length)] == stream[..Dword(length)]
      ensures memory[..base] == old(memory[..base])
      ensures memory[base + Dword(length)..] == old(memory[base + Dword(length)..])
      ensures trace == old(trace) + Pulls(DwordCount(length))
    {
      CountsFit(length);
      hide *;
      var words := Pack(11 in fdpr, stream[..Dword(length)]);
      ghost var before := memory[..];
      UnpackPack(bigEndian, stream[..Dword(length)]);
      ReadWords(memory, base, words);
      FilledParts(before, base, stream[..Dword(length)], memory[..]);
    }

    method ReadWords(memory: array<Byte>, base: nat, words: seq<U16>)
      requires base + 2 * |words| <= memory.Length
      modifies memory, `trace
      ensures memory[..] == Filled(old(memory[..]), base, Unpack(bigEndian, words))
      ensures trace == old(trace) + Pulls(|words|)
    {
      hide *;
      ghost var data, before := Unpack(bigEndian, words), memory[..];
      NothingRead(before, base, data);
      var sizeInWord: int := |words|;
      var i: int := 0;
      while sizeInWord > 0
        invariant 0 <= sizeInWord && i + sizeInWord == |words|
        invariant memory[..] == Filled(before, base, data[..2 * i])
        invariant trace == old(trace) + Pulls(i)
      {
        UnpackAt(bigEndian, words, i);
        FilledOneMore(before, base, data, i);
        PullsOneMore(old(trace), i);
        ReadWord(memory, base + 2 * i, words[i]);
        i := i + 1;
        sizeInWord := sizeInWord - 1;
      }
      assert data[..2 * i] == data;
    }

    /** Takes one word off the FIFO, in the order of the endian mode. */
    method ReadWord(memory: array<Byte>, address: nat, word: U16)
      requires address + 2 <= memory.Length
      modifies memory, `trace
      ensures memory[..]
              == old(memory[..])[address := FirstByte(bigEndian, word)][address + 1 := SecondByte(bigEndian, word)]
      ensures trace == old(trace) + [Pull]
    {
      trace := trace + [Pull];
      memory[address] := FirstByte(bigEndian, word);
      memory[address + 1] := SecondByte(bigEndian, word);
    }

    /**
     * Takes the frame at the head of the queue. memory is the memory around the receive buffer, which starts at
     * base. A delivered frame is offered to the upper layer from base + 2 on, with the wrapped 16-bit size.
     */
    method ReceivePacket(memory: array<Byte>, base: nat) returns (outcome: Reception)
      requires rxq != [] && rxq[0].length < 0x1000 && Dword(rxq[0].length) <= |rxq[0].stream|
      requires base + RX_BUFFER_REACH <= memory.Length
      modifies this`rxq, this`fdpr, this`trace, memory
      ensures outcome.InvalidPacket? <==> !old(rxq)[0].valid
      ensures outcome.BadSize? <==> old(rxq)[0].valid && !(0 < old(rxq)[0].length <= RX_BUFFER_SIZE)
      ensures rxq == if outcome.InvalidPacket? && !old(rxq)[0].flagged then old(rxq) else old(rxq)[1..]
      ensures !outcome.Delivered? ==> memory[..] == old(memory[..])
      ensures outcome.Delivered? ==>
                var f := old(rxq)[0];
                && outcome.size == (f.length - 6) % 0x10000
                && memory[base..base + Dword(f.length)] == f.stream[..Dword(f.length)]
                && memory[..base] == old(memory[..base])
                && memory[base + Dword(f.length)..] == old(memory[base + Dword(f.length)..])
      ensures if outcome.Delivered? then Agrees() && 14 in fdpr else fdpr == old(fdpr)
      ensures outcome.Delivered? <==> Protocol.Deliverable(AsFrame(old(rxq)[0]))
      ensures rxq == if Protocol.Releasable(AsFrame(old(rxq)[0])) then old(rxq)[1..] else old(rxq)
      ensures trace == old(trace) + ReceiveOps(Handlers.OnTheBus(bigEndian, AsFrame(old(rxq)[0])))
      ensures KeepsMode(trace[|old(trace)|..], bigEndian)
      ensures outcome.Delivered? ==> SetsMode(trace[|old(trace)|..], bigEndian)
    {
      PointerBits(bigEndian);
      hide KeepsMode, SetsMode, ReceiveOps, Handlers.OnTheBus, ReadReg, WriteRegOps, SetBit, ClearBit, Pulls, Handlers.FramePointer, DwordCount;
      var frame := rxq[0];
      ghost var before := trace;
      ReceptionMode(before, bigEndian, frame);
      trace := trace + ReadReg(RXFHSR);
      if !frame.valid {
        if frame.flagged {
          rxq := rxq[1..];
          trace := trace + SetBit(RXQCR, {RRXEF});
        }
        RefusedReception(before, bigEndian, frame);
        return InvalidPacket;
      }
      trace := trace + ReadReg(RXFHBCR);
      if 0 < frame.length <= RX_BUFFER_SIZE {
        fdpr := Handlers.FramePointer(bigEndian);
        trace := trace + (WriteRegOps(RXFDPR, Handlers.FramePointer(bigEndian)) + SetBit(RXQCR, {SDA}) + Pulls(3));
        ReadFifo(memory, base, frame.stream, frame.length);
        trace := trace + (ClearBit(RXQCR, {SDA}) + [Enable, Disable]);
        GoodReception(before, bigEndian, frame);
        rxq := rxq[1..];
        return Delivered((frame.length - 6) % 0x10000);
      } else {
        rxq := rxq[1..];
        trace := trace + SetBit(RXQCR, {RRXEF});
        RefusedReception(before, bigEndian, frame);
        return BadSize;
      }
    }
  }

  // ---- From one card to the other ----

  /**
   * What one card sends, the other delivers: an accepted cooked send arrives at a cooked request with its addresses,
   * its type and its payload, lengthened to 46 bytes when it was shorter, whatever the two endian modes.
   */
  method SendAndReceive(a: Nic, b: Nic, dst: seq<Byte>, src: seq<Byte>, packetType: U16, payload: seq<Byte>, n: nat,
                        align: seq<Byte>, check: seq<Byte>, filler: seq<Byte>, memory: array<Byte>, base: nat)
    returns (outcome: Reception, packet: Packet)
    requires a != b && a.Agrees() && 0 <= a.free < MAX_SPACE && TQ.CookedAccepted(a.Queue(), n)
    requires |dst| == |src| == 6 && n <= ETHERNET_MTU && Even(Padded(n)) <= |payload|
    requires |align| == 2 && |check| == 4 && |filler| >= 3 && base + RX_BUFFER_REACH <= memory.Length
    modifies a, b, memory
    ensures outcome == Delivered(Padded(n) + ETH_HEADER_SIZE)
    ensures packet == Packet(dst, src, packetType, payload[..Padded(n)])
    ensures b.rxq == old(b.rxq) && b.bigEndian == old(b.bigEndian) && a.bigEndian == old(a.bigEndian)
  {
    var frame := SendFrame(a, dst, src, packetType, payload, n);
    outcome := ReceiveFrame(b, frame.bytes, align, check, filler, memory, base);
    packet := Fulfil(false, memory[base + 2..], outcome.size);
    hide *;
    EndToEnd(a.bigEndian, old(a.frameId), dst, src, packetType, payload, n, frame, align, check, filler, memory[base + 2..]);
  }

  /** The same for raw sends and requests: what comes out is the frame that was sent, up to 1514 bytes of it. */
  method SendAndReceiveRaw(a: Nic, b: Nic, buffer: seq<Byte>, length: nat, align: seq<Byte>, check: seq<Byte>,
                           filler: seq<Byte>, memory: array<Byte>, base: nat)
    returns (outcome: Reception, packet: Packet)
    requires a != b && a.Agrees() && 0 <= a.free < MAX_SPACE && TQ.RawAccepted(a.Queue(), length) && Dword(length) <= |buffer|
    requires |align| == 2 && |check| == 4 && |filler| >= 3 && base + RX_BUFFER_REACH <= memory.Length
    modifies a, b, memory
    ensures outcome == if length <= 1516 then Delivered(length) else BadSize
    ensures outcome.Delivered? ==>
              && packet.data == buffer[..Min(length, 1514)]
              && packet.dst == buffer[..6] && packet.src == buffer[6..12]
              && packet.packetType == WordOf(true, buffer[12], buffer[13])
    ensures b.rxq == old(b.rxq) && b.bigEndian == old(b.bigEndian) && a.bigEndian == old(a.bigEndian)
  {
    var error := a.SendPacket(buffer, length);
    var frame := a.sent[|a.sent| - 1].bytes;
    assert frame == buffer[..length];
    outcome := ReceiveFrame(b, frame, align, check, filler, memory, base);
    packet := Fulfil(true, memory[base + 2..], length);
    hide *;
    if outcome.Delivered? {
      RawFields(align, frame, check, filler, memory[base + 2..]);
      FramePrefix(frame, buffer);
    }
  }

  lemma FramePrefix(frame: seq<Byte>, buffer: seq<Byte>)
    requires MIN_PAYLOAD <= |frame| <= |buffer| && frame == buffer[..|frame|]
    ensures frame[..6] == buffer[..6] && frame[6..12] == buffer[6..12] && frame[12] == buffer[12] && frame[13] == buffer[13]
    ensures frame[..Min(|frame|, 1514)] == buffer[..Min(|frame|, 1514)]
  {
  }

  lemma RawFields(align: seq<Byte>, frame: seq<Byte>, check: seq<Byte>, filler: seq<Byte>, buffer: seq<Byte>)
    requires |align| == 2 && |check| == 4 && MIN_PAYLOAD <= |frame| <= 1516 && |buffer| >= 1522
    requires buffer[..|frame| + 4] == Received(align, frame, check, filler).stream[2..|frame| + 6]
    ensures Fulfil(true, buffer, |frame|)
            == Packet(frame[..6], frame[6..12], WordOf(true, frame[12], frame[13]), frame[..Min(|frame|, 1514)])
  {
    assert Received(align, frame, check, filler).stream[2..|frame| + 6] == frame + check;
    assert buffer[..|frame|] == buffer[..|frame| + 4][..|frame|] == frame;
    assert buffer[..6] == frame[..6] && buffer[6..12] == frame[6..12];
    assert buffer[12] == frame[12] && buffer[13] == frame[13];
    assert buffer[..Min(|frame|, 1514)] == frame[..Min(|frame|, 1514)];
  }

  method SendFrame(a: Nic, dst: seq<Byte>, src: seq<Byte>, packetType: U16, payload: seq<Byte>, n: nat)
    returns (frame: TxFrame)
    requires a.Agrees() && 0 <= a.free < MAX_SPACE && TQ.CookedAccepted(a.Queue(), n)
    requires |dst| == |src| == 6 && n <= ETHERNET_MTU && Even(Padded(n)) <= |payload|
    modifies a
    ensures ChipFrame(a.bigEndian, CookedWords(a.bigEndian, old(a.frameId), dst, src, packetType, payload, n)) == Some(frame)
    ensures |frame.bytes| == Padded(n) + ETH_HEADER_SIZE && a.bigEndian == old(a.bigEndian)
  {
    var error := a.SendPacketCooked(dst, src, packetType, payload, n);
    CookedFrame(a.bigEndian, old(a.frameId), dst, src, packetType, payload, n);
    hide *;
    frame := a.sent[|a.sent| - 1];
  }

  /** The frame, with what the chip puts around it, comes in ahead of all others and is taken. */
  method ReceiveFrame(b: Nic, frame: seq<Byte>, align: seq<Byte>, check: seq<Byte>, filler: seq<Byte>,
                      memory: array<Byte>, base: nat)
    returns (outcome: Reception)
    requires |frame| <= ETH_MAX_FRAME_SIZE && |align| == 2 && |check| == 4 && |filler| >= 3
    requires base + RX_BUFFER_REACH <= memory.Length
    modifies b, memory
    ensures outcome == if |frame| <= 1516 then Delivered(|frame|) else BadSize
    ensures b.rxq == old(b.rxq) && b.bigEndian == old(b.bigEndian)
    ensures outcome.Delivered? ==>
            memory[base + 2..][..|frame| + 4] == Received(align, frame, check, filler).stream[2..|frame| + 6]
  {
    var f := Received(align, frame, check, filler);
    hide Dword;
    outcome := TakeFrame(b, f, memory, base);
    if outcome.Delivered? {
      assert memory[..][base..base + Dword(f.length)] == memory[base..base + Dword(f.length)];
      Arrived(align, frame, check, filler, memory[..], base);
    }
  }

  method TakeFrame(b: Nic, f: RxFrame, memory: array<Byte>, base: nat) returns (outcome: Reception)
    requires f.valid && 6 <= f.length <= ETH_MAX_FRAME_SIZE + 6 && f.length + 3 <= |f.stream|
    requires base + RX_BUFFER_REACH <= memory.Length
    modifies b, memory
    ensures outcome == if f.length <= RX_BUFFER_SIZE then Delivered(f.length - 6) else BadSize
    ensures b.rxq == old(b.rxq) && b.bigEndian == old(b.bigEndian)
    ensures outcome.Delivered? ==> memory[base..base + Dword(f.length)] == f.stream[..Dword(f.length)]
  {
    ghost var queue := b.rxq;
    assert ([f] + queue)[0] == f && ([f] + queue)[1..] == queue;
    assert (f.length - 6) % 0x10000 == f.length - 6 && Dword(f.length) <= |f.stream|;
    hide *;
    b.rxq := [f] + b.rxq;
    outcome := b.ReceivePacket(memory, base);
  }

  /** Where memory holds the first n bytes of the stream, it holds every part of them. */
  lemma SamePart(memory: seq<Byte>, base: nat, stream: seq<Byte>, n: nat, from: nat, to: nat)
    requires from <= to <= n <= |stream| && base + n <= |memory| && memory[base..base + n] == stream[..n]
    ensures memory[base + from..base + to] == memory[base + from..][..to - from] == stream[from..to]
  {
    forall k | 0 <= k < to - from ensures memory[base + from..base + to][k] == stream[from..to][k] {
      assert memory[base..base + n][from + k] == stream[..n][from + k];
    }
  }

  lemma Arrived(align: seq<Byte>, frame: seq<Byte>, check: seq<Byte>, filler: seq<Byte>, memory: seq<Byte>, base: nat)
    requires |align| == 2 && |check| == 4 && |filler| >= 3 && base + Dword(|frame| + 6) <= |memory|
    requires var f := Received(align, frame, check, filler);
             memory[base..base + Dword(f.length)] == f.stream[..Dword(f.length)]
    ensures memory[base + 2..][..|frame| + 4] == Received(align, frame, check, filler).stream[2..|frame| + 6]
  {
    var f := Received(align, frame, check, filler);
    SamePart(memory, base, f.stream, Dword(f.length), 2, |frame| + 6);
  }

  /** The byte counts whose frame, or payload for a cooked request, is delivered whole and alone. */
  predicate DeliversFrame(raw: bool, length: nat) {
    (if raw then 6 else 20) <= length <= 1520
  }

  /**
   * Of the accepted byte counts, which take in alignment bytes and check sequence, exactly these deliver the data
   * of the frame. With a smaller one the 16-bit length wraps and the buffer's old contents are delivered with it,
   * with a greater one the end of the frame is lost.
   */
  lemma DeliveredDataExact(raw: bool, length: nat, stream: seq<Byte>, buffer: seq<Byte>)
    requires 0 < length <= RX_BUFFER_SIZE && Dword(length) <= |stream| && |buffer| == RX_BUFFER_REACH
    requires buffer[..Dword(length)] == stream[..Dword(length)]
    ensures var from, p := if raw then 2 else 16, Fulfil(raw, buffer[2..], (length - 6) % 0x10000);
            && (|p.data| == length - 4 - from <==> DeliversFrame(raw, length))
            && (DeliversFrame(raw, length) ==> p.data == stream[from..length - 4])
  {
    if DeliversFrame(raw, length) {
      var from := if raw then 2 else 16;
      SamePart(buffer, 0, stream, Dword(length), from, length - 4);
      assert buffer[2..][from - 2..length - 6] == buffer[from..length - 4];
    }
  }

  /** The failing case: a byte count of 5 hands 1514 bytes to a raw request, all but 6 of them older than the frame. */
  lemma ShortCountDeliversOldBytes(stream: seq<Byte>, buffer: seq<Byte>)
    requires |stream| >= 8 && |buffer| == RX_BUFFER_REACH && buffer[..8] == stream[..8]
    ensures Dword(5) == 8
    ensures Fulfil(true, buffer[2..], (5 - 6) % 0x10000).data == stream[2..8] + buffer[8..1516]
  {
    assert buffer[2..][..1514] == buffer[..8][2..] + buffer[8..1516];
    assert stream[2..8] == stream[..8][2..];
  }

  // ---- Sends and receptions as bus operations ----

  /** Every reception keeps the chip in the driver's endian mode, and a good one puts it there. */
  lemma ReceptionMode(before: seq<Op>, big: bool, f: RxFrame)
    ensures var ops := ReceiveOps(Handlers.OnTheBus(big, AsFrame(f)));
            && (before + ops)[|before|..] == ops && KeepsMode(ops, big)
            && (Protocol.Deliverable(AsFrame(f)) ==> SetsMode(ops, big))
  {
    Handlers.ReceptionMode(big, AsFrame(f));
    Handlers.Suffix(before, ReceiveOps(Handlers.OnTheBus(big, AsFrame(f))));
  }

  /** The register's own bits: address zero with auto increment, and the endian mode. */
  lemma PointerBits(big: bool)
    ensures 14 in Handlers.FramePointer(big) && (11 in Handlers.FramePointer(big) <==> big)
  {
  }

  lemma RefusedReception(before: seq<Op>, big: bool, f: RxFrame)
    requires !(f.valid && 0 < f.length <= RX_BUFFER_SIZE)
    ensures var status, count, release := ReadReg(RXFHSR), ReadReg(RXFHBCR), SetBit(RXQCR, {RRXEF});
            before + ReceiveOps(Handlers.OnTheBus(big, AsFrame(f))) ==
            if f.valid then before + status + count + release
            else if f.flagged then before + status + release
            else before + status
  {
    Assoc(before, ReadReg(RXFHSR), ReadReg(RXFHBCR), SetBit(RXQCR, {RRXEF}));
    assert before + ReadReg(RXFHSR) + SetBit(RXQCR, {RRXEF}) == before + (ReadReg(RXFHSR) + SetBit(RXQCR, {RRXEF}));
  }

  lemma GoodReception(before: seq<Op>, big: bool, f: RxFrame)
    requires f.valid && 0 < f.length <= RX_BUFFER_SIZE
    ensures before + ReadReg(RXFHSR) + ReadReg(RXFHBCR)
            + (WriteRegOps(RXFDPR, Handlers.FramePointer(big)) + SetBit(RXQCR, {SDA}) + Pulls(3))
            + Pulls(DwordCount(f.length)) + (ClearBit(RXQCR, {SDA}) + [Enable, Disable])
            == before + ReceiveOps(Handlers.OnTheBus(big, AsFrame(f)))
  {
    GoodOnTheBus(big, f);
    hide *;
    GoodOps(before, Handlers.FramePointer(big), DwordCount(f.length));
  }

  lemma GoodOnTheBus(big: bool, f: RxFrame)
    requires f.valid && 0 < f.length <= RX_BUFFER_SIZE
    ensures Handlers.OnTheBus(big, AsFrame(f)) == Good(Handlers.FramePointer(big), DwordCount(f.length))
  {
    CountsFit(f.length);
    assert Dword(f.length) == 2 * ((f.length + 3) / 4) + 2 * ((f.length + 3) / 4);
  }

  lemma GoodOps(before: seq<Op>, pointer: Reg, n: nat)
    ensures before + ReadReg(RXFHSR) + ReadReg(RXFHBCR) + (WriteRegOps(RXFDPR, pointer) + SetBit(RXQCR, {SDA}) + Pulls(3))
            + Pulls(n) + (ClearBit(RXQCR, {SDA}) + [Enable, Disable])
            == before + ReceiveOps(Good(pointer, n))
  {
    hide ReadReg, WriteRegOps, SetBit, ClearBit, Pulls;
    PullsConcat(3, n);
    Assoc8(before, ReadReg(RXFHSR), ReadReg(RXFHBCR), WriteRegOps(RXFDPR, pointer), SetBit(RXQCR, {SDA}), Pulls(3), Pulls(n),
           ClearBit(RXQCR, {SDA}) + [Enable, Disable]);
  }

  lemma Assoc8(a: seq<Op>, b: seq<Op>, c: seq<Op>, d: seq<Op>, e: seq<Op>, f: seq<Op>, g: seq<Op>, h: seq<Op>)
    ensures a + b + c + (d + e + f) + g + h == a + (b + (c + (d + (e + ((f + g) + h)))))
  {
  }

  lemma {:induction false} PullsConcat(m: nat, n: nat)
    ensures Pulls(m + n) == Pulls(m) + Pulls(n)
  {
    if m > 0 {
      PullsConcat(m - 1, n);
    }
  }

  lemma PullsOneMore(before: seq<Op>, n: nat)
    ensures before + Pulls(n) + [Pull] == before + Pulls(n + 1)
  {
    PullsConcat(n, 1);
    assert Pulls(1) == [Pull];
  }

  /** Memory with data put in from base on. */
  ghost function Filled(memory: seq<Byte>, base: nat, data: seq<Byte>): (m: seq<Byte>)
    requires base + |data| <= |memory|
    ensures |m| == |memory|
  {
    memory[..base] + data + memory[base + |data|..]
  }

  lemma NothingRead(memory: seq<Byte>, base: nat, data: seq<Byte>)
    requires base <= |memory|
    ensures Pulls(0) == [] && Filled(memory, base, data[..0]) == memory
  {
  }

  lemma FilledOneMore(memory: seq<Byte>, base: nat, data: seq<Byte>, i: nat)
    requires base + |data| <= |memory| && 2 * i + 2 <= |data|
    ensures Filled(memory, base, data[..2 * (i + 1)])
            == Filled(memory, base, data[..2 * i])[base + 2 * i := data[2 * i]][base + 2 * i + 1 := data[2 * i + 1]]
  {
    assert data[..2 * (i + 1)] == data[..2 * i] + [data[2 * i], data[2 * i + 1]];
  }

  lemma FilledParts(memory: seq<Byte>, base: nat, data: seq<Byte>, after: seq<Byte>)
    requires base + |data| <= |memory| && after == Filled(memory, base, data)
    ensures after[base..base + |data|] == data && after[..base] == memory[..base]
    ensures after[base + |data|..] == memory[base + |data|..]
  {
  }

  lemma {:induction false} PushesConcat(a: seq<U16>, b: seq<U16>)
    ensures Pushes(a + b) == Pushes(a) + Pushes(b)
    decreases |a|
  {
    if a == [] {
      assert a + b == b;
    } else {
      assert (a + b)[1..] == a[1..] + b;
      PushesConcat(a[1..], b);
    }
  }

  lemma OneWordMore(words: seq<U16>, ops: seq<Op>, big: bool, data: seq<Byte>, i: nat)
    requires 2 * i + 2 <= |data|
    ensures var value := WordOf(big, data[2 * i], data[2 * i + 1]);
            && words + Pack(big, data[..2 * i]) + [value] == words + Pack(big, data[..2 * (i + 1)])
            && ops + Pushes(Pack(big, data[..2 * i])) + [Push(value)] == ops + Pushes(Pack(big, data[..2 * (i + 1)]))
  {
    var value := WordOf(big, data[2 * i], data[2 * i + 1]);
    hide *;
    PackOneMore(big, data, i);
    PushesOneMore(Pack(big, data[..2 * i]), value);
    assert data[..2 * (i + 1)] == data[..2 * i + 2];
  }

  lemma NothingWritten(big: bool, data: seq<Byte>)
    ensures Pack(big, data[..0]) == [] && Pushes(Pack(big, data[..0])) == []
  {
  }

  lemma PushesJoin(before: seq<Op>, a: seq<U16>, b: seq<U16>)
    ensures before + Pushes(a) + Pushes(b) == before + Pushes(a + b)
  {
    PushesConcat(a, b);
  }

  lemma PushesOneMore(words: seq<U16>, word: U16)
    ensures Pushes(words + [word]) == Pushes(words) + [Push(word)]
  {
    PushesConcat(words, [word]);
    assert [word][1..] == [] && Pushes([word]) == [Push(word)] + Pushes([]);
  }

  lemma Assoc(a: seq<Op>, b: seq<Op>, c: seq<Op>, d: seq<Op>)
    ensures a + b + c + d == a + (b + (c + d))
  {
  }

  lemma TransferJoins(before: seq<Op>, first: seq<Op>, second: seq<Op>, words: seq<U16>)
    requires Pushes(words) == first + second
    ensures before + SetBit(RXQCR, {SDA}) + first + second + (ClearBit(RXQCR, {SDA}) + SetBit(TXQCR, {0}))
            == before + TransferOps(words)
  {
    assert before + SetBit(RXQCR, {SDA}) + first + second == before + SetBit(RXQCR, {SDA}) + (first + second);
    TransferOf(before, words);
  }

  lemma TransferOf(before: seq<Op>, words: seq<U16>)
    ensures before + SetBit(RXQCR, {SDA}) + Pushes(words) + (ClearBit(RXQCR, {SDA}) + SetBit(TXQCR, {0}))
            == before + TransferOps(words)
  {
    Assoc(before, SetBit(RXQCR, {SDA}), Pushes(words), ClearBit(RXQCR, {SDA}) + SetBit(TXQCR, {0}));
  }

  lemma NoAligningWord(words: seq<U16>)
    ensures words + AligningWord(0xFFFE + ETH_HEADER_SIZE) == words
  {
    assert AligningWord(0xFFFE + ETH_HEADER_SIZE) == [];
  }

  lemma StartsEmpty(words: seq<U16>)
    ensures [] + words == words
  {
  }

  function Pieces(big: bool, header: seq<Byte>, dst: seq<Byte>, src: seq<Byte>, kind: seq<Byte>, body: seq<Byte>)
    : (words: seq<U16>)
    requires |header| % 2 == |dst| % 2 == |src| % 2 == |kind| % 2 == |body| % 2 == 0
  {
    Pack(big, header) + Pack(big, dst) + Pack(big, src) + Pack(big, kind) + Pack(big, body)
  }

  lemma CookedIsPieces(big: bool, id: U16, dst: seq<Byte>, src: seq<Byte>, packetType: U16, payload: seq<Byte>, n: nat)
    requires |dst| == |src| == 6 && MIN_PAYLOAD <= n < MAX_SPACE && Even(n) <= |payload|
    ensures CookedWords(big, id, dst, src, packetType, payload, n)
            == Pieces(big, TxHeader(id, n + ETH_HEADER_SIZE), dst, src, InMemory(packetType), payload[..Even(n)])
  {
    hide Pack;
  }

  lemma RefusedOps(before: seq<Op>, words: seq<U16>)
    ensures before + ([Disable] + ReadReg(TXMIR)) + [Enable] == before + SendOps(words, false)
  {
    assert [] + [Enable] == [Enable];
    assert before + ([Disable] + ReadReg(TXMIR)) + [Enable] == before + ([Disable] + (ReadReg(TXMIR) + [Enable]));
  }

  lemma AcceptedOps(before: seq<Op>, words: seq<U16>)
    ensures before + ([Disable] + ReadReg(TXMIR)) + TransferOps(words) + [Enable] == before + SendOps(words, true)
  {
    var start, transfer := ReadReg(TXMIR), TransferOps(words);
    assert before + ([Disable] + start) + transfer + [Enable] == before + ([Disable] + (start + (transfer + [Enable])));
  }

  lemma RawTransfer(big: bool, id: U16, buffer: seq<Byte>, length: nat)
    requires length < 0x10000 && Dword(length) <= |buffer|
    ensures var words := RawWords(big, id, buffer, length);
            && 2 * |words| == TQ.RawBytes(length)
            && ChipFrame(big, words) == Some(TxFrame(0x8000 + id % 64, length, buffer[..length]))
            && ControlWord(id) % 64 == id % 64
  {
    RawFrame(big, id, buffer, length);
  }

  lemma CookedTransfer(big: bool, id: U16, dst: seq<Byte>, src: seq<Byte>, packetType: U16, payload: seq<Byte>, n: nat)
    requires |dst| == |src| == 6 && n < MAX_SPACE && Even(Padded(n)) <= |payload|
    ensures var words := CookedWords(big, id, dst, src, packetType, payload, n);
            && words == CookedWords(big, id, dst, src, packetType, payload, Padded(n))
            && 2 * |words| == TQ.CookedBytes(n)
            && ControlWord(id) % 64 == id % 64
            && var n' := if n < 46 then 46 else n;
            && n' <= |payload|
            && ChipFrame(big, words) == Some(TxFrame(0x8000 + id % 64, n' + 14,
                                                     dst + src + [packetType / 256, packetType % 256] + payload[..n']))
  {
    CookedFrame(big, id, dst, src, packetType, payload, n);
    CookedSize(big, id, dst, src, packetType, payload, n);
  }

  lemma CookedSize(big: bool, id: U16, dst: seq<Byte>, src: seq<Byte>, packetType: U16, payload: seq<Byte>, n: nat)
    requires |dst| == |src| == 6 && n < MAX_SPACE && Even(Padded(n)) <= |payload|
    ensures 2 * |CookedWords(big, id, dst, src, packetType, payload, n)| == TQ.CookedBytes(n)
  {
    assert |Pack(big, TxHeader(id, Padded(n) + ETH_HEADER_SIZE))| == 2;
    assert |Pack(big, dst)| == 3 && |Pack(big, src)| == 3 && |Pack(big, InMemory(packetType))| == 1;
  }

  /** A cooked transfer ends on a 32-bit boundary if and only if its even payload length leaves 2 modulo 4. */
  lemma CookedAlignment(big: bool, id: U16, dst: seq<Byte>, src: seq<Byte>, packetType: U16, payload: seq<Byte>, n: nat)
    requires |dst| == |src| == 6 && n < MAX_SPACE && Even(Padded(n)) <= |payload|
    ensures 2 * |CookedWords(big, id, dst, src, packetType, payload, n)| % 4 == 0 <==> Even(Padded(n)) % 4 == 2
  {
    CookedSize(big, id, dst, src, packetType, payload, n);
  }

  /** The failing case: a payload of 48 bytes makes a transfer of 66. */
  lemma FortyEightIsMisaligned(big: bool, id: U16, dst: seq<Byte>, src: seq<Byte>, packetType: U16, payload: seq<Byte>)
    requires |dst| == |src| == 6 && |payload| >= 48
    ensures 2 * |CookedWords(big, id, dst, src, packetType, payload, 48)| == 66
  {
    CookedSize(big, id, dst, src, packetType, payload, 48);
  }

  /** With the number of bytes really written, the aligning word would end every cooked transfer on a 32-bit boundary. */
  lemma TrueCountWouldAlign(big: bool, id: U16, dst: seq<Byte>, src: seq<Byte>, packetType: U16, payload: seq<Byte>,
                            n: nat)
    requires |dst| == |src| == 6 && n < MAX_SPACE && Even(Padded(n)) <= |payload|
    ensures var words := CookedWords(big, id, dst, src, packetType, payload, n);
            2 * |words + AligningWord(Even(Padded(n)) + ETH_HEADER_SIZE)| % 4 == 0
  {
    CookedSize(big, id, dst, src, packetType, payload, n);
  }

  lemma {:induction false} UnpackAt(big: bool, words: seq<U16>, i: nat)
    requires i < |words|
    ensures Unpack(big, words)[2 * i] == FirstByte(big, words[i])
    ensures Unpack(big, words)[2 * i + 1] == SecondByte(big, words[i])
  {
    if i > 0 {
      UnpackAt(big, words[1..], i - 1);
    }
  }

  /** The accepted lengths whose 32-bit reads stay inside the receive buffer are exactly those up to 1520. */
  lemma ReceiveBufferFits(length: nat)
    requires 0 < length <= RX_BUFFER_SIZE
    ensures Dword(length) <= RX_BUFFER_SIZE <==> length <= 1520
    ensures Dword(length) <= RX_BUFFER_REACH
  {
  }
}
