/** What travels through the chip's FIFO: bytes packed into 16-bit words in either endian mode, and what they mean. */
module Frames {
  import opened Words
  import opened Wrappers

  type U16 = w: int | 0 <= w < 0x10000

  const ETH_MAX_FRAME_SIZE := 1518
  const ETH_HEADER_SIZE := 14
  const ETHERNET_MTU := 1500
  const MIN_PAYLOAD := 46

  /** TXMIR holds 13 bits of free space, so nothing longer is ever sent. */
  const MAX_SPACE := 0x2000

  function Even(n: nat): (m: nat)
    ensures m % 2 == 0 && n <= m <= n + 1
  {
    (n + 1) / 2 * 2
  }

  function Dword(n: nat): (m: nat)
    ensures m % 2 == 0 && n <= m <= n + 3
  {
    Twice(2 * ((n + 3) / 4))
  }

  function Twice(k: nat): (m: nat)
    ensures m == k + k && m % 2 == 0
  {
    2 * k
  }

  /** Big endian mode moves a 68k memory word as it is; little endian mode puts the first byte low. */
  function WordOf(big: bool, a: Byte, b: Byte): (w: U16) {
    if big then a * 256 + b else a + b * 256
  }

  function FirstByte(big: bool, w: U16): (b: Byte) {
    if big then w / 256 else w % 256
  }

  function SecondByte(big: bool, w: U16): (b: Byte) {
    if big then w % 256 else w / 256
  }

  function Pack(big: bool, data: seq<Byte>): (words: seq<U16>)
    requires |data| % 2 == 0
    ensures |words| == |data| / 2
  {
    if data == [] then [] else [WordOf(big, data[0], data[1])] + Pack(big, data[2..])
  }

  function Unpack(big: bool, words: seq<U16>): (data: seq<Byte>)
    ensures |data| == 2 * |words|
  {
    if words == [] then []
    else [FirstByte(big, words[0]), SecondByte(big, words[0])] + Unpack(big, words[1..])
  }

  lemma {:induction false} UnpackPack(big: bool, data: seq<Byte>)
    requires |data| % 2 == 0
    ensures Unpack(big, Pack(big, data)) == data
  {
    if data != [] {
      UnpackPack(big, data[2..]);
      assert Pack(big, data)[1..] == Pack(big, data[2..]);
      assert data == [data[0], data[1]] + data[2..];
    }
  }

  /** Writing even-length pieces one after the other writes their concatenation. */
  lemma {:induction false} PackConcat(big: bool, a: seq<Byte>, b: seq<Byte>)
    requires |a| % 2 == 0 && |b| % 2 == 0
    ensures Pack(big, a + b) == Pack(big, a) + Pack(big, b)
  {
    if a == [] {
      assert a + b == b;
    } else {
      assert (a + b)[2..] == a[2..] + b;
      PackConcat(big, a[2..], b);
      assert [WordOf(big, a[0], a[1])] + (Pack(big, a[2..]) + Pack(big, b))
          == ([WordOf(big, a[0], a[1])] + Pack(big, a[2..])) + Pack(big, b);
    }
  }

  lemma PackOneMore(big: bool, data: seq<Byte>, i: nat)
    requires 2 * i + 2 <= |data|
    ensures Pack(big, data[..2 * i + 2]) == Pack(big, data[..2 * i]) + [WordOf(big, data[2 * i], data[2 * i + 1])]
  {
    var two := [data[2 * i], data[2 * i + 1]];
    assert data[..2 * i + 2] == data[..2 * i] + two;
    PackConcat(big, data[..2 * i], two);
    assert two[2..] == [];
    assert Pack(big, two) == [WordOf(big, two[0], two[1])] + Pack(big, two[2..]);
  }

  /** The 16-bit byte swap. */
  function Swap(v: U16): (w: U16)
    ensures w % 256 == v / 256 && w / 256 == v % 256
  {
    v % 256 * 256 + v / 256
  }

  /** The 68k's memory image of a 16-bit value. */
  function InMemory(v: U16): (b: seq<Byte>) {
    [v / 256, v % 256]
  }

  const TX_CTRL_TXIC := 0x8000

  function ControlWord(frameId: U16): (w: U16) {
    TX_CTRL_TXIC + frameId % 64
  }

  /** The transmit header as it lies in memory: both fields are swapped before they are stored. */
  function TxHeader(frameId: U16, count: U16): (b: seq<Byte>) {
    InMemory(Swap(ControlWord(frameId))) + InMemory(Swap(count))
  }

  // ---- The chip's side of a transmission ----

  /** What the chip takes from a finished transfer: little endian header fields, then count bytes. */
  datatype TxFrame = TxFrame(control: U16, count: U16, bytes: seq<Byte>)

  function ChipFrame(big: bool, words: seq<U16>): (f: Option<TxFrame>) {
    var b := Unpack(big, words);
    if |b| < 4 then None
    else
      var count := WordOf(false, b[2], b[3]);
      if |b| < 4 + count then None
      else Some(TxFrame(WordOf(false, b[0], b[1]), count, b[4..4 + count]))
  }

  /** The words of a raw send, from a buffer that may be read up to the next 32-bit boundary. */
  function RawWords(big: bool, frameId: U16, buffer: seq<Byte>, length: nat): (w: seq<U16>)
    requires length < 0x10000 && Dword(length) <= |buffer|
  {
    Pack(big, TxHeader(frameId, length)) + Pack(big, buffer[..Dword(length)])
  }

  function Padded(n: nat): (m: nat) {
    if n < MIN_PAYLOAD then MIN_PAYLOAD else n
  }

  /** The words of a cooked send: five pieces, each rounded up to whole words. */
  function CookedWords(big: bool, frameId: U16, dst: seq<Byte>, src: seq<Byte>, packetType: U16,
                       payload: seq<Byte>, n: nat): (w: seq<U16>)
    requires |dst| == |src| == 6 && n < MAX_SPACE && Even(Padded(n)) <= |payload|
  {
    Pack(big, TxHeader(frameId, Padded(n) + ETH_HEADER_SIZE)) + Pack(big, dst) + Pack(big, src)
    + Pack(big, InMemory(packetType)) + Pack(big, payload[..Even(Padded(n))])
  }

  lemma ChipFrameOf(big: bool, frameId: U16, count: U16, body: seq<Byte>)
    requires |body| % 2 == 0 && count <= |body|
    ensures ChipFrame(big, Pack(big, TxHeader(frameId, count) + body))
            == Some(TxFrame(ControlWord(frameId), count, body[..count]))
  {
    var header, b := TxHeader(frameId, count), TxHeader(frameId, count) + body;
    UnpackPack(big, b);
    assert b[0] == header[0] && b[1] == header[1] && b[2] == header[2] && b[3] == header[3];
    assert b[4..4 + count] == body[..count];
  }

  /** The chip sends exactly the caller's bytes, in either endian mode. */
  lemma RawFrame(big: bool, frameId: U16, buffer: seq<Byte>, length: nat)
    requires length < 0x10000 && Dword(length) <= |buffer|
    ensures ChipFrame(big, RawWords(big, frameId, buffer, length))
            == Some(TxFrame(ControlWord(frameId), length, buffer[..length]))
  {
    PackConcat(big, TxHeader(frameId, length), buffer[..Dword(length)]);
    ChipFrameOf(big, frameId, length, buffer[..Dword(length)]);
    assert buffer[..Dword(length)][..length] == buffer[..length];
  }

  lemma CookedIsOnePack(big: bool, frameId: U16, dst: seq<Byte>, src: seq<Byte>, packetType: U16,
                        payload: seq<Byte>, n: nat)
    requires |dst| == |src| == 6 && n < MAX_SPACE && Even(Padded(n)) <= |payload|
    ensures CookedWords(big, frameId, dst, src, packetType, payload, n)
            == Pack(big, TxHeader(frameId, Padded(n) + ETH_HEADER_SIZE)
                         + (dst + src + InMemory(packetType) + payload[..Even(Padded(n))]))
  {
    var header, kind, body := TxHeader(frameId, Padded(n) + ETH_HEADER_SIZE), InMemory(packetType), payload[..Even(Padded(n))];
    PackConcat(big, header, dst);
    PackConcat(big, header + dst, src);
    PackConcat(big, header + dst + src, kind);
    PackConcat(big, header + dst + src + kind, body);
    assert header + dst + src + kind + body == header + (dst + src + kind + body);
  }

  /** The chip sends destination, source, type and the payload, lengthened to the Ethernet minimum. */
  lemma CookedFrame(big: bool, frameId: U16, dst: seq<Byte>, src: seq<Byte>, packetType: U16,
                    payload: seq<Byte>, n: nat)
    requires |dst| == |src| == 6 && n < MAX_SPACE && Even(Padded(n)) <= |payload|
    ensures ChipFrame(big, CookedWords(big, frameId, dst, src, packetType, payload, n))
            == Some(TxFrame(ControlWord(frameId), Padded(n) + ETH_HEADER_SIZE,
                            dst + src + InMemory(packetType) + payload[..Padded(n)]))
  {
    var body := dst + src + InMemory(packetType) + payload[..Even(Padded(n))];
    CookedIsOnePack(big, frameId, dst, src, packetType, payload, n);
    ChipFrameOf(big, frameId, Padded(n) + ETH_HEADER_SIZE, body);
    assert body[..Padded(n) + ETH_HEADER_SIZE] == dst + src + InMemory(packetType) + payload[..Padded(n)];
  }

  /**
   * From the minimum payload on, a cooked send is to the chip the same as a raw send of the assembled frame: same
   * control word, byte count and frame bytes, whatever the two endian modes.
   */
  lemma CookedRefinesRaw(big: bool, big': bool, frameId: U16, dst: seq<Byte>, src: seq<Byte>, packetType: U16,
                         payload: seq<Byte>, n: nat, buffer: seq<Byte>)
    requires |dst| == |src| == 6 && MIN_PAYLOAD <= n <= ETHERNET_MTU && Even(n) <= |payload|
    requires Dword(n + ETH_HEADER_SIZE) <= |buffer|
    requires buffer[..n + ETH_HEADER_SIZE] == dst + src + InMemory(packetType) + payload[..n]
    ensures ChipFrame(big, CookedWords(big, frameId, dst, src, packetType, payload, n))
            == ChipFrame(big', RawWords(big', frameId, buffer, n + ETH_HEADER_SIZE))
  {
    CookedFrame(big, frameId, dst, src, packetType, payload, n);
    RawFrame(big', frameId, buffer, n + ETH_HEADER_SIZE);
  }

  // ---- Reception ----

  /** A queued frame: the valid and error bits of its status word, its byte count, and the bytes its FIFO reads give. */
  datatype RxFrame = RxFrame(valid: bool, flagged: bool, length: nat, stream: seq<Byte>)

  /** A received Ethernet frame as the FIFO offers it: two alignment bytes, the frame, its check sequence, filler. The
      check sequence is any four bytes here. */
  function Received(align: seq<Byte>, frame: seq<Byte>, check: seq<Byte>, filler: seq<Byte>): (f: RxFrame)
    requires |align| == 2 && |check| == 4
  {
    RxFrame(true, false, |frame| + 6, align + frame + check + filler)
  }

  /** The request fields a delivered packet fills in. */
  datatype Packet = Packet(dst: seq<Byte>, src: seq<Byte>, packetType: U16, data: seq<Byte>)

  /** The 16-bit length of the data handed to a request; the subtraction wraps. */
  function DeliveredLength(raw: bool, size: U16): (n: nat)
    ensures n <= if raw then 1514 else 1500
  {
    if raw then Min(size, 1514) else Min((size - 14) % 0x10000, 1500)
  }

  /** buffer: memory from the frame's first byte on; raw requests get the whole frame, cooked ones its payload. */
  function Fulfil(raw: bool, buffer: seq<Byte>, size: U16): (p: Packet)
    requires |buffer| >= 1514
  {
    var from := if raw then 0 else 14;
    Packet(buffer[..6], buffer[6..12], WordOf(true, buffer[12], buffer[13]), buffer[from..from + DeliveredLength(raw, size)])
  }

  /**
   * A cooked send looped back and read by a cooked request gives back the addresses, the type and the payload,
   * lengthened to 46 bytes when it was shorter, for any pair of endian modes on the two sides.
   */
  lemma EndToEnd(big: bool, frameId: U16, dst: seq<Byte>, src: seq<Byte>, packetType: U16, payload: seq<Byte>, n: nat,
                 sent: TxFrame, align: seq<Byte>, check: seq<Byte>, filler: seq<Byte>, buffer: seq<Byte>)
    requires |dst| == |src| == 6 && n <= ETHERNET_MTU && Even(Padded(n)) <= |payload|
    requires ChipFrame(big, CookedWords(big, frameId, dst, src, packetType, payload, n)) == Some(sent)
    requires |align| == 2 && |check| == 4 && |buffer| >= 1518
    requires var f := Received(align, sent.bytes, check, filler);
             buffer[..|sent.bytes| + 4] == f.stream[2..f.length]
    ensures Received(align, sent.bytes, check, filler).length == Padded(n) + ETH_HEADER_SIZE + 6
    ensures Fulfil(false, buffer, |sent.bytes|) == Packet(dst, src, packetType, payload[..Padded(n)])
  {
    CookedFrame(big, frameId, dst, src, packetType, payload, n);
    var frame := sent.bytes;
    assert Received(align, frame, check, filler).stream[2..|frame| + 6] == frame + check;
    assert buffer[..|frame|] == buffer[..|frame| + 4][..|frame|] == frame;
    CookedFields(dst, src, packetType, payload[..Padded(n)], buffer);
  }

  lemma CookedFields(dst: seq<Byte>, src: seq<Byte>, packetType: U16, data: seq<Byte>, buffer: seq<Byte>)
    requires |dst| == |src| == 6 && |data| <= ETHERNET_MTU && |buffer| >= 1518
    requires buffer[..|data| + ETH_HEADER_SIZE] == dst + src + InMemory(packetType) + data
    ensures Fulfil(false, buffer, |data| + ETH_HEADER_SIZE) == Packet(dst, src, packetType, data)
  {
    var kind, frame := InMemory(packetType), buffer[..|data| + ETH_HEADER_SIZE];
    assert buffer[..6] == frame[..6] == dst;
    assert buffer[6..12] == frame[6..12] == src;
    assert buffer[12] == frame[12] == kind[0] && buffer[13] == frame[13] == kind[1];
    assert buffer[14..14 + |data|] == frame[14..] == data;
  }
}
