/** The Amiga Explorer file transfer: framed, checksummed messages and the chunked transfer of one payload. */
module AmigaExplorer {
  import opened Words
  import opened Wrappers
  import opened CrcRegister

  type U32 = n: nat | n < 0x1_0000_0000

  /** The exchange works with any checksum both sides agree on; Sum below is the one the tool uses. */
  type Checksum = seq<Byte> -> U32

  // ---- Numbers on the wire ----

  function Pack16(n: nat): (b: seq<Byte>)
    ensures |b| == 2
  {
    [n / 256 % 256, n % 256]
  }

  function Unpack16(b: seq<Byte>): (n: nat)
    requires |b| == 2
    ensures n < 0x10000
  {
    var high: int, low: int := b[0], b[1];
    high * 256 + low
  }

  /** Most significant byte first; the number is taken modulo 2 to the 32. */
  function Pack32(n: nat): (b: seq<Byte>)
    ensures |b| == 4
  {
    Pack16(n / 0x10000) + Pack16(n)
  }

  function Unpack32(b: seq<Byte>): (n: nat)
    requires |b| == 4
    ensures n < 0x1_0000_0000
  {
    Unpack16(b[..2]) * 0x10000 + Unpack16(b[2..])
  }

  lemma Unpack16Pack(n: nat)
    ensures Unpack16(Pack16(n)) == n % 0x10000
  {
    assert n == 256 * (n / 256) + n % 256;
    assert n / 256 == 256 * (n / 256 / 256) + n / 256 % 256;
    assert n == 0x10000 * (n / 256 / 256) + (256 * (n / 256 % 256) + n % 256);
  }

  lemma Low32(n: nat, q: nat, r: nat)
    requires n == 0x1_0000_0000 * q + r && r < 0x1_0000_0000
    ensures n % 0x1_0000_0000 == r
  {
  }

  lemma Digits(n: nat)
    ensures n % 0x1_0000_0000 == 0x10000 * (n / 0x10000 % 0x10000) + n % 0x10000
  {
    var high := n / 0x10000;
    assert n == 0x10000 * high + n % 0x10000;
    assert high == 0x10000 * (high / 0x10000) + high % 0x10000;
    Low32(n, high / 0x10000, 0x10000 * (high % 0x10000) + n % 0x10000);
  }

  lemma Unpack32Pack(n: nat)
    ensures Unpack32(Pack32(n)) == n % 0x1_0000_0000
  {
    Digits(n);
    Unpack16Pack(n / 0x10000);
    Unpack16Pack(n);
    assert Pack32(n)[..2] == Pack16(n / 0x10000) && Pack32(n)[2..] == Pack16(n);
  }

  lemma Pow2Of32()
    ensures Pow2(32) == 0x1_0000_0000
  {
    assert Pow2(8) == 256;
    assert Pow2(16) == 0x10000;
    assert Pow2(24) == 0x100_0000;
  }

  /** The checksum of a byte string as a number. */
  function Sum(m: seq<Byte>): (n: U32) {
    Pow2Of32();
    ToNat(ReflectedCrc(IEEE_REFLECTED, m))
  }

  // ---- Messages ----

  const PKOK: seq<Byte> := [80, 107, 79, 107]

  function Header(id: nat, sequence: nat, length: nat): (h: seq<Byte>)
    ensures |h| == 8
  {
    Pack16(id) + Pack16(length) + Pack32(sequence)
  }

  function Checked(check: Checksum, m: seq<Byte>): (b: seq<Byte>)
    ensures |b| == |m| + 4
  {
    m + Pack32(check(m))
  }

  /** A message on the wire: header and checksum, then, if there is one, the payload and its checksum. */
  function Wire(check: Checksum, id: nat, sequence: nat, payload: seq<Byte>): (b: seq<Byte>)
    ensures |b| >= 12
  {
    Checked(check, Header(id, sequence, |payload|)) + if payload == [] then [] else Checked(check, payload)
  }

  datatype Message = Message(id: nat, length: nat, sequence: nat, payload: seq<Byte>)

  datatype Error = Timeout | BadHeader | UnexpectedCompliance | InvalidRequest(id: nat) | FileExists | NothingToSend
                 | LostPart(offset: nat) | BadTotal | DivisionByZero

  datatype Result<T> = Ok(value: T) | Err(error: Error)

  /** incoming: bytes the other side sends, not yet read; written: what was written to the port, write by write;
      mismatches: checksums reported as wrong, which stops nothing. */
  datatype Port = Port(incoming: seq<Byte>, written: seq<seq<Byte>>, sequence: nat, mismatches: nat, check: Checksum)

  /** The bytes of several writes, as they travel. */
  function Flat(writes: seq<seq<Byte>>): (b: seq<Byte>) {
    if writes == [] then [] else writes[0] + Flat(writes[1..])
  }

  function Read(p: Port, n: nat): (r: (seq<Byte>, Port))
    ensures |r.0| == Min(n, |p.incoming|) && |r.1.incoming| == |p.incoming| - |r.0|
  {
    var k := Min(n, |p.incoming|);
    (p.incoming[..k], p.(incoming := p.incoming[k..]))
  }

  function Send(p: Port, b: seq<Byte>): (p': Port) {
    p.(written := p.written + [b])
  }

  function SendMessage(p: Port, id: nat, payload: seq<Byte>): (p': Port) {
    Send(p, Wire(p.check, id, p.sequence, payload)).(sequence := p.sequence + 1)
  }

  function Compared(p: Port, m: seq<Byte>, sum: nat): (p': Port) {
    if sum == p.check(m) then p else p.(mismatches := p.mismatches + 1)
  }

  /** A checksum that did not arrive in full counts as zero. */
  function SumIn(b: seq<Byte>): (n: nat) {
    if |b| == 4 then Unpack32(b) else 0
  }

  function DecodeHeader(rx: seq<Byte>): (m: Message)
    requires |rx| == 12
  {
    Message(Unpack16(rx[..2]), Unpack16(rx[2..4]), Unpack32(rx[4..8]), rx)
  }

  /** An empty message keeps its header as payload. */
  function ReceivePayload(p: Port, m: Message): (r: (Message, Port))
    ensures |r.1.incoming| <= |p.incoming|
  {
    if m.length == 0 then (m, p)
    else
      var (payload, p1) := Read(p, m.length);
      var (sum, p2) := Read(p1, 4);
      (m.(payload := payload), Compared(p2, payload, SumIn(sum)))
  }

  function Receive(p: Port): (r: (Result<Message>, Port))
    ensures r.0.Ok? ==> |r.1.incoming| <= |p.incoming| - 12
    ensures |r.1.incoming| <= |p.incoming|
  {
    var (rx, p1) := Read(p, 12);
    if rx == [] then (Err(Timeout), p1)
    else if |rx| != 12 then (Err(BadHeader), p1)
    else
      var (m, p2) := ReceivePayload(Compared(p1, rx[..8], Unpack32(rx[8..12])), DecodeHeader(rx));
      (Ok(m), p2)
  }

  function Acknowledge(p: Port): (p': Port) {
    Send(p, PKOK)
  }

  function AwaitAck(p: Port): (r: (bool, Port))
    ensures |r.1.incoming| <= |p.incoming|
  {
    var (ack, p') := Read(p, 4);
    (ack == PKOK, p')
  }

  /** Sends a message and takes its acknowledgement. */
  function Exchange(p: Port, id: nat, payload: seq<Byte>): (r: (bool, Port))
    ensures |r.1.incoming| <= |p.incoming|
  {
    AwaitAck(SendMessage(p, id, payload))
  }

  // ---- Round trip of one message ----

  lemma HeaderFields(id: nat, sequence: nat, length: nat)
    requires id < 0x10000 && length < 0x10000
    ensures var h := Header(id, sequence, length);
            Unpack16(h[..2]) == id && Unpack16(h[2..4]) == length && Unpack32(h[4..8]) == sequence % 0x1_0000_0000
  {
    var h := Header(id, sequence, length);
    assert h[..2] == Pack16(id) && h[2..4] == Pack16(length) && h[4..8] == Pack32(sequence);
    Unpack16Pack(id);
    Unpack16Pack(length);
    Unpack32Pack(sequence);
  }

  /** A number on the wire: its two or four bytes, the most significant first. */
  predicate Holds16(b: seq<Byte>, i: nat, n: nat)
    requires i + 2 <= |b|
  {
    b[i] == n / 256 % 256 && b[i + 1] == n % 256
  }

  predicate Holds32(b: seq<Byte>, i: nat, n: nat)
    requires i + 4 <= |b|
  {
    Holds16(b, i, n / 0x10000) && Holds16(b, i + 2, n)
  }

  /**
   * Where everything stands in a message: kind, payload length and sequence number, the checksum of these eight bytes,
   * and behind them the payload, if there is one, and its checksum.
   */
  lemma WireLayout(check: Checksum, id: nat, sequence: nat, payload: seq<Byte>)
    ensures var w, n := Wire(check, id, sequence, payload), |payload|;
            && |w| == (if n == 0 then 12 else n + 16)
            && Holds16(w, 0, id) && Holds16(w, 2, n) && Holds32(w, 4, sequence) && Holds32(w, 8, check(w[..8]))
            && (n > 0 ==> w[12..n + 12] == payload && Holds32(w, n + 12, check(payload)))
  {
    var h := Header(id, sequence, |payload|);
    var first, behind := Checked(check, h), if payload == [] then [] else Checked(check, payload);
    assert (first + behind)[..8] == h;
    HeaderStands(id, sequence, |payload|);
    SumStands(check, h);
    Earlier(first, behind);
    if payload != [] {
      SumStands(check, payload);
      assert (first + behind)[12..|payload| + 12] == payload;
      assert (first + behind)[|payload| + 12..] == Checked(check, payload)[|payload|..];
    }
  }

  lemma HeaderStands(id: nat, sequence: nat, length: nat)
    ensures var h := Header(id, sequence, length); Holds16(h, 0, id) && Holds16(h, 2, length) && Holds32(h, 4, sequence)
  {
  }

  lemma SumStands(check: Checksum, m: seq<Byte>)
    ensures Holds32(Checked(check, m), |m|, check(m)) && Checked(check, m)[..|m|] == m
  {
  }

  lemma Earlier(first: seq<Byte>, behind: seq<Byte>)
    requires |first| >= 12
    ensures forall i :: 0 <= i < 12 ==> (first + behind)[i] == first[i]
  {
  }

  /** What a receiver takes from the first twelve bytes, whatever they are. */
  lemma HeaderRead(rx: seq<Byte>)
    requires |rx| == 12
    ensures var m := DecodeHeader(rx);
            && Holds16(rx, 0, m.id) && Holds16(rx, 2, m.length) && Holds32(rx, 4, m.sequence) && m.payload == rx
            && m.id < 0x10000 && m.length < 0x10000 && m.sequence < 0x1_0000_0000
  {
    var m := DecodeHeader(rx);
    TwoBytes(rx[..2]);
    TwoBytes(rx[2..4]);
    TwoBytes(rx[4..8][..2]);
    TwoBytes(rx[4..8][2..]);
    FourBytesRead(m.sequence, Unpack16(rx[4..8][..2]), Unpack16(rx[4..8][2..]));
  }

  lemma TwoBytes(b: seq<Byte>)
    requires |b| == 2
    ensures Holds16(b, 0, Unpack16(b))
  {
  }

  lemma FourBytesRead(n: nat, high: nat, low: nat)
    requires n == high * 0x10000 + low && low < 0x10000
    ensures n / 0x10000 == high && n / 256 % 256 == low / 256 % 256 && n % 256 == low % 256
  {
    assert n == 256 * (256 * high + low / 256) + low % 256;
    assert n / 256 == 256 * high + low / 256;
  }

  lemma TakeFirst(p: Port, first: seq<Byte>, rest: seq<Byte>)
    requires p.incoming == first + rest
    ensures Read(p, |first|) == (first, p.(incoming := rest))
  {
    assert p.incoming[..|first|] == first && p.incoming[|first|..] == rest;
  }

  lemma DecodeChecked(check: Checksum, id: nat, sequence: nat, length: nat)
    requires id < 0x10000 && length < 0x10000
    ensures var rx := Checked(check, Header(id, sequence, length));
            && DecodeHeader(rx) == Message(id, length, sequence % 0x1_0000_0000, rx)
            && Unpack32(rx[8..12]) == check(rx[..8])
  {
    var h := Header(id, sequence, length);
    var rx := Checked(check, h);
    HeaderFields(id, sequence, length);
    hide Pack16, Unpack16, Pack32, Unpack32, Header;
    assert rx[..2] == h[..2] && rx[2..4] == h[2..4] && rx[4..8] == h[4..8];
    assert rx[..8] == h && rx[8..12] == Pack32(check(h));
    Unpack32Pack(check(h));
  }

  /** A payload and four more bytes. */
  lemma ReadSummed(p: Port, payload: seq<Byte>, sum: seq<Byte>, rest: seq<Byte>)
    requires |sum| == 4 && p.incoming == payload + sum + rest
    ensures Read(p, |payload|) == (payload, p.(incoming := sum + rest))
    ensures Read(p.(incoming := sum + rest), 4) == (sum, p.(incoming := rest))
  {
    assert p.incoming == payload + (sum + rest);
    TakeFirst(p, payload, sum + rest);
    TakeFirst(p.(incoming := sum + rest), sum, rest);
  }

  lemma ReceiveSummed(p: Port, m: Message, payload: seq<Byte>, sum: nat, rest: seq<Byte>)
    requires m.length == |payload| > 0 && sum < 0x1_0000_0000 && p.incoming == payload + Pack32(sum) + rest
    ensures ReceivePayload(p, m) == (m.(payload := payload), Compared(p.(incoming := rest), payload, sum))
  {
    var four := Pack32(sum);
    ReadSummed(p, payload, four, rest);
    Unpack32Pack(sum);
  }

  /** What a receiver gets from a message: the payload, or, when there is none, the header. */
  function Got(check: Checksum, id: nat, sequence: nat, payload: seq<Byte>): (m: Message) {
    Message(id, |payload|, sequence % 0x1_0000_0000, if payload == [] then Checked(check, Header(id, sequence, 0)) else payload)
  }

  lemma ReceiveHead(p: Port, id: nat, sequence: nat, length: nat, tail: seq<Byte>)
    requires id < 0x10000 && length < 0x10000 && p.incoming == Checked(p.check, Header(id, sequence, length)) + tail
    ensures var rx := Checked(p.check, Header(id, sequence, length));
            var (m, p') := ReceivePayload(p.(incoming := tail), Message(id, length, sequence % 0x1_0000_0000, rx));
            Receive(p) == (Ok(m), p')
  {
    TakeFirst(p, Checked(p.check, Header(id, sequence, length)), tail);
    DecodeChecked(p.check, id, sequence, length);
  }

  /** What one side sends the other receives, with both checksums right. */
  lemma ReceiveWire(p: Port, id: nat, sequence: nat, payload: seq<Byte>, rest: seq<Byte>)
    requires id < 0x10000 && |payload| < 0x10000
    requires p.incoming == Wire(p.check, id, sequence, payload) + rest
    ensures Receive(p) == (Ok(Got(p.check, id, sequence, payload)), p.(incoming := rest))
  {
    var head := Checked(p.check, Header(id, sequence, |payload|));
    if payload == [] {
      assert p.incoming == head + rest;
      ReceiveHead(p, id, sequence, 0, rest);
    } else {
      var tail := payload + Pack32(p.check(payload)) + rest;
      assert p.incoming == head + tail;
      ReceiveHead(p, id, sequence, |payload|, tail);
      ReceiveSummed(p.(incoming := tail), Message(id, |payload|, sequence % 0x1_0000_0000, head), payload, p.check(payload), rest);
    }
  }

  // ---- Damaged payloads ----

  lemma SumInjective(m: seq<Byte>, n: seq<Byte>)
    requires Sum(m) == Sum(n)
    ensures Crc(IEEE, m) == Crc(IEEE, n)
  {
    var a, b := ReflectedCrc(IEEE_REFLECTED, m), ReflectedCrc(IEEE_REFLECTED, n);
    FromToNat(a);
    FromToNat(b);
    ReflectedIsComplementOfReversal(m);
    ReflectedIsComplementOfReversal(n);
    var c, d := Crc(IEEE, m), Crc(IEEE, n);
    assert a == Not(Reverse(c)) && b == Not(Reverse(d));
    forall i | 0 <= i < 32 ensures c[i] == d[i] {
      assert a[31 - i] == !c[i] && b[31 - i] == !d[i];
    }
  }

  lemma DamageChangesSum(payload: seq<Byte>, damaged: seq<Byte>, from: nat, width: nat)
    requires |payload| == |damaged| && damaged != payload && width <= 32 && from + width <= 8 * |payload|
    requires forall i :: 0 <= i < 8 * |payload| && !(from <= i < from + width) ==>
                         BitStream(payload)[i] == BitStream(damaged)[i]
    ensures Sum(payload) != Sum(damaged)
  {
    GeneratorFacts();
    BurstDetected(IEEE, payload, damaged, from, width);
    if Sum(payload) == Sum(damaged) {
      SumInjective(payload, damaged);
    }
  }

  /** A payload damaged within 32 consecutive bits is reported, and handed on as it came. */
  lemma DamageReported(p: Port, m: Message, payload: seq<Byte>, damaged: seq<Byte>, from: nat, width: nat, rest: seq<Byte>)
    requires m.length == |payload| == |damaged| > 0 && damaged != payload && width <= 32 && from + width <= 8 * |payload|
    requires forall i :: 0 <= i < 8 * |payload| && !(from <= i < from + width) ==>
                         BitStream(payload)[i] == BitStream(damaged)[i]
    requires p.incoming == damaged + Pack32(Sum(payload)) + rest && p.check(damaged) == Sum(damaged)
    ensures ReceivePayload(p, m) == (m.(payload := damaged), p.(incoming := rest, mismatches := p.mismatches + 1))
  {
    DamageChangesSum(payload, damaged, from, width);
    ReceiveSummed(p, m, damaged, Sum(payload), rest);
  }

  // ---- Sending a payload in parts ----

  const MAXLEN := 512

  /** The bytes of the next part. */
  function PartOf(buffer: seq<Byte>): (part: seq<Byte>)
    ensures |part| <= MAXLEN - 4 && (buffer != [] ==> part != []) && part <= buffer
  {
    buffer[..Min(|buffer|, MAXLEN - 4)]
  }

  function RestOf(buffer: seq<Byte>): (rest: seq<Byte>)
    ensures PartOf(buffer) + rest == buffer
    ensures buffer != [] ==> |rest| < |buffer|
  {
    buffer[Min(|buffer|, MAXLEN - 4)..]
  }

  /** Waits for the other side to ask for more. */
  function AwaitRequest(p: Port): (r: (Result<()>, Port))
    ensures |r.1.incoming| <= |p.incoming|
  {
    var (received, p1) := Receive(p);
    match received
    case Err(e) => (Err(e), p1)
    case Ok(m) => (if m.id == 0 then Ok(()) else Err(InvalidRequest(m.id)), Acknowledge(p1))
  }

  /** Waits to be asked, answers with a message and takes its acknowledgement. */
  function Answer(p: Port, id: nat, payload: seq<Byte>): (r: (Result<()>, Port)) {
    var (asked, p1) := AwaitRequest(p);
    if asked.Err? then (asked, p1)
    else
      var (ok, p2) := Exchange(p1, id, payload);
      (if ok then Ok(()) else Err(UnexpectedCompliance), p2)
  }

  /** The loop over the parts, then the end message. */
  function PutParts(p: Port, buffer: seq<Byte>, sent: nat): (r: (Result<()>, Port))
    decreases |buffer|
  {
    if buffer == [] then Answer(p, 4, [])
    else
      var (answered, p') := Answer(p, 5, Pack32(sent) + PartOf(buffer));
      if answered.Err? then (answered, p') else PutParts(p', RestOf(buffer), sent + |PartOf(buffer)|)
  }

  /** The first request may instead say that the file is there already. */
  function Opening(p: Port, overwrite: bool): (r: (Result<()>, Port)) {
    var (received, p1) := Receive(p);
    match received
    case Err(e) => (Err(e), p1)
    case Ok(m) =>
      var p2 := Acknowledge(p1);
      if m.id == 0 then (Ok(()), p2)
      else
        var (ok, p3) := Exchange(p2, 0, []);
        if !ok then (Err(UnexpectedCompliance), p3)
        else if !overwrite && m.id == 8 then (Err(FileExists), p3) else (Ok(()), p3)
  }

  /** The guard takes an empty payload for none, and the one-character payload "0" too. */
  predicate Sendable(data: seq<Byte>) {
    data != [] && data != [48]
  }

  function Put(p: Port, data: seq<Byte>, overwrite: bool): (r: (Result<()>, Port)) {
    if !Sendable(data) then (Err(NothingToSend), p)
    else
      var (started, p1) := Opening(p, overwrite);
      if started.Err? then (started, p1)
      else
        var (ok, p2) := Exchange(p1, 3, Pack32(|data|) + Pack32(MAXLEN));
        if ok then PutParts(p2, data, 0) else (Err(UnexpectedCompliance), p2)
  }

  // ---- Fetching a payload in parts ----

  /** The number a payload starts with; too short a payload counts as zero. */
  function NumberIn(payload: seq<Byte>): (n: nat) {
    if |payload| >= 4 then Unpack32(payload[..4]) else 0
  }

  /** One part: its offset must be where the previous one ended. */
  function Append(m: Message, msg: seq<Byte>, total: nat): (r: Result<seq<Byte>>) {
    if m.length == 0 then Ok(msg)
    else if NumberIn(m.payload) != |msg| then Err(LostPart(NumberIn(m.payload)))
    else if total == 0 then Err(DivisionByZero)
    else Ok(msg + if |m.payload| >= 4 then m.payload[4..] else [])
  }

  function GetParts(p: Port, msg: seq<Byte>, total: nat): (r: (Result<seq<Byte>>, Port))
    decreases |p.incoming|
  {
    var (asked, p1) := Exchange(p, 0, []);
    if !asked then (Err(UnexpectedCompliance), p1)
    else
      var (received, p2) := Receive(p1);
      match received
      case Err(e) => (Err(e), p2)
      case Ok(m) =>
        var appended := Append(m, msg, total);
        if appended.Err? then (appended, p2)
        else
          var p3 := Acknowledge(p2);
          if m.id == 5 then GetParts(p3, appended.value, total)
          else (if |appended.value| == total then appended else Err(BadTotal), p3)
  }

  function Get(p: Port): (r: (Result<seq<Byte>>, Port)) {
    var (received, p1) := Receive(p);
    match received
    case Err(e) => (Err(e), p1)
    case Ok(m) =>
      var p2 := Acknowledge(p1);
      if m.id != 3 then (Err(InvalidRequest(m.id)), p2) else GetParts(p2, [], NumberIn(m.payload))
  }

  // ---- The conversation ----

  function Parts(buffer: seq<Byte>): (n: nat)
    decreases |buffer|
  {
    if buffer == [] then 0 else 1 + Parts(RestOf(buffer))
  }

  /** The fetching side's requests, each followed by its acknowledgement of the answer. */
  function Requests(check: Checksum, n: nat, sequence: nat): (writes: seq<seq<Byte>>) {
    if n == 0 then [] else [Wire(check, 0, sequence, []), PKOK] + Requests(check, n - 1, sequence + 1)
  }

  /** The sending side's answers, each preceded by its acknowledgement of the request. */
  function Answers(check: Checksum, buffer: seq<Byte>, sent: nat, sequence: nat): (writes: seq<seq<Byte>>)
    decreases |buffer|
  {
    if buffer == [] then [PKOK, Wire(check, 4, sequence, [])]
    else [PKOK, Wire(check, 5, sequence, Pack32(sent) + PartOf(buffer))]
         + Answers(check, RestOf(buffer), sent + |PartOf(buffer)|, sequence + 1)
  }

  /** All the sending side says after acknowledging the first request. */
  function Sayings(check: Checksum, data: seq<Byte>, sequence: nat): (writes: seq<seq<Byte>>) {
    [Wire(check, 3, sequence, Pack32(|data|) + Pack32(MAXLEN))] + Answers(check, data, 0, sequence + 1)
  }

  /** All the fetching side says: it acknowledges the announcement, then asks once for each part and once for the end. */
  function Replies(check: Checksum, data: seq<Byte>, sequence: nat): (writes: seq<seq<Byte>>) {
    [PKOK] + Requests(check, Parts(data) + 1, sequence)
  }

  lemma FlatTwo(a: seq<Byte>, b: seq<Byte>, writes: seq<seq<Byte>>, rest: seq<Byte>)
    ensures Flat([a, b] + writes) + rest == a + (b + (Flat(writes) + rest))
  {
    assert ([a, b] + writes)[1..] == [b] + writes && ([b] + writes)[1..] == writes;
  }

  lemma FlatOne(a: seq<Byte>, writes: seq<seq<Byte>>, rest: seq<Byte>)
    ensures Flat([a] + writes) + rest == a + (Flat(writes) + rest)
  {
    assert ([a] + writes)[1..] == writes;
  }

  lemma AppendTwo(writes: seq<seq<Byte>>, a: seq<Byte>, b: seq<Byte>, more: seq<seq<Byte>>)
    ensures writes + [a] + [b] == writes + [a, b]
    ensures writes + [a, b] + more == writes + ([a, b] + more)
  {
  }

  lemma AckFirst(p: Port, rest: seq<Byte>)
    requires p.incoming == PKOK + rest
    ensures AwaitAck(p) == (true, p.(incoming := rest))
  {
    TakeFirst(p, PKOK, rest);
  }

  lemma RequestFirst(p: Port, sequence: nat, rest: seq<Byte>)
    requires p.incoming == Wire(p.check, 0, sequence, []) + rest
    ensures AwaitRequest(p) == (Ok(()), Acknowledge(p.(incoming := rest)))
  {
    ReceiveWire(p, 0, sequence, [], rest);
  }

  lemma ExchangeTakesAck(p: Port, id: nat, payload: seq<Byte>, rest: seq<Byte>)
    requires p.incoming == PKOK + rest
    ensures Exchange(p, id, payload)
            == (true, p.(incoming := rest, written := p.written + [Wire(p.check, id, p.sequence, payload)], sequence := p.sequence + 1))
  {
    AckFirst(SendMessage(p, id, payload), rest);
  }

  /** The port after a request was answered with a message that was acknowledged. */
  function Answered(p: Port, id: nat, payload: seq<Byte>, rest: seq<Byte>): (p': Port) {
    p.(incoming := rest, written := p.written + [PKOK, Wire(p.check, id, p.sequence, payload)], sequence := p.sequence + 1)
  }

  lemma AnswerTakesAck(p: Port, id: nat, payload: seq<Byte>, rest: seq<Byte>)
    ensures Exchange(Acknowledge(p.(incoming := PKOK + rest)), id, payload) == (true, Answered(p, id, payload, rest))
  {
    ExchangeTakesAck(Acknowledge(p.(incoming := PKOK + rest)), id, payload, rest);
    AppendTwo(p.written, PKOK, Wire(p.check, id, p.sequence, payload), []);
  }

  lemma AnswerGiven(p: Port, id: nat, payload: seq<Byte>, asking: nat, rest: seq<Byte>)
    requires p.incoming == Wire(p.check, 0, asking, []) + (PKOK + rest)
    ensures Answer(p, id, payload) == (Ok(()), Answered(p, id, payload, rest))
  {
    RequestFirst(p, asking, PKOK + rest);
    AnswerTakesAck(p, id, payload, rest);
  }

  lemma NextRequest(check: Checksum, n: nat, asking: nat, rest: seq<Byte>)
    ensures Flat(Requests(check, n + 1, asking)) + rest == Wire(check, 0, asking, []) + (PKOK + (Flat(Requests(check, n, asking + 1)) + rest))
  {
    FlatTwo(Wire(check, 0, asking, []), PKOK, Requests(check, n, asking + 1), rest);
  }

  lemma PutEnds(p: Port, sent: nat, asking: nat, rest: seq<Byte>)
    requires p.incoming == Flat(Requests(p.check, 1, asking)) + rest
    ensures PutParts(p, [], sent) == (Ok(()), Answered(p, 4, [], rest))
  {
    NextRequest(p.check, 0, asking, rest);
    assert Flat(Requests(p.check, 0, asking + 1)) + rest == rest;
    AnswerGiven(p, 4, [], asking, rest);
  }

  /** The writes so far, and then the answers one by one. */
  function Said(check: Checksum, written: seq<seq<Byte>>, buffer: seq<Byte>, sent: nat, sequence: nat): (writes: seq<seq<Byte>>)
    decreases |buffer|
  {
    if buffer == [] then written + [PKOK, Wire(check, 4, sequence, [])]
    else Said(check, written + [PKOK, Wire(check, 5, sequence, Pack32(sent) + PartOf(buffer))], RestOf(buffer),
              sent + |PartOf(buffer)|, sequence + 1)
  }

  lemma {:induction false} SaidIsAnswers(check: Checksum, written: seq<seq<Byte>>, buffer: seq<Byte>, sent: nat, sequence: nat)
    ensures Said(check, written, buffer, sent, sequence) == written + Answers(check, buffer, sent, sequence)
    decreases |buffer|
  {
    if buffer != [] {
      var one := Wire(check, 5, sequence, Pack32(sent) + PartOf(buffer));
      var more := Answers(check, RestOf(buffer), sent + |PartOf(buffer)|, sequence + 1);
      SaidIsAnswers(check, written + [PKOK, one], RestOf(buffer), sent + |PartOf(buffer)|, sequence + 1);
      AppendTwo(written, PKOK, one, more);
    }
  }

  lemma SaidStep(check: Checksum, written: seq<seq<Byte>>, buffer: seq<Byte>, sent: nat, sequence: nat)
    requires buffer != []
    ensures Said(check, written, buffer, sent, sequence)
            == Said(check, written + [PKOK, Wire(check, 5, sequence, Pack32(sent) + PartOf(buffer))], RestOf(buffer),
                    sent + |PartOf(buffer)|, sequence + 1)
  {
  }

  lemma PutGoesOn(p: Port, buffer: seq<Byte>, sent: nat, n: nat, asking: nat, rest: seq<Byte>) returns (p': Port)
    requires buffer != [] && p.incoming == Flat(Requests(p.check, n + 1, asking)) + rest
    ensures p'.incoming == Flat(Requests(p.check, n, asking + 1)) + rest
    ensures p' == p.(incoming := p'.incoming, written := p'.written, sequence := p.sequence + 1)
    ensures Said(p.check, p'.written, RestOf(buffer), sent + |PartOf(buffer)|, p.sequence + 1)
            == Said(p.check, p.written, buffer, sent, p.sequence)
    ensures p'.written == p.written + [PKOK, Wire(p.check, 5, p.sequence, Pack32(sent) + PartOf(buffer))]
    ensures PutParts(p, buffer, sent) == PutParts(p', RestOf(buffer), sent + |PartOf(buffer)|)
  {
    hide Answer, Wire;
    var more := Flat(Requests(p.check, n, asking + 1)) + rest;
    NextRequest(p.check, n, asking, rest);
    AnswerGiven(p, 5, Pack32(sent) + PartOf(buffer), asking, more);
    SaidStep(p.check, p.written, buffer, sent, p.sequence);
    p' := Answered(p, 5, Pack32(sent) + PartOf(buffer), more);
  }

  /** Asked often enough, the sending side gives its answers, one after the other, and ends. */
  lemma {:induction false} PutPartsSays(p: Port, buffer: seq<Byte>, sent: nat, n: nat, asking: nat, rest: seq<Byte>)
    returns (said: seq<seq<Byte>>)
    requires n == Parts(buffer) && p.incoming == Flat(Requests(p.check, n + 1, asking)) + rest
    ensures PutParts(p, buffer, sent) == (Ok(()), p.(incoming := rest, written := said, sequence := p.sequence + n + 1))
    ensures said == Said(p.check, p.written, buffer, sent, p.sequence)
    decreases |buffer|
  {
    hide Answer, Wire;
    if buffer == [] {
      PutEnds(p, sent, asking, rest);
      said := Answered(p, 4, [], rest).written;
    } else {
      var p' := PutGoesOn(p, buffer, sent, n, asking, rest);
      said := PutPartsSays(p', RestOf(buffer), sent + |PartOf(buffer)|, n - 1, asking + 1, rest);
    }
  }

  /** A whole put: opened by a request, it announces the length and sends everything. */
  lemma PutSays(p: Port, data: seq<Byte>, overwrite: bool, first: nat, asking: nat, rest: seq<Byte>)
    returns (said: seq<seq<Byte>>)
    requires Sendable(data)
    requires p.incoming == Wire(p.check, 0, first, []) + (Flat(Replies(p.check, data, asking)) + rest)
    ensures Put(p, data, overwrite)
            == (Ok(()), p.(incoming := rest, written := said, sequence := p.sequence + Parts(data) + 2))
    ensures said == p.written + ([PKOK] + Sayings(p.check, data, p.sequence))
  {
    hide Receive, Wire, Answers, Said;
    var later := Requests(p.check, Parts(data) + 1, asking);
    var more := Flat(later) + rest;
    FlatOne(PKOK, later, rest);
    OpeningTaken(p, overwrite, first, PKOK + more);
    var announced := Pack32(|data|) + Pack32(MAXLEN);
    AnswerTakesAck(p, 3, announced, more);
    said := PutPartsSays(Answered(p, 3, announced, more), data, 0, Parts(data), asking, rest);
    var answers := Answers(p.check, data, 0, p.sequence + 1);
    SaidIsAnswers(p.check, p.written + [PKOK, Wire(p.check, 3, p.sequence, announced)], data, 0, p.sequence + 1);
    SayingsJoin(p.written, Wire(p.check, 3, p.sequence, announced), answers);
  }

  lemma OpeningTaken(p: Port, overwrite: bool, first: nat, rest: seq<Byte>)
    requires p.incoming == Wire(p.check, 0, first, []) + rest
    ensures Opening(p, overwrite) == (Ok(()), Acknowledge(p.(incoming := rest)))
  {
    ReceiveWire(p, 0, first, [], rest);
  }

  lemma SayingsJoin(written: seq<seq<Byte>>, one: seq<Byte>, more: seq<seq<Byte>>)
    ensures written + [PKOK, one] + more == written + ([PKOK] + ([one] + more))
  {
  }

  // ---- The fetching side ----

  /** The port after it asked, was acknowledged, took a message and acknowledged that. */
  function Fetched(p: Port, rest: seq<Byte>): (p': Port) {
    p.(incoming := rest, written := p.written + [Wire(p.check, 0, p.sequence, []), PKOK], sequence := p.sequence + 1)
  }

  lemma FetchOne(p: Port, id: nat, sequence: nat, payload: seq<Byte>, rest: seq<Byte>)
    requires id < 0x10000 && |payload| < 0x10000
    requires p.incoming == PKOK + (Wire(p.check, id, sequence, payload) + rest)
    ensures var (asked, p1) := Exchange(p, 0, []);
            asked && Receive(p1).0 == Ok(Got(p.check, id, sequence, payload)) && Acknowledge(Receive(p1).1) == Fetched(p, rest)
  {
    var more := Wire(p.check, id, sequence, payload) + rest;
    ExchangeTakesAck(p, 0, [], more);
    ReceiveWire(Exchange(p, 0, []).1, id, sequence, payload, rest);
    AppendTwo(p.written, Wire(p.check, 0, p.sequence, []), PKOK, []);
  }

  lemma AppendPart(check: Checksum, sequence: nat, msg: seq<Byte>, part: seq<Byte>, total: nat)
    requires part != [] && |msg| < 0x1_0000_0000 && total > 0
    ensures Append(Got(check, 5, sequence, Pack32(|msg|) + part), msg, total) == Ok(msg + part)
  {
    var payload := Pack32(|msg|) + part;
    assert payload[..4] == Pack32(|msg|) && payload[4..] == part;
    Unpack32Pack(|msg|);
  }

  lemma GetsPart(p: Port, msg: seq<Byte>, total: nat, buffer: seq<Byte>, sequence: nat, rest: seq<Byte>)
    requires buffer != [] && |msg| < 0x1_0000_0000 && total > 0
    requires p.incoming == PKOK + (Wire(p.check, 5, sequence, Pack32(|msg|) + PartOf(buffer)) + rest)
    ensures GetParts(p, msg, total) == GetParts(Fetched(p, rest), msg + PartOf(buffer), total)
  {
    hide Exchange, Receive, Append, Wire;
    FetchOne(p, 5, sequence, Pack32(|msg|) + PartOf(buffer), rest);
    AppendPart(p.check, sequence, msg, PartOf(buffer), total);
  }

  lemma GetsEnd(p: Port, msg: seq<Byte>, sequence: nat, rest: seq<Byte>)
    requires p.incoming == PKOK + (Wire(p.check, 4, sequence, []) + rest)
    ensures GetParts(p, msg, |msg|) == (Ok(msg), Fetched(p, rest))
  {
    hide Exchange, Receive, Wire;
    FetchOne(p, 4, sequence, [], rest);
  }

  /** The writes so far, and then n requests one by one. */
  function Asked(check: Checksum, written: seq<seq<Byte>>, n: nat, sequence: nat): (writes: seq<seq<Byte>>)
    decreases n
  {
    if n == 0 then written else Asked(check, written + [Wire(check, 0, sequence, []), PKOK], n - 1, sequence + 1)
  }

  lemma {:induction false} AskedIsRequests(check: Checksum, written: seq<seq<Byte>>, n: nat, sequence: nat)
    ensures Asked(check, written, n, sequence) == written + Requests(check, n, sequence)
    decreases n
  {
    hide Wire;
    if n > 0 {
      AskedIsRequests(check, written + [Wire(check, 0, sequence, []), PKOK], n - 1, sequence + 1);
      AppendTwo(written, Wire(check, 0, sequence, []), PKOK, Requests(check, n - 1, sequence + 1));
    } else {
      assert written + [] == written;
    }
  }

  lemma AnswersInOrder(check: Checksum, buffer: seq<Byte>, sent: nat, sequence: nat, rest: seq<Byte>)
    ensures buffer == [] ==>
              Flat(Answers(check, buffer, sent, sequence)) + rest == PKOK + (Wire(check, 4, sequence, []) + rest)
    ensures buffer != [] ==>
              Flat(Answers(check, buffer, sent, sequence)) + rest
              == PKOK + (Wire(check, 5, sequence, Pack32(sent) + PartOf(buffer))
                         + (Flat(Answers(check, RestOf(buffer), sent + |PartOf(buffer)|, sequence + 1)) + rest))
  {
    hide Wire;
    if buffer == [] {
      FlatTwo(PKOK, Wire(check, 4, sequence, []), [], rest);
      assert [PKOK, Wire(check, 4, sequence, [])] + [] == [PKOK, Wire(check, 4, sequence, [])];
      assert Flat([]) + rest == rest;
    } else {
      FlatTwo(PKOK, Wire(check, 5, sequence, Pack32(sent) + PartOf(buffer)),
              Answers(check, RestOf(buffer), sent + |PartOf(buffer)|, sequence + 1), rest);
    }
  }

  lemma GetsMore(p: Port, msg: seq<Byte>, buffer: seq<Byte>, whole: seq<Byte>, sequence: nat, rest: seq<Byte>)
    returns (p': Port)
    requires buffer != [] && whole == msg + buffer && |whole| < 0x1_0000_0000
    requires p.incoming == Flat(Answers(p.check, buffer, |msg|, sequence)) + rest
    ensures whole == msg + PartOf(buffer) + RestOf(buffer)
    ensures p'.incoming == Flat(Answers(p.check, RestOf(buffer), |msg + PartOf(buffer)|, sequence + 1)) + rest
    ensures p' == p.(incoming := p'.incoming, written := p.written + [Wire(p.check, 0, p.sequence, []), PKOK],
                     sequence := p.sequence + 1)
    ensures GetParts(p, msg, |whole|) == GetParts(p', msg + PartOf(buffer), |whole|)
  {
    hide Exchange, Receive, Wire, Append;
    AnswersInOrder(p.check, buffer, |msg|, sequence, rest);
    var more := Flat(Answers(p.check, RestOf(buffer), |msg| + |PartOf(buffer)|, sequence + 1)) + rest;
    GetsPart(p, msg, |whole|, buffer, sequence, more);
    Assoc(msg, PartOf(buffer), RestOf(buffer));
    p' := Fetched(p, more);
  }

  lemma GetsLast(p: Port, msg: seq<Byte>, sequence: nat, rest: seq<Byte>)
    requires p.incoming == Flat(Answers(p.check, [], |msg|, sequence)) + rest
    ensures GetParts(p, msg, |msg|) == (Ok(msg), Fetched(p, rest))
  {
    hide Exchange, Receive, Wire, Append;
    AnswersInOrder(p.check, [], |msg|, sequence, rest);
    GetsEnd(p, msg, sequence, rest);
  }

  /** The fetching side puts the parts together again. */
  lemma {:induction false} GetsAll(p: Port, msg: seq<Byte>, buffer: seq<Byte>, whole: seq<Byte>, sequence: nat,
                                   rest: seq<Byte>)
    returns (asked: seq<seq<Byte>>)
    requires whole == msg + buffer && |whole| < 0x1_0000_0000
    requires p.incoming == Flat(Answers(p.check, buffer, |msg|, sequence)) + rest
    ensures GetParts(p, msg, |whole|)
            == (Ok(whole), p.(incoming := rest, written := asked, sequence := p.sequence + Parts(buffer) + 1))
    ensures asked == Asked(p.check, p.written, Parts(buffer) + 1, p.sequence)
    decreases |buffer|
  {
    hide Exchange, Receive, Wire, Append, Answers;
    if buffer == [] {
      assert whole == msg;
      GetsLast(p, msg, sequence, rest);
      asked := Fetched(p, rest).written;
    } else {
      var p' := GetsMore(p, msg, buffer, whole, sequence, rest);
      asked := GetsAll(p', msg + PartOf(buffer), RestOf(buffer), whole, sequence + 1, rest);
    }
  }

  lemma Assoc(a: seq<Byte>, b: seq<Byte>, c: seq<Byte>)
    ensures a + b + c == a + (b + c)
  {
  }

  lemma GetAnnounced(p: Port, data: seq<Byte>, sequence: nat, tail: seq<Byte>)
    requires |data| < 0x1_0000_0000
    requires p.incoming == Wire(p.check, 3, sequence, Pack32(|data|) + Pack32(MAXLEN)) + tail
    ensures Get(p) == GetParts(Acknowledge(p.(incoming := tail)), [], |data|)
  {
    hide Receive, Wire, GetParts, Pack32, NumberIn;
    ReceiveWire(p, 3, sequence, Pack32(|data|) + Pack32(MAXLEN), tail);
    FirstNumber(|data|, Pack32(MAXLEN));
  }

  lemma FirstNumber(n: U32, more: seq<Byte>)
    ensures NumberIn(Pack32(n) + more) == n
  {
    assert (Pack32(n) + more)[..4] == Pack32(n);
    Unpack32Pack(n);
  }

  /** A whole fetch: the announcement, the parts and the end. */
  lemma GetReceives(p: Port, data: seq<Byte>, sequence: nat, rest: seq<Byte>)
    returns (asked: seq<seq<Byte>>)
    requires |data| < 0x1_0000_0000
    requires p.incoming == Flat(Sayings(p.check, data, sequence)) + rest
    ensures Get(p) == (Ok(data), p.(incoming := rest, written := asked, sequence := p.sequence + Parts(data) + 1))
    ensures asked == p.written + Replies(p.check, data, p.sequence)
  {
    hide Get, GetParts, Wire, Answers, Requests;
    var answers := Answers(p.check, data, 0, sequence + 1);
    FlatOne(Wire(p.check, 3, sequence, Pack32(|data|) + Pack32(MAXLEN)), answers, rest);
    GetAnnounced(p, data, sequence, Flat(answers) + rest);
    var p1 := Acknowledge(p.(incoming := Flat(answers) + rest));
    assert [] + data == data;
    asked := GetsAll(p1, [], data, data, sequence + 1, rest);
    AskedIsRequests(p.check, p1.written, Parts(data) + 1, p.sequence);
    AckJoin(p.written, Requests(p.check, Parts(data) + 1, p.sequence));
  }

  lemma AckJoin(written: seq<seq<Byte>>, more: seq<seq<Byte>>)
    ensures written + [PKOK] + more == written + ([PKOK] + more)
  {
  }

  // ---- The round trip ----

  /**
   * A payload put by one side and fetched by the other arrives as it was. Each side reads exactly what the other
   * writes: the sender gets the fetcher's first request and all its replies, the fetcher everything the sender says
   * after acknowledging that request. All checksums are right on both sides.
   */
  lemma RoundTrip(sender: Port, fetcher: Port, data: seq<Byte>, overwrite: bool, first: nat, r1: seq<Byte>, r2: seq<Byte>)
    requires Sendable(data) && |data| < 0x1_0000_0000 && sender.check == fetcher.check
    requires sender.incoming
             == Wire(sender.check, 0, first, []) + (Flat(Replies(sender.check, data, fetcher.sequence)) + r1)
    requires fetcher.incoming == Flat(Sayings(sender.check, data, sender.sequence)) + r2
    ensures var (sent, s') := Put(sender, data, overwrite);
            && sent == Ok(()) && s'.incoming == r1 && s'.mismatches == sender.mismatches
            && s'.written == sender.written + ([PKOK] + Sayings(sender.check, data, sender.sequence))
    ensures var (got, f') := Get(fetcher);
            && got == Ok(data) && f'.incoming == r2 && f'.mismatches == fetcher.mismatches
            && f'.written == fetcher.written + Replies(sender.check, data, fetcher.sequence)
  {
    hide Put, Get, Wire, Sayings, Replies;
    var said := PutSays(sender, data, overwrite, first, fetcher.sequence, r1);
    var asked := GetReceives(fetcher, data, sender.sequence, r2);
  }

  /** The payloads of the part messages: an offset and the bytes from there. */
  function Payloads(buffer: seq<Byte>, sent: nat): (payloads: seq<seq<Byte>>)
    ensures |payloads| == Parts(buffer)
    decreases |buffer|
  {
    if buffer == [] then []
    else [Pack32(sent) + PartOf(buffer)] + Payloads(RestOf(buffer), sent + |PartOf(buffer)|)
  }

  /** The bytes of the i-th part, read off the payload as a whole. */
  function Slice(buffer: seq<Byte>, i: nat): (part: seq<Byte>)
    requires (MAXLEN - 4) * i < |buffer|
  {
    buffer[(MAXLEN - 4) * i..Min(|buffer|, (MAXLEN - 4) * i + MAXLEN - 4)]
  }

  lemma SliceOfRest(buffer: seq<Byte>, i: nat)
    requires |buffer| > MAXLEN - 4 && (MAXLEN - 4) * i < |RestOf(buffer)|
    ensures (MAXLEN - 4) * (i + 1) < |buffer| && Slice(RestOf(buffer), i) == Slice(buffer, i + 1)
  {
  }

  lemma {:induction false} PayloadAt(buffer: seq<Byte>, sent: nat, i: nat)
    requires i < Parts(buffer)
    ensures (MAXLEN - 4) * i < |buffer|
    ensures Payloads(buffer, sent)[i] == Pack32(sent + (MAXLEN - 4) * i) + Slice(buffer, i)
    decreases i
  {
    hide Pack32;
    if i > 0 {
      var rest := RestOf(buffer);
      assert rest != [] && |PartOf(buffer)| == MAXLEN - 4;
      PayloadAt(rest, sent + MAXLEN - 4, i - 1);
      hide Slice;
      SliceOfRest(buffer, i - 1);
    }
  }

  /** The i-th part says where it belongs and holds just the bytes from there on, with at most 512 bytes in all. */
  lemma PartsInOrder(buffer: seq<Byte>, i: nat)
    requires |buffer| < 0x1_0000_0000 && i < Parts(buffer)
    ensures 508 * i < |buffer|
    ensures var payload := Payloads(buffer, 0)[i];
            && 4 < |payload| <= 512
            && Unpack32(payload[..4]) == 508 * i
            && payload[4..] == buffer[508 * i..Min(|buffer|, 508 * i + 508)]
  {
    hide Pack32, Unpack32;
    PayloadAt(buffer, 0, i);
    var offset, part := Pack32((MAXLEN - 4) * i), Slice(buffer, i);
    assert (offset + part)[..4] == offset && (offset + part)[4..] == part;
    Unpack32Pack((MAXLEN - 4) * i);
  }

  /** The announcement: the length of the payload and that of the longest part, 0x200. */
  lemma AnnouncedFirst(check: Checksum, data: seq<Byte>, sequence: nat)
    ensures Sayings(check, data, sequence) != []
    ensures Sayings(check, data, sequence)[0] == Wire(check, 3, sequence, Pack32(|data|) + [0, 0, 2, 0])
  {
    hide Wire, Answers;
    assert Pack32(MAXLEN) == [0, 0, 2, 0];
  }

  lemma AnswerPrefix(a: seq<Byte>, b: seq<Byte>, more: seq<seq<Byte>>, j: nat)
    requires j < |more|
    ensures ([a, b] + more)[0] == a && ([a, b] + more)[1] == b && ([a, b] + more)[j + 2] == more[j]
  {
  }

  lemma AnswersUnfold(check: Checksum, buffer: seq<Byte>, sent: nat, sequence: nat)
    requires buffer != []
    ensures Parts(buffer) == 1 + Parts(RestOf(buffer))
    ensures Payloads(buffer, sent) == [Pack32(sent) + PartOf(buffer)] + Payloads(RestOf(buffer), sent + |PartOf(buffer)|)
    ensures Answers(check, buffer, sent, sequence)
            == [PKOK, Wire(check, 5, sequence, Pack32(sent) + PartOf(buffer))]
               + Answers(check, RestOf(buffer), sent + |PartOf(buffer)|, sequence + 1)
  {
  }

  /** The answers are acknowledgements alternating with exactly these parts. */
  lemma {:induction false} AnswersAreParts(check: Checksum, buffer: seq<Byte>, sent: nat, sequence: nat, i: nat)
    requires buffer != [] && i < Parts(buffer)
    ensures var answers := Answers(check, buffer, sent, sequence);
            && |answers| >= 2 * i + 2
            && answers[2 * i] == PKOK
            && answers[2 * i + 1] == Wire(check, 5, sequence + i, Payloads(buffer, sent)[i])
    decreases |buffer|
  {
    hide Wire, Pack32, Answers, Payloads;
    var rest, next := RestOf(buffer), sent + |PartOf(buffer)|;
    AnswersUnfold(check, buffer, sent, sequence);
    if i > 0 {
      var more, one := Answers(check, rest, next, sequence + 1), Wire(check, 5, sequence, Pack32(sent) + PartOf(buffer));
      AnswersAreParts(check, rest, next, sequence + 1, i - 1);
      AnswerPrefix(PKOK, one, more, 2 * (i - 1));
      AnswerPrefix(PKOK, one, more, 2 * (i - 1) + 1);
    }
  }

  /** A payload goes in as many parts as it needs of at most 508 bytes each. */
  lemma {:induction false} PartCount(buffer: seq<Byte>)
    ensures Parts(buffer) == (|buffer| + 507) / 508
    decreases |buffer|
  {
    if |buffer| > MAXLEN - 4 {
      PartCount(RestOf(buffer));
    } else if buffer != [] {
      assert RestOf(buffer) == [];
      assert Parts(RestOf(buffer)) == 0;
    }
  }

  /** A payload of the single character 0 is never sent, and nothing is read or written for it. */
  lemma LoneZeroIsNotSent(p: Port, overwrite: bool)
    ensures Put(p, [48], overwrite) == (Err(NothingToSend), p)
  {
  }

  // ---- The tool ----

  lemma {:induction false} RRunConcat(h: Word32, r: Word32, a: Bits, b: Bits)
    ensures RRun(h, r, a + b) == RRun(h, RRun(h, r, a), b)
    decreases |a|
  {
    if a == [] {
      assert a + b == b;
    } else {
      assert (a + b)[1..] == a[1..] + b;
      RRunConcat(h, RStep(h, r, a[0]), a[1..], b);
    }
  }

  lemma ZeroStep(h: Word32, r: Word32, j: nat)
    ensures RRun(h, r, Zeros(j + 1)) == RStep(h, RRun(h, r, Zeros(j)), false)
  {
    assert Zeros(j + 1) == Zeros(j) + [false];
    RRunConcat(h, r, Zeros(j), [false]);
    var s := RRun(h, r, Zeros(j));
    assert RRun(h, s, [false]) == RRun(h, RStep(h, s, false), []);
  }

  lemma ByteStep(h: Word32, r: Word32, input: seq<Byte>, k: nat)
    requires k < |input|
    ensures RRun(h, r, BitStream(input[..k + 1])) == RRun(h, RRun(h, r, BitStream(input[..k])), ByteBits(input[k]))
  {
    assert input[..k + 1] == input[..k] + [input[k]];
    BitStreamConcat(input[..k], [input[k]]);
    assert BitStream([input[k]]) == ByteBits(input[k]) + BitStream([]);
    assert ByteBits(input[k]) + [] == ByteBits(input[k]);
    RRunConcat(h, r, BitStream(input[..k]), ByteBits(input[k]));
  }

  /** One table lookup takes the register over one more byte. */
  lemma Lookup(h: Word32, r: Word32, input: seq<Byte>, k: nat, crc: Word32)
    requires k < |input| && crc == RRun(h, r, BitStream(input[..k]))
    ensures var i := ToNat(Xor(crc[..8], ByteBits(input[k])));
            i < 256 && RRun(h, r, BitStream(input[..k + 1])) == Xor(crc[8..] + Zeros(8), TableEntry(h, i))
  {
    ByteStep(h, r, input, k);
    TableStep(h, crc, input[k]);
  }

  class Explorer {
    var lookupTable: seq<Word32>
    var incoming: seq<Byte>
    var written: seq<seq<Byte>>
    var sequence: nat
    var mismatches: nat

    function State(): (p: Port)
      reads this
    {
      Port(incoming, written, sequence, mismatches, Sum)
    }

    /** The table outlives a call, and every call appends to it; its first 256 words are the ones looked up, so they
        are those of the polynomial of the first call. */
    ghost predicate TableOf(h: Word32)
      reads this
    {
      && (|lookupTable| == 0 || |lookupTable| >= 256)
      && forall i :: 0 <= i < 256 && i < |lookupTable| ==> lookupTable[i] == TableEntry(h, i)
    }

    ghost predicate Valid()
      reads this
    {
      TableOf(IEEE_REFLECTED)
    }

    constructor (incoming: seq<Byte>)
      ensures Valid() && State() == Port(incoming, [], 1, 0, Sum)
    {
      lookupTable := [];
      this.incoming, written, sequence, mismatches := incoming, [], 1, 0;
    }

    method Entry(h: Word32, i: nat) returns (x: Word32)
      ensures x == TableEntry(h, i)
    {
      x := FromNat(i, 32);
      var j := 0;
      while j < 8
        invariant j <= 8 && x == RRun(h, FromNat(i, 32), Zeros(j))
      {
        ZeroStep(h, FromNat(i, 32), j);
        if x[0] {
          x := Xor(Shr(x), h);
        } else {
          x := Shr(x);
        }
        j := j + 1;
      }
    }

    /** Appends the words of h; first is the polynomial of the first call, this one's when there was none before. */
    method FillTable(h: Word32, ghost first: Word32)
      requires TableOf(first) && (lookupTable == [] ==> first == h)
      modifies `lookupTable
      ensures TableOf(first) && |lookupTable| == |old(lookupTable)| + 256
    {
      hide TableEntry;
      var i := 0;
      while i < 256
        invariant i <= 256 && |lookupTable| == |old(lookupTable)| + i
        invariant |old(lookupTable)| >= 256 || (old(lookupTable) == [] && first == h)
        invariant forall k :: 0 <= k < 256 && k < |lookupTable| ==> lookupTable[k] == TableEntry(first, k)
      {
        var x := Entry(h, i);
        lookupTable := lookupTable + [x];
        i := i + 1;
      }
    }

    /** The polynomial asked for counts in the first call alone; every later one computes with the first call's. */
    method Crc32Of(input: seq<Byte>, init: Word32, h: Word32, ghost first: Word32) returns (crc: Word32)
      requires TableOf(first) && (lookupTable == [] ==> first == h)
      modifies `lookupTable
      ensures TableOf(first) && |lookupTable| == |old(lookupTable)| + 256
      ensures crc == Not(RRun(first, Not(init), BitStream(input)))
    {
      hide TableEntry;
      FillTable(h, first);
      var table := lookupTable;
      crc := Not(init);
      var k := 0;
      while k < |input|
        invariant lookupTable == table
        invariant k <= |input| && crc == RRun(first, Not(init), BitStream(input[..k]))
      {
        Lookup(first, Not(init), input, k, crc);
        crc := Xor(crc[8..] + Zeros(8), table[ToNat(Xor(crc[..8], ByteBits(input[k])))]);
        k := k + 1;
      }
      assert input[..k] == input;
      crc := Not(crc);
    }

    /** With the default initial value and polynomial. */
    method Crc32(input: seq<Byte>) returns (crc: Word32)
      requires Valid()
      modifies `lookupTable
      ensures Valid() && |lookupTable| == |old(lookupTable)| + 256
      ensures crc == ReflectedCrc(IEEE_REFLECTED, input)
    {
      crc := Crc32Of(input, Zeros(32), IEEE_REFLECTED, IEEE_REFLECTED);
      assert Not(Zeros(32)) == Ones(32);
    }

    // ---- Messages ----

    method ReadPort(n: nat) returns (b: seq<Byte>)
      modifies `incoming
      ensures (b, State()) == Read(old(State()), n)
    {
      var k := if n < |incoming| then n else |incoming|;
      b := incoming[..k];
      incoming := incoming[k..];
    }

    method WritePort(b: seq<Byte>)
      modifies `written
      ensures State() == Send(old(State()), b)
    {
      written := written + [b];
    }

    method Checksum32(m: seq<Byte>) returns (n: U32)
      requires Valid()
      modifies `lookupTable
      ensures Valid() && n == Sum(m)
    {
      var crc := Crc32(m);
      Pow2Of32();
      n := ToNat(crc);
    }

    method Frame(id: nat, payload: seq<Byte>) returns (msg: seq<Byte>)
      requires Valid()
      modifies `lookupTable, `sequence
      ensures Valid() && sequence == old(sequence) + 1 && msg == Wire(Sum, id, old(sequence), payload)
    {
      hide Sum;
      msg := Pack16(id);
      msg := msg + Pack16(|payload|);
      msg := msg + Pack32(sequence);
      sequence := sequence + 1;
      var crc := Checksum32(msg);
      msg := msg + Pack32(crc);
      if |payload| > 0 {
        crc := Checksum32(payload);
        msg := msg + (payload + Pack32(crc));
      }
    }

    method WriteMessage(id: nat, payload: seq<Byte>)
      requires Valid()
      modifies `lookupTable, `sequence, `written
      ensures Valid() && State() == SendMessage(old(State()), id, payload)
    {
      var msg := Frame(id, payload);
      WritePort(msg);
    }

    /** A wrong checksum is printed and nothing else. */
    method Compare(m: seq<Byte>, sum: nat)
      requires Valid()
      modifies `lookupTable, `mismatches
      ensures Valid() && State() == Compared(old(State()), m, sum)
    {
      var computed := Checksum32(m);
      if sum != computed {
        mismatches := mismatches + 1;
      }
    }

    method ReadPayload(m: Message) returns (m': Message)
      requires Valid()
      modifies `lookupTable, `mismatches, `incoming
      ensures Valid() && (m', State()) == ReceivePayload(old(State()), m)
    {
      if m.length == 0 {
        return m;
      }
      var payload := ReadPort(m.length);
      var sum := ReadPort(4);
      Compare(payload, SumIn(sum));
      m' := m.(payload := payload);
    }

    method ReadMessage() returns (r: Result<Message>)
      requires Valid()
      modifies `lookupTable, `mismatches, `incoming
      ensures Valid() && (r, State()) == Receive(old(State()))
    {
      var rx := ReadPort(12);
      if rx == [] {
        return Err(Timeout);
      }
      if |rx| != 12 {
        return Err(BadHeader);
      }
      Compare(rx[..8], Unpack32(rx[8..12]));
      var m := ReadPayload(DecodeHeader(rx));
      r := Ok(m);
    }

    method WriteAck()
      modifies `written
      ensures State() == Acknowledge(old(State()))
    {
      WritePort(PKOK);
    }

    method ReadAck() returns (ok: bool)
      modifies `incoming
      ensures (ok, State()) == AwaitAck(old(State()))
    {
      var ack := ReadPort(4);
      ok := ack == PKOK;
    }

    method Converse(id: nat, payload: seq<Byte>) returns (ok: bool)
      requires Valid()
      modifies `lookupTable, `sequence, `written, `incoming
      ensures Valid() && (ok, State()) == Exchange(old(State()), id, payload)
    {
      WriteMessage(id, payload);
      ok := ReadAck();
    }

    // ---- Transfers ----

    method AwaitAsk() returns (r: Result<()>)
      requires Valid()
      modifies this
      ensures Valid() && (r, State()) == AwaitRequest(old(State()))
    {
      hide Receive;
      var received := ReadMessage();
      if received.Err? {
        return Err(received.error);
      }
      WriteAck();
      r := if received.value.id == 0 then Ok(()) else Err(InvalidRequest(received.value.id));
    }

    method AnswerAsk(id: nat, payload: seq<Byte>) returns (r: Result<()>)
      requires Valid()
      modifies this
      ensures Valid() && (r, State()) == Answer(old(State()), id, payload)
    {
      hide AwaitRequest, Exchange;
      r := AwaitAsk();
      if r.Err? {
        return;
      }
      var ok := Converse(id, payload);
      r := if ok then Ok(()) else Err(UnexpectedCompliance);
    }

    method SendParts(data: seq<Byte>) returns (r: Result<()>)
      requires Valid()
      modifies this
      ensures Valid() && (r, State()) == PutParts(old(State()), data, 0)
    {
      hide Answer;
      var buffer, sent: nat := data, 0;
      while |buffer| > 0
        invariant Valid()
        invariant PutParts(State(), buffer, sent) == PutParts(old(State()), data, 0)
        decreases |buffer|
      {
        r := AnswerAsk(5, Pack32(sent) + PartOf(buffer));
        if r.Err? {
          return;
        }
        buffer, sent := RestOf(buffer), sent + |PartOf(buffer)|;
      }
      r := AnswerAsk(4, []);
    }

    method Open(overwrite: bool) returns (r: Result<()>)
      requires Valid()
      modifies this
      ensures Valid() && (r, State()) == Opening(old(State()), overwrite)
    {
      hide Receive, Exchange;
      var received := ReadMessage();
      if received.Err? {
        return Err(received.error);
      }
      WriteAck();
      if received.value.id != 0 {
        var ok := Converse(0, []);
        if !ok {
          return Err(UnexpectedCompliance);
        }
        if !overwrite && received.value.id == 8 {
          return Err(FileExists);
        }
      }
      r := Ok(());
    }

    method PutMultipart(data: seq<Byte>, overwrite: bool) returns (r: Result<()>)
      requires Valid()
      modifies this
      ensures Valid() && (r, State()) == Put(old(State()), data, overwrite)
    {
      hide Opening, Exchange, PutParts;
      if data == [] || data == [48] {
        return Err(NothingToSend);
      }
      r := Open(overwrite);
      if r.Err? {
        return;
      }
      var ok := Converse(3, Pack32(|data|) + Pack32(MAXLEN));
      if !ok {
        return Err(UnexpectedCompliance);
      }
      r := SendParts(data);
    }

    method FetchParts(total: nat) returns (r: Result<seq<Byte>>)
      requires Valid()
      modifies this
      ensures Valid() && (r, State()) == GetParts(old(State()), [], total)
    {
      hide Receive, Exchange, Append;
      var msg: seq<Byte> := [];
      while true
        invariant Valid()
        invariant GetParts(State(), msg, total) == GetParts(old(State()), [], total)
        decreases |incoming|
      {
        var ok := Converse(0, []);
        if !ok {
          return Err(UnexpectedCompliance);
        }
        var received := ReadMessage();
        if received.Err? {
          return Err(received.error);
        }
        r := Append(received.value, msg, total);
        if r.Err? {
          return;
        }
        msg := r.value;
        WriteAck();
        if received.value.id != 5 {
          return if |msg| == total then r else Err(BadTotal);
        }
      }
    }

    method GetMultipart() returns (r: Result<seq<Byte>>)
      requires Valid()
      modifies this
      ensures Valid() && (r, State()) == Get(old(State()))
    {
      hide Receive, GetParts;
      var received := ReadMessage();
      if received.Err? {
        return Err(received.error);
      }
      WriteAck();
      if received.value.id != 3 {
        return Err(InvalidRequest(received.value.id));
      }
      r := FetchParts(NumberIn(received.value.payload));
    }
  }
}
