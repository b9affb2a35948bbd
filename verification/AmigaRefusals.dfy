/** How a transfer ends when the other side does not play along: what was written by then, and what was refused. */
module AmigaRefusals {
  import opened Words
  import opened AmigaExplorer

  /** The sending side was sent a first message that asks for nothing, and then the acknowledgement of its own reply. */
  lemma OpenedByOther(p: Port, overwrite: bool, id: nat, sequence: nat, payload: seq<Byte>, rest: seq<Byte>)
    requires 0 < id < 0x10000 && |payload| < 0x10000
    requires p.incoming == Wire(p.check, id, sequence, payload) + (PKOK + rest)
    ensures var p' := p.(incoming := rest, written := p.written + [PKOK, Wire(p.check, 0, p.sequence, [])],
                         sequence := p.sequence + 1);
            Opening(p, overwrite) == (if id == 8 && !overwrite then Err(FileExists) else Ok(()), p')
  {
    hide Receive, Wire;
    ReceiveWire(p, id, sequence, payload, PKOK + rest);
    ExchangeTakesAck(Acknowledge(p.(incoming := PKOK + rest)), 0, [], rest);
    AppendTwo(p.written, PKOK, Wire(p.check, 0, p.sequence, []), []);
  }

  /**
   * A file that is there already is not overwritten unasked: nothing is written but the acknowledgement of the message
   * that says so and one empty message, and the put is given up.
   */
  lemma ExistingFileKept(p: Port, data: seq<Byte>, sequence: nat, payload: seq<Byte>, rest: seq<Byte>)
    requires Sendable(data) && |payload| < 0x10000
    requires p.incoming == Wire(p.check, 8, sequence, payload) + (PKOK + rest)
    ensures var (r, p') := Put(p, data, false);
            r == Err(FileExists) && p'.written == p.written + [PKOK, Wire(p.check, 0, p.sequence, [])] && p'.incoming == rest
  {
    OpenedByOther(p, false, 8, sequence, payload, rest);
    hide Opening, PutParts, Exchange, Wire;
  }

  /** With overwrite asked for, or when the first message is about something else, the whole payload is sent. */
  lemma {:induction false} SentAllTheSame(p: Port, data: seq<Byte>, overwrite: bool, id: nat, sequence: nat, payload: seq<Byte>,
                       asking: nat, rest: seq<Byte>)
    requires Sendable(data) && 0 < id < 0x10000 && |payload| < 0x10000 && (id == 8 ==> overwrite)
    requires p.incoming == Wire(p.check, id, sequence, payload) + (PKOK + (Flat(Replies(p.check, data, asking)) + rest))
    ensures var (r, p') := Put(p, data, overwrite);
            && r == Ok(()) && p'.incoming == rest && p'.mismatches == p.mismatches
            && p'.written == p.written + [PKOK, Wire(p.check, 0, p.sequence, [])] + Sayings(p.check, data, p.sequence + 1)
  {
    var more := Flat(Replies(p.check, data, asking)) + rest;
    OpenedByOther(p, overwrite, id, sequence, payload, more);
    var p1 := p.(incoming := more, written := p.written + [PKOK, Wire(p.check, 0, p.sequence, [])], sequence := p.sequence + 1);
    AnnouncedAndSent(p1, data, asking, rest);
    hide Opening, PutParts, Exchange, Wire, Sayings, Replies;
  }

  lemma {:induction false} AnnouncedAndSent(p: Port, data: seq<Byte>, asking: nat, rest: seq<Byte>)
    requires p.incoming == Flat(Replies(p.check, data, asking)) + rest
    ensures var (ok, p1) := Exchange(p, 3, Pack32(|data|) + Pack32(MAXLEN));
            && ok
            && PutParts(p1, data, 0)
               == (Ok(()), p.(incoming := rest, written := p.written + Sayings(p.check, data, p.sequence),
                              sequence := p.sequence + Parts(data) + 2))
  {
    RepliesFirst(p.check, data, asking, rest);
    hide Exchange, PutParts, Replies, Sayings, Wire;
    Announced(p, Pack32(|data|) + Pack32(MAXLEN), data, asking, Flat(Requests(p.check, Parts(data) + 1, asking)) + rest, rest);
  }

  lemma {:induction false} Announced(p: Port, announced: seq<Byte>, data: seq<Byte>, asking: nat, more: seq<Byte>, rest: seq<Byte>)
    requires announced == Pack32(|data|) + Pack32(MAXLEN) && p.incoming == PKOK + more
    requires more == Flat(Requests(p.check, Parts(data) + 1, asking)) + rest
    ensures var (ok, p1) := Exchange(p, 3, announced);
            && ok
            && PutParts(p1, data, 0)
               == (Ok(()), p.(incoming := rest, written := p.written + Sayings(p.check, data, p.sequence),
                              sequence := p.sequence + Parts(data) + 2))
  {
    hide *;
    ExchangeTakesAck(p, 3, announced, more);
    PartsSent(p, p.(incoming := more, written := p.written + [Wire(p.check, 3, p.sequence, announced)],
                    sequence := p.sequence + 1), data, asking, rest);
  }

  lemma {:induction false} PartsSent(p: Port, p1: Port, data: seq<Byte>, asking: nat, rest: seq<Byte>)
    requires p1 == p.(incoming := Flat(Requests(p.check, Parts(data) + 1, asking)) + rest,
                      written := p.written + [Wire(p.check, 3, p.sequence, Pack32(|data|) + Pack32(MAXLEN))],
                      sequence := p.sequence + 1)
    ensures PutParts(p1, data, 0)
            == (Ok(()), p.(incoming := rest, written := p.written + Sayings(p.check, data, p.sequence),
                           sequence := p.sequence + Parts(data) + 2))
  {
    hide *;
    var said := PutPartsSays(p1, data, 0, Parts(data), asking, rest);
    SaidIsAnswers(p1.check, p1.written, data, 0, p1.sequence);
    SayingsJoined(p.check, p.written, data, p.sequence);
  }

  lemma RepliesFirst(check: Checksum, data: seq<Byte>, asking: nat, rest: seq<Byte>)
    ensures Flat(Replies(check, data, asking)) + rest == PKOK + (Flat(Requests(check, Parts(data) + 1, asking)) + rest)
  {
    FlatOne(PKOK, Requests(check, Parts(data) + 1, asking), rest);
  }

  lemma SayingsJoined(check: Checksum, written: seq<seq<Byte>>, data: seq<Byte>, sequence: nat)
    ensures written + [Wire(check, 3, sequence, Pack32(|data|) + Pack32(MAXLEN))] + Answers(check, data, 0, sequence + 1)
            == written + Sayings(check, data, sequence)
  {
    OneThenMore(written, Wire(check, 3, sequence, Pack32(|data|) + Pack32(MAXLEN)), Answers(check, data, 0, sequence + 1));
  }

  lemma OneThenMore(written: seq<seq<Byte>>, one: seq<Byte>, more: seq<seq<Byte>>)
    ensures written + [one] + more == written + ([one] + more)
  {
  }

  /** In the middle of a put any message but a request ends it; it is acknowledged and no further part goes out. */
  lemma OnlyRequestsAreAnswered(p: Port, buffer: seq<Byte>, sent: nat, id: nat, sequence: nat, payload: seq<Byte>, rest: seq<Byte>)
    requires 0 < id < 0x10000 && |payload| < 0x10000
    requires p.incoming == Wire(p.check, id, sequence, payload) + rest
    ensures PutParts(p, buffer, sent) == (Err(InvalidRequest(id)), p.(incoming := rest, written := p.written + [PKOK]))
  {
    hide Receive, Wire, Pack32;
    ReceiveWire(p, id, sequence, payload, rest);
  }

  /** A fetch is only started by an announcement. */
  lemma OnlyAnnouncementsStart(p: Port, id: nat, sequence: nat, payload: seq<Byte>, rest: seq<Byte>)
    requires id < 0x10000 && id != 3 && |payload| < 0x10000
    requires p.incoming == Wire(p.check, id, sequence, payload) + rest
    ensures Get(p) == (Err(InvalidRequest(id)), p.(incoming := rest, written := p.written + [PKOK]))
  {
    hide Receive, Wire, GetParts;
    ReceiveWire(p, id, sequence, payload, rest);
  }

  lemma {:induction false} PartsSumUp(p: Port, msg: seq<Byte>, total: nat)
    ensures GetParts(p, msg, total).0.Ok? ==> |GetParts(p, msg, total).0.value| == total
    decreases |p.incoming|
  {
    var (asked, p1) := Exchange(p, 0, []);
    if asked {
      var (received, p2) := Receive(p1);
      if received.Ok? && Append(received.value, msg, total).Ok? && received.value.id == 5 {
        var p3 := Acknowledge(p2);
        hide Exchange, Receive, Append;
        PartsSumUp(p3, Append(received.value, msg, total).value, total);
      }
    }
  }

  /** Whatever the other side sends, a fetch that succeeds gives exactly as many bytes as were announced. */
  lemma FetchedAsAnnounced(p: Port)
    ensures Get(p).0.Ok? ==>
              Receive(p).0.Ok? && Receive(p).0.value.id == 3 && |Get(p).0.value| == NumberIn(Receive(p).0.value.payload)
  {
    hide Receive, GetParts;
    var (received, p1) := Receive(p);
    if received.Ok? {
      PartsSumUp(Acknowledge(p1), [], NumberIn(received.value.payload));
    }
  }

  /** A part that does not start where the last one ended stops the fetch before it is acknowledged. */
  lemma MisplacedPartStops(p: Port, msg: seq<Byte>, total: nat, sequence: nat, offset: U32, part: seq<Byte>, rest: seq<Byte>)
    requires offset != |msg| && |part| <= 0xFFFB
    requires p.incoming == PKOK + (Wire(p.check, 5, sequence, Pack32(offset) + part) + rest)
    ensures var (r, p') := GetParts(p, msg, total);
            r == Err(LostPart(offset)) && p'.written == p.written + [Wire(p.check, 0, p.sequence, [])]
  {
    var payload := Pack32(offset) + part;
    var more := Wire(p.check, 5, sequence, payload) + rest;
    FirstNumber(offset, part);
    hide Wire, Pack32, NumberIn, Receive, Exchange;
    ExchangeTakesAck(p, 0, [], more);
    ReceiveWire(Exchange(p, 0, []).1, 5, sequence, payload, rest);
  }

  // ---- Checksums that do not fit ----

  /** Each message is compared twice: the header's sum, and, when there is a payload, the payload's. */
  lemma MismatchesCounted(p: Port, head: seq<Byte>, sum: U32, payload: seq<Byte>, sum': U32, rest: seq<Byte>)
    requires |head| == 8 && Unpack16(head[2..4]) == |payload|
    requires p.incoming == head + Pack32(sum) + ((if payload == [] then [] else payload + Pack32(sum')) + rest)
    ensures var (r, p') := Receive(p);
            && r.Ok? && p'.incoming == rest && p'.written == p.written
            && p'.mismatches == p.mismatches + (if sum != p.check(head) then 1 else 0)
                                + (if payload != [] && sum' != p.check(payload) then 1 else 0)
  {
    var tail := (if payload == [] then [] else payload + Pack32(sum')) + rest;
    HeaderCompared(p, head, sum, tail);
    var m, p1 := DecodeHeader(head + Pack32(sum)), Compared(p.(incoming := tail), head, sum);
    if payload != [] {
      assert tail == payload + Pack32(sum') + rest;
      hide Receive, ReceivePayload, DecodeHeader, Pack32;
      ReceiveSummed(p1, m, payload, sum', rest);
    } else {
      assert tail == rest;
      hide Receive, DecodeHeader, Pack32;
    }
  }

  lemma HeaderCompared(p: Port, head: seq<Byte>, sum: U32, tail: seq<Byte>)
    requires |head| == 8 && p.incoming == head + Pack32(sum) + tail
    ensures var m := DecodeHeader(head + Pack32(sum));
            && m.length == Unpack16(head[2..4])
            && Receive(p) == (var (m', p') := ReceivePayload(Compared(p.(incoming := tail), head, sum), m); (Ok(m'), p'))
  {
    var rx := head + Pack32(sum);
    TakeFirst(p, rx, tail);
    HeaderSlices(head, Pack32(sum));
    Unpack32Pack(sum);
    hide Pack32, Unpack16, Unpack32, ReceivePayload, Compared, Read;
  }

  lemma HeaderSlices(head: seq<Byte>, four: seq<Byte>)
    requires |head| == 8 && |four| == 4
    ensures var rx := head + four;
            |rx| == 12 && rx[..8] == head && rx[8..12] == four && rx[2..4] == head[2..4]
  {
  }

  // ---- Missing messages and acknowledgements ----

  /** "PkOk" and nothing else. */
  predicate Acknowledges(b: seq<Byte>) {
    |b| >= 4 && b[0] == 0x50 && b[1] == 0x6B && b[2] == 0x4F && b[3] == 0x6B
  }

  /** Whatever comes in, a message goes out once, and four bytes, or what there is, are taken for its acknowledgement. */
  lemma AckExact(p: Port, id: nat, payload: seq<Byte>)
    ensures var (ok, p') := Exchange(p, id, payload);
            && (ok <==> Acknowledges(p.incoming))
            && p'.incoming == (if |p.incoming| >= 4 then p.incoming[4..] else [])
            && p'.written == p.written + [Wire(p.check, id, p.sequence, payload)]
            && p'.sequence == p.sequence + 1 && p'.mismatches == p.mismatches && p'.check == p.check
  {
    hide Wire;
    if |p.incoming| >= 4 {
      assert p.incoming[..4] == [p.incoming[0], p.incoming[1], p.incoming[2], p.incoming[3]];
    }
  }

  /** Less than a header is no message: nothing within the tries, or too few bytes. */
  lemma NoMessage(p: Port)
    requires |p.incoming| < 12
    ensures var (r, p') := Receive(p);
            r == Err(if p.incoming == [] then Timeout else BadHeader) && p' == p.(incoming := [])
  {
  }

  lemma UnacknowledgedOpening(p: Port, data: seq<Byte>, overwrite: bool, id: nat, sequence: nat, payload: seq<Byte>,
                              rest: seq<Byte>)
    requires Sendable(data) && id < 0x10000 && |payload| < 0x10000 && !Acknowledges(rest)
    requires p.incoming == Wire(p.check, id, sequence, payload) + rest
    ensures var (r, p') := Put(p, data, overwrite);
            && r == Err(UnexpectedCompliance)
            && p'.written == p.written + [PKOK, if id == 0 then Wire(p.check, 3, p.sequence, Pack32(|data|) + Pack32(MAXLEN))
                                                else Wire(p.check, 0, p.sequence, [])]
  {
    var p1 := Acknowledge(p.(incoming := rest));
    ReceiveWire(p, id, sequence, payload, rest);
    hide Receive, Wire, Exchange, PutParts, Pack32;
    AckExact(p1, if id == 0 then 3 else 0, if id == 0 then Pack32(|data|) + Pack32(MAXLEN) else []);
  }

  lemma UnacknowledgedPartStops(p: Port, buffer: seq<Byte>, sent: nat, sequence: nat, rest: seq<Byte>)
    requires p.incoming == Wire(p.check, 0, sequence, []) + rest && !Acknowledges(rest)
    ensures var (r, p') := PutParts(p, buffer, sent);
            && r == Err(UnexpectedCompliance)
            && p'.written == p.written + [PKOK, if buffer == [] then Wire(p.check, 4, p.sequence, [])
                                                else Wire(p.check, 5, p.sequence, Pack32(sent) + PartOf(buffer))]
  {
    var p1 := Acknowledge(p.(incoming := rest));
    RequestFirst(p, sequence, rest);
    hide AwaitRequest, Wire, Exchange, Pack32, PartOf;
    AckExact(p1, if buffer == [] then 4 else 5, if buffer == [] then [] else Pack32(sent) + PartOf(buffer));
  }

  lemma UnacknowledgedFetchStops(p: Port, msg: seq<Byte>, total: nat)
    requires !Acknowledges(p.incoming)
    ensures var (r, p') := GetParts(p, msg, total);
            r == Err(UnexpectedCompliance) && p'.written == p.written + [Wire(p.check, 0, p.sequence, [])]
  {
    hide Receive, Wire, Exchange;
    AckExact(p, 0, []);
  }

  // ---- What success means ----

  lemma AnsweredWhole(p: Port, id: nat, payload: seq<Byte>)
    ensures var (r, p') := Answer(p, id, payload);
            r.Ok? ==> p'.written == p.written + [PKOK, Wire(p.check, id, p.sequence, payload)]
                      && p'.sequence == p.sequence + 1 && p'.check == p.check
  {
    var (asked, p1) := AwaitRequest(p);
    ReceptionWritesNothing(p);
    hide Receive, Wire, Exchange;
    AckExact(p1, id, payload);
  }

  lemma ReceptionWritesNothing(p: Port)
    ensures var p' := Receive(p).1; p'.written == p.written && p'.sequence == p.sequence && p'.check == p.check
  {
  }

  lemma AnswersFirst(check: Checksum, buffer: seq<Byte>, sent: nat, sequence: nat, written: seq<seq<Byte>>)
    ensures buffer == [] ==> written + Answers(check, buffer, sent, sequence) == written + [PKOK, Wire(check, 4, sequence, [])]
    ensures buffer != [] ==>
              written + Answers(check, buffer, sent, sequence)
              == written + [PKOK, Wire(check, 5, sequence, Pack32(sent) + PartOf(buffer))]
                 + Answers(check, RestOf(buffer), sent + |PartOf(buffer)|, sequence + 1)
  {
    hide Wire, Pack32, PartOf;
    if buffer != [] {
      AppendTwo(written, PKOK, Wire(check, 5, sequence, Pack32(sent) + PartOf(buffer)),
                Answers(check, RestOf(buffer), sent + |PartOf(buffer)|, sequence + 1));
    }
  }

  lemma {:induction false} PartsWhole(p: Port, buffer: seq<Byte>, sent: nat)
    ensures var (r, p') := PutParts(p, buffer, sent);
            r.Ok? ==> p'.written == p.written + Answers(p.check, buffer, sent, p.sequence)
    decreases |buffer|
  {
    AnswersFirst(p.check, buffer, sent, p.sequence, p.written);
    if buffer == [] {
      hide Answer, Wire, Answers;
      AnsweredWhole(p, 4, []);
    } else {
      var payload := Pack32(sent) + PartOf(buffer);
      var (answered, p1) := Answer(p, 5, payload);
      assert answered.Ok? ==> PutParts(p, buffer, sent) == PutParts(p1, RestOf(buffer), sent + |PartOf(buffer)|);
      assert answered.Err? ==> PutParts(p, buffer, sent) == (answered, p1);
      hide Answer, Wire, Answers, Pack32, PartOf, PutParts;
      AnsweredWhole(p, 5, payload);
      PartsWhole(p1, RestOf(buffer), sent + |PartOf(buffer)|);
    }
  }

  lemma OpenedWhole(p: Port, overwrite: bool)
    requires Opening(p, overwrite).0.Ok?
    ensures Receive(p).0.Ok?
    ensures var asked, p' := Receive(p).0.value.id == 0, Opening(p, overwrite).1;
            && p'.written == p.written + (if asked then [PKOK] else [PKOK, Wire(p.check, 0, p.sequence, [])])
            && p'.sequence == (if asked then p.sequence else p.sequence + 1) && p'.check == p.check
  {
    ReceptionWritesNothing(p);
    hide Receive, Wire, Exchange;
    AckExact(Acknowledge(Receive(p).1), 0, []);
    AppendTwo(p.written, PKOK, Wire(p.check, 0, p.sequence, []), []);
  }

  lemma SentWhole(p: Port, data: seq<Byte>)
    ensures var (ok, p1) := Exchange(p, 3, Pack32(|data|) + Pack32(MAXLEN));
            var (r, p') := PutParts(p1, data, 0);
            ok && r.Ok? ==> p'.written == p.written + Sayings(p.check, data, p.sequence)
  {
    var announced := Pack32(|data|) + Pack32(MAXLEN);
    var p1 := Exchange(p, 3, announced).1;
    assert Sayings(p.check, data, p.sequence)
        == [Wire(p.check, 3, p.sequence, announced)] + Answers(p.check, data, 0, p.sequence + 1);
    hide Wire, Exchange, PutParts, Answers, Sayings, Pack32;
    AckExact(p, 3, announced);
    PartsWhole(p1, data, 0);
    OneThenMore(p.written, Wire(p.check, 3, p.sequence, announced), Answers(p.check, data, 0, p.sequence + 1));
  }

  /**
   * Whatever the other side sends, a put that ends without error has written the announcement, every part and the end
   * message, each once and in order, after the acknowledgement of the first message and, unless that was a request, a
   * message 0 of its own.
   */
  lemma SucceedsOnlyWhole(p: Port, data: seq<Byte>, overwrite: bool)
    requires Put(p, data, overwrite).0.Ok?
    ensures Receive(p).0.Ok?
    ensures var asked, p' := Receive(p).0.value.id == 0, Put(p, data, overwrite).1;
            p'.written == p.written + (if asked then [PKOK] else [PKOK, Wire(p.check, 0, p.sequence, [])])
                          + Sayings(p.check, data, if asked then p.sequence else p.sequence + 1)
  {
    var p1 := Opening(p, overwrite).1;
    hide Receive, Wire, Exchange, PutParts, Opening, Sayings, Pack32;
    OpenedWhole(p, overwrite);
    SentWhole(p1, data);
  }

  lemma RequestsFirst(check: Checksum, n: nat, sequence: nat, written: seq<seq<Byte>>)
    ensures written + [Wire(check, 0, sequence, [])] + [PKOK] + Requests(check, n, sequence + 1)
            == written + Requests(check, n + 1, sequence)
  {
    hide Wire;
    AppendTwo(written, Wire(check, 0, sequence, []), PKOK, Requests(check, n, sequence + 1));
  }

  /** One round of a fetch that will succeed: where it goes on, and whether it was the last. */
  lemma {:induction false} OneRound(p: Port, msg: seq<Byte>, total: nat) returns (p': Port, msg': seq<Byte>, last: bool)
    requires GetParts(p, msg, total).0.Ok?
    ensures |p'.incoming| < |p.incoming| && p'.check == p.check && p'.sequence == p.sequence + 1
    ensures p'.written == p.written + [Wire(p.check, 0, p.sequence, [])] + [PKOK]
    ensures last ==> GetParts(p, msg, total).1 == p'
    ensures !last ==> GetParts(p, msg, total) == GetParts(p', msg', total)
  {
    hide Exchange, Receive, Append, Wire;
    AckExact(p, 0, []);
    var p1 := Exchange(p, 0, []).1;
    ReceptionWritesNothing(p1);
    var (received, p2) := Receive(p1);
    p' := Acknowledge(p2);
    last := received.value.id != 5;
    msg' := Append(received.value, msg, total).value;
  }

  lemma {:induction false} FetchedWhole(p: Port, msg: seq<Byte>, total: nat) returns (n: nat)
    requires GetParts(p, msg, total).0.Ok?
    ensures n > 0 && GetParts(p, msg, total).1.written == p.written + Requests(p.check, n, p.sequence)
    decreases |p.incoming|
  {
    hide GetParts, Wire;
    var p1, msg', last := OneRound(p, msg, total);
    n := 1;
    if !last {
      var k := FetchedWhole(p1, msg', total);
      n := k + 1;
    }
    assert Requests(p.check, 0, p.sequence + 1) == [];
    hide Requests;
    RequestsFirst(p.check, n - 1, p.sequence, p.written);
  }

  /** Nor does a fetch that ends without error write anything but acknowledged requests, whatever the other side sends. */
  lemma OnlyRequestsWritten(p: Port) returns (n: nat)
    requires Get(p).0.Ok?
    ensures n > 0 && Get(p).1.written == p.written + ([PKOK] + Requests(p.check, n, p.sequence))
  {
    ReceptionWritesNothing(p);
    hide Receive, GetParts, Requests, NumberIn;
    var (received, p1) := Receive(p);
    n := FetchedWhole(Acknowledge(p1), [], NumberIn(received.value.payload));
    OneThenMore(p.written, PKOK, Requests(p.check, n, p.sequence));
  }

  /** Any message but a part ends the fetch, acknowledged; it is right exactly if the bytes so far are as announced. */
  lemma OthersEndTheFetch(p: Port, msg: seq<Byte>, total: nat, id: nat, sequence: nat, rest: seq<Byte>)
    requires id < 0x10000 && id != 5
    requires p.incoming == PKOK + (Wire(p.check, id, sequence, []) + rest)
    ensures GetParts(p, msg, total)
            == (if |msg| == total then Ok(msg) else Err(BadTotal),
                p.(incoming := rest, written := p.written + [Wire(p.check, 0, p.sequence, []), PKOK], sequence := p.sequence + 1))
  {
    var more := Wire(p.check, id, sequence, []) + rest;
    hide Wire, Receive, Exchange;
    ExchangeTakesAck(p, 0, [], more);
    ReceiveWire(Exchange(p, 0, []).1, id, sequence, [], rest);
    AppendTwo(p.written, Wire(p.check, 0, p.sequence, []), PKOK, []);
  }

  /** When nothing was announced the first part stops the fetch, by the progress display's division. */
  lemma NothingAnnounced(p: Port, sequence: nat, part: seq<Byte>, rest: seq<Byte>)
    requires |part| <= 0xFFFB
    requires p.incoming == PKOK + (Wire(p.check, 5, sequence, Pack32(0) + part) + rest)
    ensures var (r, p') := GetParts(p, [], 0);
            r == Err(DivisionByZero) && p'.written == p.written + [Wire(p.check, 0, p.sequence, [])]
  {
    var payload := Pack32(0) + part;
    var more := Wire(p.check, 5, sequence, payload) + rest;
    FirstNumber(0, part);
    hide Wire, Pack32, NumberIn, Receive, Exchange;
    ExchangeTakesAck(p, 0, [], more);
    ReceiveWire(Exchange(p, 0, []).1, 5, sequence, payload, rest);
  }
}
