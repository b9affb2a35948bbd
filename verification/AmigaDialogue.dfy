/**
 * The two sides of a transfer in conversation: neither reads a byte before the other has written it. A side that has
 * read all there is stops at its next read, with everything written that it can write so far; the conversation goes
 * round by round from the opening request alone.
 */
module AmigaDialogue {
  import opened Words
  import opened AmigaExplorer

  lemma {:induction false} RequestCount(check: Checksum, n: nat, sequence: nat)
    ensures |Requests(check, n, sequence)| == 2 * n
  {
    hide Wire;
    if n > 0 {
      RequestCount(check, n - 1, sequence + 1);
    }
  }

  lemma {:induction false} AnswerCount(check: Checksum, buffer: seq<Byte>, sent: nat, sequence: nat)
    ensures |Answers(check, buffer, sent, sequence)| == 2 * Parts(buffer) + 2
    decreases |buffer|
  {
    hide Wire;
    if buffer != [] {
      AnswerCount(check, RestOf(buffer), sent + |PartOf(buffer)|, sequence + 1);
    }
  }

  // ---- The sending side, told only a part ----

  /** Without the acknowledgement the answer is written all the same. */
  lemma AnswerUnacknowledged(p: Port, id: nat, payload: seq<Byte>, asking: nat)
    requires p.incoming == Wire(p.check, 0, asking, [])
    ensures var (r, p') := Answer(p, id, payload);
            r.Err? && p'.written == p.written + [PKOK, Wire(p.check, id, p.sequence, payload)]
  {
    hide Wire;
    assert p.incoming + [] == p.incoming;
    RequestFirst(p, asking, []);
    AppendTwo(p.written, PKOK, Wire(p.check, id, p.sequence, payload), []);
  }

  lemma TakeTwoMore(writes: seq<seq<Byte>>, a: seq<Byte>, b: seq<Byte>, more: seq<seq<Byte>>, n: nat)
    requires n <= |more|
    ensures writes + [a, b] + more[..n] == writes + ([a, b] + more)[..n + 2]
  {
  }

  lemma PutPartsFirst(p: Port, buffer: seq<Byte>, sent: nat, asking: nat)
    requires p.incoming == Wire(p.check, 0, asking, [])
    ensures |Answers(p.check, buffer, sent, p.sequence)| >= 2
    ensures PutParts(p, buffer, sent).1.written == p.written + Answers(p.check, buffer, sent, p.sequence)[..2]
  {
    hide Answer, Wire, Pack32;
    var id, payload := if buffer == [] then 4 else 5, if buffer == [] then [] else Pack32(sent) + PartOf(buffer);
    AnswerUnacknowledged(p, id, payload, asking);
    var answers := Answers(p.check, buffer, sent, p.sequence);
    assert answers[..2] == [PKOK, Wire(p.check, id, p.sequence, payload)];
  }

  /** Asked n + 1 times, and acknowledged n times, the sending side has written its first n + 1 answers. */
  lemma {:induction false} PutPartsTold(p: Port, buffer: seq<Byte>, sent: nat, n: nat, asking: nat)
    requires n <= Parts(buffer)
    requires p.incoming == Flat(Requests(p.check, n, asking)) + Wire(p.check, 0, asking + n, [])
    ensures |Answers(p.check, buffer, sent, p.sequence)| >= 2 * n + 2
    ensures PutParts(p, buffer, sent).1.written == p.written + Answers(p.check, buffer, sent, p.sequence)[..2 * n + 2]
    decreases |buffer|
  {
    hide Answer, Wire, PutParts, Answers, PartOf, RestOf, Pack32;
    AnswerCount(p.check, buffer, sent, p.sequence);
    if n == 0 {
      assert p.incoming == Wire(p.check, 0, asking, []);
      PutPartsFirst(p, buffer, sent, asking);
    } else {
      hide Requests;
      PutPartsTail(p, buffer, sent, n, asking);
    }
  }

  lemma {:induction false} PutPartsTail(p: Port, buffer: seq<Byte>, sent: nat, n: nat, asking: nat)
    requires buffer != [] && 0 < n <= Parts(buffer)
    requires p.incoming == Flat(Requests(p.check, n, asking)) + Wire(p.check, 0, asking + n, [])
    ensures |Answers(p.check, buffer, sent, p.sequence)| >= 2 * n + 2
    ensures PutParts(p, buffer, sent).1.written == p.written + Answers(p.check, buffer, sent, p.sequence)[..2 * n + 2]
    decreases |buffer|, 0
  {
    hide Answer, Wire, PutParts, Answers, Requests, PartOf, RestOf, Pack32, Said, Flat;
    AnswersUnfold(p.check, buffer, sent, p.sequence);
    var p' := PutGoesOn(p, buffer, sent, n - 1, asking, Wire(p.check, 0, asking + n, []));
    PutPartsTold(p', RestOf(buffer), sent + |PartOf(buffer)|, n - 1, asking + 1);
    TakeTwoMore(p.written, PKOK, Wire(p.check, 5, p.sequence, Pack32(sent) + PartOf(buffer)),
                Answers(p.check, RestOf(buffer), sent + |PartOf(buffer)|, p.sequence + 1), 2 * n);
  }

  /** Told nothing but the opening request, the sending side announces the length. */
  lemma PutOpened(p: Port, data: seq<Byte>, overwrite: bool, first: nat)
    requires Sendable(data) && p.incoming == Wire(p.check, 0, first, [])
    ensures Put(p, data, overwrite).1.written
            == p.written + [PKOK, Wire(p.check, 3, p.sequence, Pack32(|data|) + Pack32(MAXLEN))]
  {
    hide Receive, Wire, PutParts;
    var announced := Pack32(|data|) + Pack32(MAXLEN);
    assert p.incoming + [] == p.incoming;
    OpeningTaken(p, overwrite, first, []);
    AppendTwo(p.written, PKOK, Wire(p.check, 3, p.sequence, announced), []);
  }

  lemma PutGoesTo(p: Port, data: seq<Byte>, overwrite: bool, first: nat, more: seq<Byte>)
    requires Sendable(data) && p.incoming == Wire(p.check, 0, first, []) + (PKOK + more)
    ensures Put(p, data, overwrite) == PutParts(Answered(p, 3, Pack32(|data|) + Pack32(MAXLEN), more), data, 0)
  {
    hide Receive, Wire, PutParts, Pack32;
    OpeningTaken(p, overwrite, first, PKOK + more);
    AnswerTakesAck(p, 3, Pack32(|data|) + Pack32(MAXLEN), more);
  }

  /** Told the opening request and what the fetching side says before it acknowledges the k-th part. */
  lemma PutTold(p: Port, data: seq<Byte>, overwrite: bool, first: nat, k: nat, asking: nat)
    requires Sendable(data) && k <= Parts(data) && |Replies(p.check, data, asking)| >= 2 * k + 2
    requires p.incoming == Wire(p.check, 0, first, []) + Flat(Replies(p.check, data, asking)[..2 * k + 2])
    ensures |Sayings(p.check, data, p.sequence)| >= 2 * k + 3
    ensures Put(p, data, overwrite).1.written == p.written + ([PKOK] + Sayings(p.check, data, p.sequence))[..2 * k + 4]
  {
    hide Wire, Answers, Requests, Put, PutParts, Pack32, Replies;
    var answers := Answers(p.check, data, 0, p.sequence + 1);
    var announced := Pack32(|data|) + Pack32(MAXLEN);
    var more := Flat(Requests(p.check, k, asking)) + Wire(p.check, 0, asking + k, []);
    RepliesPrefix(p.check, data, k, asking);
    PutGoesTo(p, data, overwrite, first, more);
    PutPartsTold(Answered(p, 3, announced, more), data, 0, k, asking);
    SayingsJoin(p.written, Wire(p.check, 3, p.sequence, announced), answers[..2 * k + 2]);
    TakeOneMore(Wire(p.check, 3, p.sequence, announced), answers, 2 * k + 2);
    TakeOneMore(PKOK, Sayings(p.check, data, p.sequence), 2 * k + 3);
  }

  lemma {:induction false} FlatConcat(a: seq<seq<Byte>>, b: seq<seq<Byte>>)
    ensures Flat(a + b) == Flat(a) + Flat(b)
    decreases |a|
  {
    if a == [] {
      assert a + b == b;
    } else {
      assert (a + b)[1..] == a[1..] + b;
      FlatConcat(a[1..], b);
    }
  }

  lemma FlatSingle(a: seq<Byte>)
    ensures Flat([a]) == a
  {
    assert [a][1..] == [];
    assert a + [] == a;
  }

  lemma {:induction false} RequestsPrefix(check: Checksum, n: nat, k: nat, asking: nat)
    requires k < n
    ensures 2 * k + 1 <= |Requests(check, n, asking)|
    ensures Requests(check, n, asking)[..2 * k + 1] == Requests(check, k, asking) + [Wire(check, 0, asking + k, [])]
    decreases k
  {
    hide Wire;
    RequestCount(check, n, asking);
    var request := Wire(check, 0, asking, []);
    if k > 0 {
      RequestsPrefix(check, n - 1, k - 1, asking + 1);
      RequestCount(check, n - 1, asking + 1);
      TakeTwoMore([], request, PKOK, Requests(check, n - 1, asking + 1), 2 * k - 1);
      AssocWrites([request, PKOK], Requests(check, k - 1, asking + 1), [Wire(check, 0, asking + k, [])]);
    }
  }

  lemma AssocWrites(a: seq<seq<Byte>>, b: seq<seq<Byte>>, c: seq<seq<Byte>>)
    ensures a + (b + c) == a + b + c
  {
  }

  lemma TakeOneMore(a: seq<Byte>, more: seq<seq<Byte>>, n: nat)
    requires n <= |more|
    ensures ([a] + more)[..n + 1] == [a] + more[..n]
  {
  }

  /** What the fetching side has said before its k-th acknowledgement of a part. */
  lemma RepliesPrefix(check: Checksum, data: seq<Byte>, k: nat, asking: nat)
    requires k <= Parts(data)
    ensures 2 * k + 2 <= |Replies(check, data, asking)|
    ensures Flat(Replies(check, data, asking)[..2 * k + 2])
            == PKOK + (Flat(Requests(check, k, asking)) + Wire(check, 0, asking + k, []))
  {
    hide Wire, Requests;
    var requests := Requests(check, Parts(data) + 1, asking);
    RequestsPrefix(check, Parts(data) + 1, k, asking);
    TakeOneMore(PKOK, requests, 2 * k + 1);
    FlatConcat([PKOK], requests[..2 * k + 1]);
    FlatSingle(PKOK);
    FlatConcat(Requests(check, k, asking), [Wire(check, 0, asking + k, [])]);
    FlatSingle(Wire(check, 0, asking + k, []));
  }

  // ---- The fetching side, told only a part ----

  lemma AskUnacknowledged(p: Port, msg: seq<Byte>, total: nat)
    requires p.incoming == []
    ensures GetParts(p, msg, total).1.written == p.written + [Wire(p.check, 0, p.sequence, [])]
  {
    hide Wire, Receive;
  }

  lemma AnswersPrefix(check: Checksum, buffer: seq<Byte>, sent: nat, sequence: nat, k: nat)
    requires buffer != [] && 1 <= k <= Parts(buffer)
    ensures 2 * k <= |Answers(check, buffer, sent, sequence)|
    ensures 2 * k - 2 <= |Answers(check, RestOf(buffer), sent + |PartOf(buffer)|, sequence + 1)|
    ensures Flat(Answers(check, buffer, sent, sequence)[..2 * k])
            == PKOK + (Wire(check, 5, sequence, Pack32(sent) + PartOf(buffer))
                       + Flat(Answers(check, RestOf(buffer), sent + |PartOf(buffer)|, sequence + 1)[..2 * k - 2]))
  {
    hide Wire, Pack32;
    var one := Wire(check, 5, sequence, Pack32(sent) + PartOf(buffer));
    var more := Answers(check, RestOf(buffer), sent + |PartOf(buffer)|, sequence + 1);
    AnswerCount(check, buffer, sent, sequence);
    AnswerCount(check, RestOf(buffer), sent + |PartOf(buffer)|, sequence + 1);
    assert ([PKOK, one] + more)[..2 * k] == [PKOK, one] + more[..2 * k - 2];
    FlatTwo(PKOK, one, more[..2 * k - 2], []);
    NothingMore([PKOK, one] + more[..2 * k - 2], more[..2 * k - 2]);
  }

  lemma NothingMore(a: seq<seq<Byte>>, b: seq<seq<Byte>>)
    ensures Flat(a) + [] == Flat(a) && Flat(b) + [] == Flat(b)
  {
  }

  /** Told the first k parts, the fetching side has acknowledged them and asked once more. */
  lemma {:induction false} GetPartsTold(p: Port, msg: seq<Byte>, buffer: seq<Byte>, total: nat, k: nat, sequence: nat)
    requires k <= Parts(buffer) && |msg| + |buffer| < 0x1_0000_0000 && total > 0
    requires |Answers(p.check, buffer, |msg|, sequence)| >= 2 * k
    requires p.incoming == Flat(Answers(p.check, buffer, |msg|, sequence)[..2 * k])
    ensures |Requests(p.check, k + 1, p.sequence)| >= 2 * k + 1
    ensures GetParts(p, msg, total).1.written == p.written + Requests(p.check, k + 1, p.sequence)[..2 * k + 1]
    decreases k
  {
    hide Wire, Answers, GetParts, Pack32;
    RequestCount(p.check, k + 1, p.sequence);
    if k == 0 {
      AskUnacknowledged(p, msg, total);
      RequestsPrefix(p.check, 1, 0, p.sequence);
      assert [] + [Wire(p.check, 0, p.sequence, [])] == [Wire(p.check, 0, p.sequence, [])];
    } else {
      var rest := Answers(p.check, RestOf(buffer), |msg| + |PartOf(buffer)|, sequence + 1);
      AnswersPrefix(p.check, buffer, |msg|, sequence, k);
      GetsPart(p, msg, total, buffer, sequence, Flat(rest[..2 * k - 2]));
      GetPartsTold(Fetched(p, Flat(rest[..2 * k - 2])), msg + PartOf(buffer), RestOf(buffer), total, k - 1, sequence + 1);
      TakeTwoMore(p.written, Wire(p.check, 0, p.sequence, []), PKOK, Requests(p.check, k, p.sequence + 1), 2 * k - 1);
    }
  }

  lemma GetTold(p: Port, data: seq<Byte>, k: nat, sequence: nat)
    requires 0 < |data| < 0x1_0000_0000 && k <= Parts(data)
    requires |Sayings(p.check, data, sequence)| >= 2 * k + 1
    requires p.incoming == Flat(Sayings(p.check, data, sequence)[..2 * k + 1])
    ensures |Replies(p.check, data, p.sequence)| >= 2 * k + 2
    ensures Get(p).1.written == p.written + Replies(p.check, data, p.sequence)[..2 * k + 2]
  {
    hide Wire, Answers, Requests, Get, GetParts, Pack32;
    var answers := Answers(p.check, data, 0, sequence + 1);
    var announced := Wire(p.check, 3, sequence, Pack32(|data|) + Pack32(MAXLEN));
    AnswerCount(p.check, data, 0, sequence + 1);
    TakeOneMore(announced, answers, 2 * k);
    FlatConcat([announced], answers[..2 * k]);
    FlatSingle(announced);
    GetAnnounced(p, data, sequence, Flat(answers[..2 * k]));
    var p1 := Acknowledge(p.(incoming := Flat(answers[..2 * k])));
    GetPartsTold(p1, [], data, |data|, k, sequence + 1);
    RequestCount(p.check, Parts(data) + 1, p.sequence);
    RequestsPrefix(p.check, Parts(data) + 1, k, p.sequence);
    RequestsPrefix(p.check, k + 1, k, p.sequence);
    AckJoin(p.written, Requests(p.check, Parts(data) + 1, p.sequence)[..2 * k + 1]);
    TakeOneMore(PKOK, Requests(p.check, Parts(data) + 1, p.sequence), 2 * k + 1);
  }

  // ---- Round by round ----

  /** All the sending side writes when it is told the opening request and what the other side has said so far. */
  function SenderSays(sender: Port, data: seq<Byte>, overwrite: bool, first: nat, heard: seq<seq<Byte>>)
    : (writes: seq<seq<Byte>>)
  {
    Put(sender.(incoming := Wire(sender.check, 0, first, []) + Flat(heard), written := []), data, overwrite).1.written
  }

  /** All the fetching side writes when it is told what the other side has said so far. */
  function FetcherSays(fetcher: Port, heard: seq<seq<Byte>>): (writes: seq<seq<Byte>>) {
    Get(fetcher.(incoming := Flat(heard), written := [])).1.written
  }

  /** The first write acknowledges the opening request; it is read before the fetch begins. */
  function AfterAck(writes: seq<seq<Byte>>): (rest: seq<seq<Byte>>) {
    if writes == [] then [] else writes[1..]
  }

  /** What the fetching side has said after n rounds, each answered before the next; in the beginning nothing. */
  function Heard(n: nat, sender: Port, fetcher: Port, data: seq<Byte>, overwrite: bool, first: nat)
    : (writes: seq<seq<Byte>>)
  {
    if n == 0 then []
    else FetcherSays(fetcher, AfterAck(SenderSays(sender, data, overwrite, first,
                                                  Heard(n - 1, sender, fetcher, data, overwrite, first))))
  }

  lemma WholeLengths(check: Checksum, data: seq<Byte>, asking: nat, sequence: nat)
    ensures |Replies(check, data, asking)| == 2 * Parts(data) + 3
    ensures |[PKOK] + Sayings(check, data, sequence)| == 2 * Parts(data) + 4
  {
    hide Wire, Answers, Requests;
    RequestCount(check, Parts(data) + 1, asking);
    AnswerCount(check, data, 0, sequence + 1);
  }

  lemma TakeNone(writes: seq<seq<Byte>>)
    ensures writes[..0] == [] && Flat([]) == [] && writes[..|writes|] == writes && [] + writes == writes
  {
  }

  lemma SenderOpens(sender: Port, data: seq<Byte>, overwrite: bool, first: nat)
    requires Sendable(data)
    ensures SenderSays(sender, data, overwrite, first, [])
            == [PKOK, Wire(sender.check, 3, sender.sequence, Pack32(|data|) + Pack32(MAXLEN))]
  {
    hide Wire, Put, Pack32;
    var p := sender.(incoming := Wire(sender.check, 0, first, []) + Flat([]), written := []);
    assert p.incoming == Wire(sender.check, 0, first, []);
    PutOpened(p, data, overwrite, first);
    TakeNone([PKOK, Wire(sender.check, 3, sender.sequence, Pack32(|data|) + Pack32(MAXLEN))]);
  }

  lemma SayingsFirst(check: Checksum, data: seq<Byte>, sequence: nat)
    ensures ([PKOK] + Sayings(check, data, sequence))[..2] == [PKOK, Wire(check, 3, sequence, Pack32(|data|) + Pack32(MAXLEN))]
  {
    hide Wire, Answers, Pack32;
  }

  lemma SenderAdvances(sender: Port, data: seq<Byte>, overwrite: bool, first: nat, asking: nat, n: nat)
    requires Sendable(data) && n <= Parts(data) + 1 && 2 * n <= |Replies(sender.check, data, asking)|
    ensures 2 * n + 2 <= |[PKOK] + Sayings(sender.check, data, sender.sequence)|
    ensures SenderSays(sender, data, overwrite, first, Replies(sender.check, data, asking)[..2 * n])
            == ([PKOK] + Sayings(sender.check, data, sender.sequence))[..2 * n + 2]
  {
    hide Wire, Put, Sayings, Replies, Flat, Sendable, Parts, Pack32;
    WholeLengths(sender.check, data, asking, sender.sequence);
    if n == 0 {
      hide SenderSays;
      TakeNone(Replies(sender.check, data, asking));
      SenderOpens(sender, data, overwrite, first);
      SayingsFirst(sender.check, data, sender.sequence);
    } else {
      var p := sender.(incoming := Wire(sender.check, 0, first, []) + Flat(Replies(sender.check, data, asking)[..2 * n]),
                       written := []);
      PutTold(p, data, overwrite, first, n - 1, asking);
      TakeNone(([PKOK] + Sayings(sender.check, data, sender.sequence))[..2 * n + 2]);
    }
  }

  lemma FetcherAdvances(fetcher: Port, data: seq<Byte>, sequence: nat, n: nat)
    requires 0 < |data| < 0x1_0000_0000 && n <= Parts(data)
    requires 2 * n + 2 <= |[PKOK] + Sayings(fetcher.check, data, sequence)|
    ensures 2 * n + 2 <= |Replies(fetcher.check, data, fetcher.sequence)|
    ensures FetcherSays(fetcher, AfterAck(([PKOK] + Sayings(fetcher.check, data, sequence))[..2 * n + 2]))
            == Replies(fetcher.check, data, fetcher.sequence)[..2 * n + 2]
  {
    hide Get, Sayings, Replies;
    var sayings := Sayings(fetcher.check, data, sequence);
    assert ([PKOK] + sayings)[..2 * n + 2][1..] == sayings[..2 * n + 1];
    GetTold(fetcher.(incoming := Flat(sayings[..2 * n + 1]), written := []), data, n, sequence);
  }

  /** Each round brings two more writes of either side, until the sending side has said everything. */
  lemma {:induction false} RoundsAdvance(n: nat, sender: Port, fetcher: Port, data: seq<Byte>, overwrite: bool, first: nat)
    requires Sendable(data) && |data| < 0x1_0000_0000 && sender.check == fetcher.check && n <= Parts(data) + 1
    ensures 2 * n <= |Replies(sender.check, data, fetcher.sequence)|
    ensures 2 * n + 2 <= |[PKOK] + Sayings(sender.check, data, sender.sequence)|
    ensures var heard := Heard(n, sender, fetcher, data, overwrite, first);
            && heard == Replies(sender.check, data, fetcher.sequence)[..2 * n]
            && SenderSays(sender, data, overwrite, first, heard)
               == ([PKOK] + Sayings(sender.check, data, sender.sequence))[..2 * n + 2]
  {
    hide SenderSays, FetcherSays, Sayings, Replies;
    WholeLengths(sender.check, data, fetcher.sequence, sender.sequence);
    if n > 0 {
      RoundsAdvance(n - 1, sender, fetcher, data, overwrite, first);
      FetcherAdvances(fetcher, data, sender.sequence, n - 1);
    }
    SenderAdvances(sender, data, overwrite, first, fetcher.sequence, n);
  }

  /**
   * No deadlock: from the opening request alone, with neither side reading ahead of the other's writes, every round up
   * to the last makes both sides say more, and after it both have ended, with nothing left unread and no
   * checksum wrong, the fetching side with the payload.
   */
  lemma TransferCompletes(sender: Port, fetcher: Port, data: seq<Byte>, overwrite: bool, first: nat)
    requires Sendable(data) && |data| < 0x1_0000_0000 && sender.check == fetcher.check
    ensures forall n :: 0 <= n < Parts(data) + 2 ==>
              Heard(n, sender, fetcher, data, overwrite, first) < Heard(n + 1, sender, fetcher, data, overwrite, first)
    ensures var heard := Heard(Parts(data) + 2, sender, fetcher, data, overwrite, first);
            var (sent, s') := Put(sender.(incoming := Wire(sender.check, 0, first, []) + Flat(heard), written := []), data, overwrite);
            sent == Ok(()) && s'.incoming == [] && s'.mismatches == sender.mismatches
    ensures var heard := Heard(Parts(data) + 1, sender, fetcher, data, overwrite, first);
            var told := AfterAck(SenderSays(sender, data, overwrite, first, heard));
            var (got, f') := Get(fetcher.(incoming := Flat(told), written := []));
            got == Ok(data) && f'.incoming == [] && f'.mismatches == fetcher.mismatches
  {
    hide *;
    LastRound(sender, fetcher, data, overwrite, first);
    forall n | 0 <= n < Parts(data) + 2
      ensures Heard(n, sender, fetcher, data, overwrite, first) < Heard(n + 1, sender, fetcher, data, overwrite, first)
    {
      HeardGrows(n, sender, fetcher, data, overwrite, first);
    }
  }

  lemma ProperPrefix(writes: seq<seq<Byte>>, i: nat, j: nat)
    requires i < j <= |writes|
    ensures writes[..i] < writes[..j]
  {
  }

  lemma HeardGrows(n: nat, sender: Port, fetcher: Port, data: seq<Byte>, overwrite: bool, first: nat)
    requires Sendable(data) && |data| < 0x1_0000_0000 && sender.check == fetcher.check && n < Parts(data) + 2
    ensures Heard(n, sender, fetcher, data, overwrite, first) < Heard(n + 1, sender, fetcher, data, overwrite, first)
  {
    hide Heard, Replies, Sayings, SenderSays, Put, Get, Sendable;
    var replies := Replies(sender.check, data, fetcher.sequence);
    WholeLengths(sender.check, data, fetcher.sequence, sender.sequence);
    RoundsAdvance(n, sender, fetcher, data, overwrite, first);
    if n < Parts(data) + 1 {
      RoundsAdvance(n + 1, sender, fetcher, data, overwrite, first);
      ProperPrefix(replies, 2 * n, 2 * n + 2);
    } else {
      LastRound(sender, fetcher, data, overwrite, first);
      TakeNone(replies);
      ProperPrefix(replies, 2 * n, |replies|);
    }
  }

  lemma LastRound(sender: Port, fetcher: Port, data: seq<Byte>, overwrite: bool, first: nat)
    requires Sendable(data) && |data| < 0x1_0000_0000 && sender.check == fetcher.check
    ensures var heard := Heard(Parts(data) + 2, sender, fetcher, data, overwrite, first);
            && heard == Replies(sender.check, data, fetcher.sequence)
            && var (sent, s') := Put(sender.(incoming := Wire(sender.check, 0, first, []) + Flat(heard), written := []), data, overwrite);
            sent == Ok(()) && s'.incoming == [] && s'.mismatches == sender.mismatches
    ensures var heard := Heard(Parts(data) + 1, sender, fetcher, data, overwrite, first);
            var told := AfterAck(SenderSays(sender, data, overwrite, first, heard));
            var (got, f') := Get(fetcher.(incoming := Flat(told), written := []));
            got == Ok(data) && f'.incoming == [] && f'.mismatches == fetcher.mismatches
  {
    hide Replies, Sayings, SenderSays, Put, Get, Wire, Flat, Sendable, Parts;
    var last := Parts(data) + 1;
    var replies, sayings := Replies(sender.check, data, fetcher.sequence), Sayings(sender.check, data, sender.sequence);
    WholeLengths(sender.check, data, fetcher.sequence, sender.sequence);
    RoundsAdvance(last, sender, fetcher, data, overwrite, first);
    TakeNone([PKOK] + sayings);
    TakeNone(replies);
    assert ([PKOK] + sayings)[1..] == sayings;
    NothingMore(replies, sayings);
    var s := sender.(incoming := Wire(sender.check, 0, first, []) + Flat(replies), written := []);
    var f := fetcher.(incoming := Flat(sayings), written := []);
    RoundTrip(s, f, data, overwrite, first, [], []);
  }
}
