/** What every request-engine operation keeps, whatever the commands, packets and aborts are. */
module Sana2Invariants {
  import opened Words
  import opened Frames
  import opened Sana2Requests
  import opened Sana2Accounts

  // ---- The invariants ----

  predicate InPort(r: Request) {
    r.pending && !r.quick && !AtOnce(r.command)
  }

  predicate InRxQueue(r: Request, opener: nat) {
    r.pending && r.command == Read && r.opener == opener
  }

  predicate InOrphans(r: Request) {
    r.pending && r.command == ReadOrphan
  }

  predicate InEvents(r: Request) {
    r.pending && !r.quick && r.command == OnEvent
  }

  /** Every waiting request is in a list that fits it. */
  ghost predicate Filed(d: Unit) {
    && (forall x :: x in d.port ==> InPort(Of(d.reqs, x)))
    && (forall k, x :: 0 <= k < |d.openers| && x in d.openers[k].rxQueue ==> InRxQueue(Of(d.reqs, x), d.openers[k].id))
    && (forall x :: x in d.orphans ==> InOrphans(Of(d.reqs, x)))
    && (forall x :: x in d.events ==> InEvents(Of(d.reqs, x)))
  }

  /** Nobody waits for the state the unit is in. */
  ghost predicate NobodySatisfied(d: Unit) {
    forall x :: x in d.events ==> !Satisfied(d, Of(d.reqs, x).wire)
  }

  ghost predicate Mode(d: Unit) {
    && d.tx == []
    && (d.online ==> d.config)
    && (!d.online ==> forall k :: 0 <= k < |d.openers| ==> d.openers[k].rxQueue == [])
    && d.irq.servers == d.irq.signals == (if d.irq.installed then 1 else 0)
    && (d.irq.installed ==> d.online)
  }

  ghost predicate Good(d: Unit) {
    Filed(d) && NobodySatisfied(d) && Mode(d)
  }

  /** No request is in two places, or in one and completed, or completed twice. */
  ghost predicate Once(d: Unit) {
    forall x :: Tally(d, x) <= 1
  }

  // ---- Steps that only complete requests ----

  predicate SameFiling(r: Request, r': Request) {
    r'.command == r.command && r'.opener == r.opener && r'.pending == r.pending && r'.quick == r.quick && r'.wire == r.wire
  }

  ghost predicate FilingKept(d: Unit, d': Unit, apart: set<Id>) {
    forall x :: x !in d'.done && x !in apart ==> SameFiling(Of(d.reqs, x), Of(d'.reqs, x))
  }

  /** TermIO replied to a completed request exactly if it is not quick; nothing else is replied to. */
  predicate Answered(d: Unit, x: Id) {
    Of(d.reqs, x).replied <==> x in d.done && !Of(d.reqs, x).quick
  }

  predicate IsRead(c: Command) {
    c == Read || c == ReadOrphan
  }

  predicate AnswerKept(d: Unit, d': Unit, x: Id) {
    var r, r' := Of(d.reqs, x), Of(d'.reqs, x);
    && r'.command == r.command && r'.opener == r.opener
    && (IsRead(r.command) ==> r'.quick == r.quick)
    && (Answered(d, x) ==> Answered(d', x))
  }

  ghost predicate AnswersKept(d: Unit, d': Unit) {
    forall x :: AnswerKept(d, d', x)
  }

  ghost predicate ListsShrink(d: Unit, d': Unit) {
    && |d'.openers| == |d.openers|
    && (forall k :: 0 <= k < |d.openers| ==> d'.openers[k].id == d.openers[k].id)
    && (forall k, x :: 0 <= k < |d.openers| && x in d'.openers[k].rxQueue ==> x in d.openers[k].rxQueue)
    && (forall x :: x in d'.orphans ==> x in d.orphans)
    && (forall x :: x in d'.events ==> x in d.events)
    && (forall x :: x in d'.tx ==> x in d.tx)
    && (forall x :: x in d.done ==> x in d'.done)
  }

  ghost predicate SameMode(d: Unit, d': Unit) {
    && d'.port == d.port && d'.online == d.online && d'.config == d.config && d'.station == d.station
    && d'.irq == d.irq && d'.openCnt == d.openCnt
  }

  /** Lists lose requests, done gains some, and only completed requests and those apart change their filing. */
  ghost predicate Shrinks(d: Unit, d': Unit, apart: set<Id>) {
    SameMode(d, d') && ListsShrink(d, d') && FilingKept(d, d', apart) && AnswersKept(d, d')
  }

  lemma ShrinksTrans(d: Unit, d': Unit, d'': Unit, apart: set<Id>)
    requires Shrinks(d, d', apart) && Shrinks(d', d'', apart)
    ensures Shrinks(d, d'', apart)
  {
    forall x | x !in d''.done && x !in apart ensures SameFiling(Of(d.reqs, x), Of(d''.reqs, x)) {
      assert x !in d'.done;
      assert SameFiling(Of(d.reqs, x), Of(d'.reqs, x));
      assert SameFiling(Of(d'.reqs, x), Of(d''.reqs, x));
    }
    AnswersTrans(d, d', d'');
  }

  lemma AnswersTrans(d: Unit, d': Unit, d'': Unit)
    requires AnswersKept(d, d') && AnswersKept(d', d'')
    ensures AnswersKept(d, d'')
  {
    forall x ensures AnswerKept(d, d'', x) {
      assert AnswerKept(d, d', x) && AnswerKept(d', d'', x);
    }
  }

  lemma ShrinksWiden(d: Unit, d': Unit, apart: set<Id>)
    requires Shrinks(d, d', {})
    ensures Shrinks(d, d', apart)
  {
    forall x | x !in d'.done && x !in apart ensures SameFiling(Of(d.reqs, x), Of(d'.reqs, x)) {
      assert x !in {};
    }
  }

  predicate SameAnswer(r: Request, r': Request) {
    r'.command == r.command && r'.opener == r.opener && r'.quick == r.quick && r'.replied == r.replied
  }

  lemma ShrinksFinish(d: Unit, id: Id, r: Request)
    requires SameAnswer(Of(d.reqs, id), r)
    ensures Shrinks(d, Finish(d, id, r), {})
  {
  }

  lemma ShrinksEvent(d: Unit, event: int)
    ensures Shrinks(d, DoEvent(d, event), {})
  {
    var d' := DoEvent(d, event);
    var hits := Hits(d.reqs, d.events, event);
    forall x ensures x in d'.events ==> x in d.events {
      HitsAndRest(d.reqs, d.events, event, x);
    }
    forall x ensures (x !in d'.done ==> SameFiling(Of(d.reqs, x), Of(d'.reqs, x))) && AnswerKept(d, d', x) {
      FireEachAt(d.reqs, hits, event, x);
    }
  }

  lemma ShrinksRecord(d: Unit, id: Id, r: Request)
    requires SameAnswer(Of(d.reqs, id), r)
    ensures Shrinks(d, d.(reqs := d.reqs[id := r]), {id})
    ensures SameFiling(Of(d.reqs, id), r) ==> Shrinks(d, d.(reqs := d.reqs[id := r]), {})
  {
  }

  lemma ShrinksNoted(d: Unit, id: Id, env: Env)
    ensures Shrinks(d, Noted(d, id, env), {id})
  {
    var r := Of(d.reqs, id);
    match Judge(r, id, env)
    case Handed => ShrinksSent(d, d.sent + [id], {id});
    case Refused(error) => ShrinksRecord(d, id, r.(error := error, wire := BUFF_ERROR));
  }

  lemma ShrinksSent(d: Unit, sent: seq<Id>, apart: set<Id>)
    ensures Shrinks(d, d.(sent := sent), apart)
  {
  }

  lemma ShrinksReported(d: Unit, id: Id)
    ensures Shrinks(d, Reported(d, id), {}) && id in Reported(d, id).done
  {
    if Of(d.reqs, id).wire != {} {
      var told := DoEvent(d, BUFF);
      ShrinksEvent(d, BUFF);
      ShrinksFinish(told, id, Of(told.reqs, id));
      ShrinksTrans(d, told, Reported(d, id), {});
    } else {
      ShrinksFinish(d, id, Of(d.reqs, id));
    }
  }

  /** A change kept apart is covered once the request is completed. */
  lemma ShrinksDone(d: Unit, d': Unit, id: Id)
    requires Shrinks(d, d', {id}) && id in d'.done
    ensures Shrinks(d, d', {})
  {
    forall x | x !in d'.done ensures SameFiling(Of(d.reqs, x), Of(d'.reqs, x)) {
      assert x !in {id};
    }
  }

  lemma ShrinksSendOne(d: Unit, id: Id, env: Env)
    ensures Shrinks(d, SendOne(d, id, env), {}) && id in SendOne(d, id, env).done
  {
    var noted := Noted(d, id, env);
    ShrinksNoted(d, id, env);
    ShrinksReported(noted, id);
    ShrinksWiden(noted, Reported(noted, id), {id});
    ShrinksTrans(d, noted, Reported(noted, id), {id});
    ShrinksDone(d, Reported(noted, id), id);
  }

  lemma {:induction false} ShrinksSendAll(d: Unit, env: Env)
    ensures Shrinks(d, SendAll(d, env), {})
    ensures forall x :: x in d.tx ==> x in SendAll(d, env).done
    decreases |d.tx|
  {
    if d.tx != [] {
      var popped := d.(tx := d.tx[1..]);
      var sent := SendOne(popped, d.tx[0], env);
      ShrinksSendOne(popped, d.tx[0], env);
      ShrinksSendAll(sent, env);
      assert Shrinks(d, popped, {});
      ShrinksTrans(d, popped, sent, {});
      ShrinksTrans(d, sent, SendAll(sent, env), {});
    }
  }

  lemma ShrinksFlush(d: Unit)
    ensures Shrinks(d, FlushUnit(d), {})
    ensures FlushUnit(d).tx == [] && FlushUnit(d).events == [] && Reads(FlushUnit(d).openers) == []
  {
    var all := Reads(d.openers) + d.tx + d.events;
    ReadsEmptied(d.openers);
    var d' := FlushUnit(d);
    forall x ensures (x !in d'.done ==> SameFiling(Of(d.reqs, x), Of(d'.reqs, x))) && AnswerKept(d, d', x) {
      AbortEachAt(d.reqs, all, x);
    }
  }

  lemma ShrinksWithList(d: Unit, p: Place, rest: seq<Id>)
    requires forall x :: x in rest ==> x in ListAt(d, p)
    ensures Shrinks(d, WithList(d, p, rest), {})
  {
    match p {
      case RxQueue(k) =>
        if k < |d.openers| {
          assert WithList(d, p, rest).openers == d.openers[k := Opener(d.openers[k].id, rest)];
        }
      case _ =>
    }
  }

  lemma ShrinksUnlink(d: Unit, p: Place, id: Id)
    ensures Shrinks(d, UnlinkAt(d, p, id), {})
  {
    var list := ListAt(d, p);
    forall x | x in Unlinked(list, id) ensures x in list {
      if id in list {
        CountUnlinked(list, id, x);
      }
    }
    ShrinksWithList(d, p, Unlinked(list, id));
  }

  lemma ShrinksAbort(d: Unit, id: Id)
    ensures Shrinks(d, AbortIO(d, id), {})
  {
    if AbortFinds(d, id) {
      var found := UnlinkAt(d, PlaceOf(d, id), id);
      ShrinksUnlink(d, PlaceOf(d, id), id);
      ShrinksFinish(found, id, Of(found.reqs, id).(error := IOERR_ABORTED));
      ShrinksTrans(d, found, AbortIO(d, id), {});
    }
  }

  lemma ShrinksFailed(d: Unit, id: Id, r: Request)
    requires SameAnswer(Of(d.reqs, id), r)
    ensures var told := DoEvent(d.(reqs := d.reqs[id := r]), BUFF);
            Shrinks(d, Finish(told, id, Of(told.reqs, id)), {})
  {
    var failed := d.(reqs := d.reqs[id := r]);
    var told := DoEvent(failed, BUFF);
    var last := Finish(told, id, Of(told.reqs, id));
    ShrinksRecord(d, id, r);
    ShrinksEvent(failed, BUFF);
    ShrinksFinish(told, id, Of(told.reqs, id));
    ShrinksTrans(failed, told, last, {});
    ShrinksWiden(failed, last, {id});
    ShrinksTrans(d, failed, last, {id});
    ShrinksDone(d, last, id);
  }

  lemma AddressedKeeps(r: Request, frame: Frame, size: U16)
    ensures SameAnswer(r, Addressed(r, frame, size)) && SameFiling(r, Addressed(r, frame, size))
  {
  }

  lemma ShrinksSettled(d: Unit, id: Id, o: Outcome, h: Request, data: seq<Byte>)
    requires SameAnswer(Of(d.reqs, id), h) && SameFiling(Of(d.reqs, id), h)
    ensures Shrinks(d, Settled(d, id, o, h, data), {})
  {
    match o
    case Rejected => ShrinksRecord(d, id, h);
    case Delivered => ShrinksFinish(d, id, h.(data := data));
    case Failed => ShrinksFailed(d, id, h.(error := S2ERR_NO_RESOURCES, wire := BUFF_ERROR));
  }

  lemma ShrinksOffer(d: Unit, id: Id, frame: Frame, size: U16, env: Env)
    ensures Shrinks(d, Offer(d, id, frame, size, env), {})
  {
    var r := Of(d.reqs, id);
    var h := Addressed(r, frame, size);
    AddressedKeeps(r, frame, size);
    ShrinksSent(d, d.sent, {});
    ShrinksSettled(d, id, OutcomeOf(r, id, env), h, Fulfil(r.raw, frame, size).data);
  }

  lemma ShrinksFulfil(d: Unit, p: Place, id: Id, frame: Frame, size: U16, env: Env)
    ensures Shrinks(d, FulfilRead(d, p, id, frame, size, env), {})
  {
    var offered := Offer(d, id, frame, size, env);
    ShrinksOffer(d, id, frame, size, env);
    ShrinksUnlink(offered, p, id);
    ShrinksTrans(d, offered, UnlinkAt(offered, p, id), {});
  }

  lemma {:induction false} ShrinksOpeners(d: Unit, k: nat, delivered: bool, frame: Frame, size: U16, env: Env)
    requires k <= |d.openers|
    ensures Shrinks(d, OfferToOpeners(d, k, delivered, frame, size, env).0, {})
    decreases |d.openers| - k
  {
    if k < |d.openers| {
      var queue := d.openers[k].rxQueue;
      var i := FirstMatch(d.reqs, queue, TypeOf(frame));
      var (d', delivered') := OfferToOne(d, k, delivered, frame, size, env);
      if i < |queue| {
        ShrinksFulfil(d, RxQueue(k), queue[i], frame, size, env);
      }
      assert Shrinks(d, d', {});
      ShrinksOpeners(d', k + 1, delivered', frame, size, env);
      ShrinksTrans(d, d', OfferToOpeners(d', k + 1, delivered', frame, size, env).0, {});
    }
  }

  lemma ShrinksReceive(d: Unit, frame: Frame, size: U16, env: Env)
    ensures Shrinks(d, PacketReceived(d, frame, size, env), {})
  {
    var (offered, delivered) := OfferToOpeners(d, 0, false, frame, size, env);
    ShrinksOpeners(d, 0, false, frame, size, env);
    if !delivered && offered.orphans != [] {
      ShrinksFulfil(offered, Orphans, offered.orphans[0], frame, size, env);
      ShrinksTrans(d, offered, PacketReceived(d, frame, size, env), {});
    }
  }

  // ---- Keeping the invariants ----

  ghost predicate Absent(d: Unit, id: Id) {
    && id !in d.port && id !in d.tx && id !in d.orphans && id !in d.events
    && forall k :: 0 <= k < |d.openers| ==> id !in d.openers[k].rxQueue
  }

  lemma NotInFlight(d: Unit, id: Id)
    requires InFlight(d, id) == 0
    ensures Absent(d, id)
  {
    ReadsHas(d.openers, id);
  }

  /** Nothing completed is still waiting. */
  lemma DoneIsAbsent(d: Unit, x: Id)
    requires Once(d) && x in d.done
    ensures Absent(d, x)
  {
    assert Tally(d, x) <= 1;
    NotInFlight(d, x);
  }

  lemma WaitingKept(d: Unit, d': Unit, apart: set<Id>, x: Id)
    requires Shrinks(d, d', apart) && Once(d') && (x in apart ==> Absent(d, x))
    requires !Absent(d', x)
    ensures SameFiling(Of(d.reqs, x), Of(d'.reqs, x))
  {
    if x in d'.done {
      DoneIsAbsent(d', x);
    }
    assert !Absent(d, x);
  }

  lemma FiledKept(d: Unit, d': Unit, apart: set<Id>)
    requires Filed(d) && Shrinks(d, d', apart) && Once(d') && forall x :: x in apart ==> Absent(d, x)
    ensures Filed(d')
    ensures forall x :: x in d'.events ==> Of(d'.reqs, x).wire == Of(d.reqs, x).wire
  {
    forall x | !Absent(d', x) ensures SameFiling(Of(d.reqs, x), Of(d'.reqs, x)) {
      WaitingKept(d, d', apart, x);
    }
    forall k, x | 0 <= k < |d'.openers| && x in d'.openers[k].rxQueue
      ensures InRxQueue(Of(d'.reqs, x), d'.openers[k].id)
    {
      assert !Absent(d', x) && InRxQueue(Of(d.reqs, x), d.openers[k].id);
    }
  }

  /** A step that only completes requests keeps every invariant. */
  lemma GoodKept(d: Unit, d': Unit, apart: set<Id>)
    requires Good(d) && Shrinks(d, d', apart) && Once(d') && forall x :: x in apart ==> Absent(d, x)
    ensures Good(d')
  {
    FiledKept(d, d', apart);
    EmptyStays(d.tx, d'.tx);
    forall k | 0 <= k < |d'.openers| ensures d.openers[k].rxQueue == [] ==> d'.openers[k].rxQueue == [] {
      EmptyStays(d.openers[k].rxQueue, d'.openers[k].rxQueue);
    }
  }

  lemma EmptyStays(before: seq<Id>, after: seq<Id>)
    requires forall x :: x in after ==> x in before
    ensures before == [] ==> after == []
  {
    if after != [] {
      assert after[0] in before;
    }
  }

  /** Room for one more request, named id, that is nowhere yet. */
  ghost predicate Room(d: Unit, id: Id) {
    forall x :: Tally(d, x) + One(id, x) <= 1
  }

  lemma RoomIsAbsent(d: Unit, id: Id)
    requires Room(d, id)
    ensures Absent(d, id) && id !in d.done
  {
    assert Tally(d, id) + One(id, id) <= 1;
    NotInFlight(d, id);
  }

  lemma OnceExecute(d: Unit, id: Id, env: Env)
    requires Room(d, id)
    ensures Once(Execute(d, id, env))
  {
    forall x ensures Tally(Execute(d, id, env), x) <= 1 {
      CountExecute(d, id, env, x);
      assert Tally(d, x) + One(id, x) <= 1;
    }
  }

  lemma QueuedAnswers(d: Unit, id: Id)
    requires id !in d.done && !IsRead(Of(d.reqs, id).command)
    ensures AnswersKept(d, d.(reqs := d.reqs[id := Of(d.reqs, id).(quick := false, pending := true)], tx := d.tx + [id]))
  {
  }

  lemma SentShrinks(d: Unit, id: Id, env: Env)
    requires d.tx == [] && id !in d.done && !IsRead(Of(d.reqs, id).command)
    ensures var queued := d.(reqs := d.reqs[id := Of(d.reqs, id).(quick := false, pending := true)], tx := d.tx + [id]);
            Shrinks(d, SendAll(queued, env), {})
  {
    var queued := d.(reqs := d.reqs[id := Of(d.reqs, id).(quick := false, pending := true)], tx := d.tx + [id]);
    var d' := SendAll(queued, env);
    ShrinksSendAll(queued, env);
    assert id in queued.tx && id in d'.done;
    QueuedAnswers(d, id);
    AnswersTrans(d, queued, d');
    forall x | x !in d'.done ensures SameFiling(Of(d.reqs, x), Of(d'.reqs, x)) {
      assert SameFiling(Of(queued.reqs, x), Of(d'.reqs, x));
    }
  }

  lemma WriteShrinks(d: Unit, id: Id, env: Env)
    requires d.tx == [] && id !in d.done && !IsRead(Of(d.reqs, id).command)
    ensures Shrinks(d, WritePacket(d, id, env), {})
  {
    var r, d' := Of(d.reqs, id), WritePacket(d, id, env);
    if !d.online {
      ShrinksFinish(d, id, r.(error := S2ERR_OUTOFSERVICE, wire := UNIT_OFFLINE));
    } else if r.dataLength <= ETHERNET_MTU {
      SentShrinks(d, id, env);
    } else {
      var refused := Fail(d, id, S2ERR_MTU_EXCEEDED, GENERIC_ERROR);
      ShrinksFinish(d, id, r.(error := S2ERR_MTU_EXCEEDED, wire := GENERIC_ERROR));
      ShrinksEvent(refused, TX);
      ShrinksTrans(d, refused, d', {});
    }
  }

  lemma QueuedReadGood(d: Unit, id: Id)
    requires Good(d) && Absent(d, id) && Of(d.reqs, id).command == Read
    requires d.online && OpenerAt(d.openers, Of(d.reqs, id).opener) < |d.openers|
    ensures Good(ReadPacket(d, id))
  {
    var k0, d' := OpenerAt(d.openers, Of(d.reqs, id).opener), ReadPacket(d, id);
    forall k, x | 0 <= k < |d'.openers| && x in d'.openers[k].rxQueue
      ensures InRxQueue(Of(d'.reqs, x), d'.openers[k].id)
    {
      if x in d.openers[k].rxQueue {
        assert InRxQueue(Of(d.reqs, x), d.openers[k].id) && x != id;
      } else {
        assert k == k0 && x == id;
      }
    }
  }

  lemma QueuedOrphanGood(d: Unit, id: Id)
    requires Good(d) && Absent(d, id) && Of(d.reqs, id).command == ReadOrphan && d.online
    ensures Good(ReadOrphanPacket(d, id))
  {
    var d' := ReadOrphanPacket(d, id);
    forall k, x | 0 <= k < |d'.openers| && x in d'.openers[k].rxQueue
      ensures InRxQueue(Of(d'.reqs, x), d'.openers[k].id)
    {
      assert InRxQueue(Of(d.reqs, x), d.openers[k].id) && x != id;
    }
    forall x | x in d'.orphans ensures InOrphans(Of(d'.reqs, x)) {
      assert x == id || x in d.orphans;
    }
  }

  lemma QueuedWaiterGood(d: Unit, id: Id)
    requires Good(d) && InEvents(Of(d.reqs, id)) && !Satisfied(d, Of(d.reqs, id).wire)
    ensures Good(AwaitEvent(d, id))
  {
    var d' := AwaitEvent(d, id);
    forall x | x in d'.events ensures InEvents(Of(d'.reqs, x)) && !Satisfied(d', Of(d'.reqs, x).wire) {
      assert x == id || x in d.events;
    }
  }

  /** Going online answers those who waited for it and leaves only waiters for other events. */
  lemma RaiseGood(d: Unit, env: Env)
    requires Good(d) && d.config && Once(RaiseUnit(d, env))
    ensures Good(RaiseUnit(d, env))
  {
    if !d.online {
      var raised := d.(irq := Install(d.irq, env.signal), online := true);
      var d' := RaiseUnit(d, env);
      ShrinksEvent(raised, ONLINE);
      FiledKept(raised, d', {});
      forall x | x in d'.events ensures !Satisfied(d', Of(d'.reqs, x).wire) {
        HitsAndRest(raised.reqs, raised.events, ONLINE, x);
      }
      assert d'.tx == [];
    }
  }

  /** Going offline answers those who waited for it and empties every list but the port and the orphans'. */
  lemma DropGood(d: Unit)
    requires Good(d) && Once(DropUnit(d))
    ensures Good(DropUnit(d))
  {
    if d.online {
      var low, d' := d.(online := false), DropUnit(d);
      var told, flushed := DoEvent(low, OFFLINE), Lowered(d);
      ShrinksEvent(low, OFFLINE);
      ShrinksFlush(told);
      ShrinksTrans(low, told, flushed, {});
      assert Once(flushed) by {
        forall x ensures Tally(flushed, x) <= 1 { assert Tally(d', x) <= 1; }
      }
      FiledKept(low, flushed, {});
    }
  }

  lemma FinishGood(d: Unit, id: Id, r: Request)
    requires Good(d) && Once(Finish(d, id, r)) && SameAnswer(Of(d.reqs, id), r)
    ensures Good(Finish(d, id, r))
  {
    ShrinksFinish(d, id, r);
    GoodKept(d, Finish(d, id, r), {});
  }

  lemma OnlineGood(d: Unit, id: Id, env: Env)
    requires Good(d) && Once(GoOnline(d, id, env))
    ensures Good(GoOnline(d, id, env))
  {
    if !d.config {
      FinishGood(d, id, Of(d.reqs, id).(error := S2ERR_BAD_STATE, wire := NOT_CONFIGURED));
    } else {
      var up := RaiseUnit(d, env);
      OnceBefore(up, id, Of(up.reqs, id));
      RaiseGood(d, env);
      FinishGood(up, id, Of(up.reqs, id));
    }
  }

  lemma OnceBefore(d: Unit, id: Id, r: Request)
    requires Once(Finish(d, id, r))
    ensures Once(d)
  {
    forall x ensures Tally(d, x) <= 1 {
      CountFinish(d, id, r, x);
      assert Tally(Finish(d, id, r), x) <= 1;
    }
  }

  lemma ConfigureGood(d: Unit, id: Id, env: Env)
    requires Good(d) && Once(ConfigureUnit(d, id, env))
    ensures Good(ConfigureUnit(d, id, env))
  {
    if d.config {
      FinishGood(d, id, Of(d.reqs, id).(error := S2ERR_BAD_STATE, wire := IS_CONFIGURED));
    } else {
      OnlineGood(d.(station := Of(d.reqs, id).src, config := true), id, env);
    }
  }

  lemma OfflineGood(d: Unit, id: Id)
    requires Good(d) && Once(GoOffline(d, id))
    ensures Good(GoOffline(d, id))
  {
    var down := DropUnit(d);
    OnceBefore(down, id, Of(down.reqs, id));
    DropGood(d);
    FinishGood(down, id, Of(down.reqs, id));
  }

  lemma FlushGood(d: Unit, id: Id)
    requires Good(d) && Once(FlushCommand(d, id))
    ensures Good(FlushCommand(d, id))
  {
    var flushed := FlushUnit(d);
    OnceBefore(flushed, id, Of(flushed.reqs, id));
    ShrinksFlush(d);
    GoodKept(d, flushed, {});
    FinishGood(flushed, id, Of(flushed.reqs, id));
  }

  lemma ReadGood(d: Unit, id: Id)
    requires Good(d) && Absent(d, id) && Once(ReadPacket(d, id)) && Of(d.reqs, id).command == Read
    ensures Good(ReadPacket(d, id))
  {
    if !d.online {
      FinishGood(d, id, Of(d.reqs, id).(error := S2ERR_OUTOFSERVICE, wire := UNIT_OFFLINE));
    } else if OpenerAt(d.openers, Of(d.reqs, id).opener) == |d.openers| {
      FinishGood(d, id, Of(d.reqs, id).(error := S2ERR_BAD_ARGUMENT, wire := GENERIC_ERROR));
    } else {
      QueuedReadGood(d, id);
    }
  }

  lemma ReadOrphanGood(d: Unit, id: Id)
    requires Good(d) && Absent(d, id) && Once(ReadOrphanPacket(d, id)) && Of(d.reqs, id).command == ReadOrphan
    ensures Good(ReadOrphanPacket(d, id))
  {
    if d.online {
      QueuedOrphanGood(d, id);
    } else {
      FinishGood(d, id, Of(d.reqs, id).(error := S2ERR_OUTOFSERVICE, wire := UNIT_OFFLINE));
    }
  }

  lemma AwaitGood(d: Unit, id: Id)
    requires Good(d) && Once(AwaitEvent(d, id)) && InEvents(Of(d.reqs, id))
    ensures Good(AwaitEvent(d, id))
  {
    var wire := Of(d.reqs, id).wire;
    if Satisfied(d, wire) {
      FinishGood(d, id, Of(d.reqs, id).(error := 0, wire := wire * {ONLINE, OFFLINE}));
    } else {
      QueuedWaiterGood(d, id);
    }
  }

  lemma WriteGood(d: Unit, id: Id, env: Env)
    requires Good(d) && Once(WritePacket(d, id, env)) && id !in d.done && !IsRead(Of(d.reqs, id).command)
    ensures Good(WritePacket(d, id, env))
  {
    WriteShrinks(d, id, env);
    GoodKept(d, WritePacket(d, id, env), {});
  }

  lemma BroadcastGood(d: Unit, id: Id, env: Env)
    requires Good(d) && Absent(d, id) && id !in d.done && Of(d.reqs, id).command == Broadcast
    requires Once(WritePacket(ToAll(d, id), id, env))
    ensures Good(WritePacket(ToAll(d, id), id, env))
  {
    var all := ToAll(d, id);
    RecordGood(d, id, Of(all.reqs, id));
    WriteGood(all, id, env);
  }

  lemma RecordGood(d: Unit, id: Id, r: Request)
    requires Good(d) && Absent(d, id)
    ensures Good(d.(reqs := d.reqs[id := r]))
  {
    var d' := d.(reqs := d.reqs[id := r]);
    forall k, x | 0 <= k < |d'.openers| && x in d'.openers[k].rxQueue
      ensures InRxQueue(Of(d'.reqs, x), d'.openers[k].id)
    {
      assert InRxQueue(Of(d.reqs, x), d.openers[k].id) && x != id;
    }
  }

  lemma TransferGood(d: Unit, id: Id, env: Env)
    requires Good(d) && Absent(d, id) && id !in d.done
    requires Once(Execute(d, id, env)) && IsTransfer(Of(d.reqs, id).command)
    requires Of(d.reqs, id).command == OnEvent ==> InEvents(Of(d.reqs, id))
    ensures Good(Execute(d, id, env))
  {
    match Of(d.reqs, id).command {
      case Write => WriteGood(d, id, env);
      case Multicast => WriteGood(d, id, env);
      case Broadcast => BroadcastGood(d, id, env);
      case Read => ReadGood(d, id);
      case ReadOrphan => ReadOrphanGood(d, id);
      case OnEvent => AwaitGood(d, id);
    }
  }

  lemma ModeGood(d: Unit, id: Id, env: Env)
    requires Good(d) && Once(Execute(d, id, env))
    requires Of(d.reqs, id).command == Online || Of(d.reqs, id).command == Configure
    ensures Good(Execute(d, id, env))
  {
    if Of(d.reqs, id).command == Online {
      OnlineGood(d, id, env);
    } else {
      ConfigureGood(d, id, env);
    }
  }

  lemma AnswerGood(d: Unit, id: Id, env: Env)
    requires Good(d) && Once(Execute(d, id, env)) && IsAnswer(Of(d.reqs, id).command)
    ensures Good(Execute(d, id, env))
  {
    if Of(d.reqs, id).command == Query || Of(d.reqs, id).command == QueryNow {
      QueryGood(d, id, env);
    } else {
      FinishGood(d, id, Of(d.reqs, id).(error := S2ERR_NOT_SUPPORTED, wire := GENERIC_ERROR));
    }
  }

  predicate IsAnswer(c: Command) {
    c == Query || c == QueryNow || c == Unknown || c == UnknownNow
  }

  lemma ControlGood(d: Unit, id: Id, env: Env)
    requires Good(d) && Once(Execute(d, id, env)) && !IsTransfer(Of(d.reqs, id).command)
    ensures Good(Execute(d, id, env))
  {
    var c := Of(d.reqs, id).command;
    if c == Flush {
      FlushGood(d, id);
    } else if c == Offline {
      OfflineGood(d, id);
    } else if IsAnswer(c) {
      AnswerGood(d, id, env);
    } else {
      ModeGood(d, id, env);
    }
  }

  lemma QueryGood(d: Unit, id: Id, env: Env)
    requires Good(d) && Once(AnswerQuery(d, id, env))
    ensures Good(AnswerQuery(d, id, env))
  {
    if env.error == 0 {
      FinishGood(d, id, Of(d.reqs, id));
    } else {
      FinishGood(d, id, Of(d.reqs, id).(error := env.error, wire := env.wire));
    }
  }

  /** Performing any command keeps every invariant. */
  lemma PerformGood(d: Unit, id: Id, env: Env)
    requires Good(d) && Room(d, id)
    requires Of(d.reqs, id).command == OnEvent ==> InEvents(Of(d.reqs, id))
    ensures Good(PerformIO(d, id, env)) && Once(PerformIO(d, id, env))
  {
    var cleared := Cleared(d, id);
    RoomIsAbsent(d, id);
    RecordGood(d, id, Of(cleared.reqs, id));
    assert Room(cleared, id) by {
      forall x ensures Tally(cleared, x) + One(id, x) <= 1 { assert Tally(d, x) + One(id, x) <= 1; }
    }
    OnceExecute(cleared, id, env);
    if IsTransfer(Of(cleared.reqs, id).command) {
      TransferGood(cleared, id, env);
    } else {
      ControlGood(cleared, id, env);
    }
  }

  lemma BeginGood(d: Unit, id: Id, env: Env)
    requires Good(d) && Room(d, id)
    ensures Good(BeginIO(d, id, env)) && Once(BeginIO(d, id, env))
  {
    var r := Of(d.reqs, id);
    if AtOnce(r.command) {
      PerformGood(d, id, env);
    } else {
      RoomIsAbsent(d, id);
      var posted := r.(pending := true, quick := false);
      RecordGood(d, id, posted);
      forall x ensures Tally(BeginIO(d, id, env), x) <= 1 {
        CountBegin(d, id, env, x);
        assert Tally(d, x) + One(id, x) <= 1;
      }
    }
  }

  lemma ServeGood(d: Unit, env: Env)
    requires Good(d) && Once(d) && d.port != []
    ensures Good(ServeOne(d, env)) && Once(ServeOne(d, env))
  {
    var popped, id := d.(port := d.port[1..]), d.port[0];
    forall x ensures Tally(popped, x) + One(id, x) <= 1 {
      OccursFirst(d.port, x);
      assert Tally(d, x) <= 1;
    }
    assert id in d.port && InPort(Of(d.reqs, id));
    PerformGood(popped, id, env);
  }

  lemma AbortGood(d: Unit, id: Id)
    requires Good(d) && Once(d)
    ensures Good(AbortIO(d, id)) && Once(AbortIO(d, id))
  {
    forall x ensures Tally(AbortIO(d, id), x) <= 1 {
      CountAbort(d, id, x);
      assert Tally(d, x) <= 1;
    }
    ShrinksAbort(d, id);
    GoodKept(d, AbortIO(d, id), {});
  }

  lemma ReceiveGood(d: Unit, frame: Frame, size: U16, env: Env)
    requires Good(d) && Once(d)
    ensures Good(PacketReceived(d, frame, size, env)) && Once(PacketReceived(d, frame, size, env))
  {
    forall x ensures Tally(PacketReceived(d, frame, size, env), x) <= 1 {
      CountReceive(d, frame, size, env, x);
      assert Tally(d, x) <= 1;
    }
    ShrinksReceive(d, frame, size, env);
    GoodKept(d, PacketReceived(d, frame, size, env), {});
  }

  // ---- Openers, configuration and the interrupt server ----

  predicate SameOpeners(d: Unit, d': Unit) {
    && d'.openCnt == d.openCnt && |d'.openers| == |d.openers|
    && forall k :: 0 <= k < |d.openers| ==> d'.openers[k].id == d.openers[k].id
  }

  predicate Connected(d: Unit) {
    d.online ==> d.irq.installed
  }

  /** The command takes an offline unit online. */
  predicate Raises(d: Unit, id: Id) {
    Of(d.reqs, id).command == if d.config then Online else Configure
  }

  /**
   * The openers stay, a configuration stays, an offline unit goes online exactly if rises says so, and then it gets its
   * interrupt server exactly if a signal is free.
   */
  predicate ModeStep(d: Unit, d': Unit, rises: bool, signal: bool) {
    && SameOpeners(d, d')
    && (d.config ==> d'.config && d'.station == d.station)
    && (!d.online ==> (d'.online <==> rises))
    && (Connected(d) && d.online ==> Connected(d'))
    && (!d.online && !d.irq.installed && d'.online ==> (Connected(d') <==> signal))
  }

  lemma WriteMode(d: Unit, id: Id, env: Env)
    requires d.tx == [] && id !in d.done && !IsRead(Of(d.reqs, id).command)
    ensures ModeStep(d, WritePacket(d, id, env), false, env.signal)
  {
    WriteShrinks(d, id, env);
  }

  lemma BroadcastMode(d: Unit, id: Id, env: Env)
    requires d.tx == [] && id !in d.done && Of(d.reqs, id).command == Broadcast
    ensures ModeStep(d, WritePacket(ToAll(d, id), id, env), false, env.signal)
  {
    WriteMode(ToAll(d, id), id, env);
  }

  lemma ReadMode(d: Unit, id: Id, signal: bool)
    ensures ModeStep(d, ReadPacket(d, id), false, signal)
  {
  }

  lemma ReadOrphanMode(d: Unit, id: Id, signal: bool)
    ensures ModeStep(d, ReadOrphanPacket(d, id), false, signal)
  {
  }

  lemma AwaitMode(d: Unit, id: Id, signal: bool)
    ensures ModeStep(d, AwaitEvent(d, id), false, signal)
  {
  }

  lemma OnlineMode(d: Unit, id: Id, env: Env)
    ensures ModeStep(d, GoOnline(d, id, env), d.config, env.signal)
  {
  }

  lemma ConfigureMode(d: Unit, id: Id, env: Env)
    ensures ModeStep(d, ConfigureUnit(d, id, env), !d.config, env.signal)
  {
    if !d.config {
      OnlineMode(d.(station := Of(d.reqs, id).src, config := true), id, env);
    }
  }

  lemma OfflineMode(d: Unit, id: Id, signal: bool)
    ensures ModeStep(d, GoOffline(d, id), false, signal)
    ensures ModeStep(d, FlushCommand(d, id), false, signal)
  {
  }

  lemma TransferMode(d: Unit, id: Id, env: Env)
    requires d.tx == [] && id !in d.done && IsTransfer(Of(d.reqs, id).command)
    ensures ModeStep(d, Execute(d, id, env), Raises(d, id), env.signal)
  {
    match Of(d.reqs, id).command {
      case Write => WriteMode(d, id, env);
      case Multicast => WriteMode(d, id, env);
      case Broadcast => BroadcastMode(d, id, env);
      case Read => ReadMode(d, id, env.signal);
      case ReadOrphan => ReadOrphanMode(d, id, env.signal);
      case OnEvent => AwaitMode(d, id, env.signal);
    }
  }

  lemma ControlMode(d: Unit, id: Id, env: Env)
    requires !IsTransfer(Of(d.reqs, id).command)
    ensures ModeStep(d, Execute(d, id, env), Raises(d, id), env.signal)
  {
    var c := Of(d.reqs, id).command;
    if c == Online {
      OnlineMode(d, id, env);
    } else if c == Configure {
      ConfigureMode(d, id, env);
    } else if c == Offline || c == Flush {
      OfflineMode(d, id, env.signal);
    }
  }

  lemma PerformMode(d: Unit, id: Id, env: Env)
    requires d.tx == [] && id !in d.done
    ensures ModeStep(d, PerformIO(d, id, env), Raises(d, id), env.signal)
  {
    if IsTransfer(Of(d.reqs, id).command) {
      TransferMode(Cleared(d, id), id, env);
    } else {
      ControlMode(Cleared(d, id), id, env);
    }
  }

  lemma BeginMode(d: Unit, id: Id, env: Env)
    requires d.tx == [] && id !in d.done
    ensures ModeStep(d, BeginIO(d, id, env), false, env.signal)
  {
    if AtOnce(Of(d.reqs, id).command) {
      PerformMode(d, id, env);
    }
  }
}
