/** Every request is accounted for: what each operation does to the lists, counted and listed. */
module Sana2Accounts {
  import opened Words
  import opened Frames
  import opened Sana2Requests

  /** How often a request occurs in a list. */
  function Occurs(ids: seq<Id>, x: Id): (n: nat)
    ensures n > 0 <==> x in ids
  {
    multiset(ids)[x]
  }

  lemma OccursConcat(a: seq<Id>, b: seq<Id>, x: Id)
    ensures Occurs(a + b, x) == Occurs(a, x) + Occurs(b, x)
  {
    assert multiset(a + b) == multiset(a) + multiset(b);
  }

  lemma OccursFirst(ids: seq<Id>, x: Id)
    requires ids != []
    ensures Occurs(ids, x) == One(ids[0], x) + Occurs(ids[1..], x)
  {
    assert ids == [ids[0]] + ids[1..];
    OccursConcat([ids[0]], ids[1..], x);
  }

  function One(id: Id, x: Id): (n: nat) {
    if id == x then 1 else 0
  }

  /** In how many places of the unit a request waits. */
  function InFlight(d: Unit, x: Id): (n: nat) {
    Occurs(d.port, x) + Occurs(d.tx, x) + Occurs(Reads(d.openers), x) + Occurs(d.orphans, x) + Occurs(d.events, x)
  }

  /** In how many places of the unit a request waits, plus how often it was completed. */
  function Tally(d: Unit, x: Id): (n: nat) {
    InFlight(d, x) + Occurs(d.done, x)
  }

  // ---- Counting ----

  lemma {:induction false} ReadsUpdate(openers: seq<Opener>, k: nat, o: Opener, x: Id)
    requires k < |openers|
    ensures Occurs(Reads(openers[k := o]), x) + Occurs(openers[k].rxQueue, x)
            == Occurs(Reads(openers), x) + Occurs(o.rxQueue, x)
    decreases |openers|
  {
    var n := |openers| - 1;
    var after := openers[k := o];
    OccursConcat(Reads(openers[..n]), openers[n].rxQueue, x);
    OccursConcat(Reads(after[..n]), after[n].rxQueue, x);
    if k == n {
      assert after[..n] == openers[..n];
    } else {
      assert after[..n] == openers[..n][k := o];
      ReadsUpdate(openers[..n], k, o, x);
    }
  }

  lemma {:induction false} ReadsEmptied(openers: seq<Opener>)
    ensures Reads(Emptied(openers)) == []
    decreases |openers|
  {
    if openers != [] {
      var n := |openers| - 1;
      assert Emptied(openers)[..n] == Emptied(openers[..n]);
      ReadsEmptied(openers[..n]);
    }
  }

  lemma {:induction false} ReadsHas(openers: seq<Opener>, x: Id)
    ensures x in Reads(openers) <==> exists k :: 0 <= k < |openers| && x in openers[k].rxQueue
    decreases |openers|
  {
    if openers != [] {
      var n := |openers| - 1;
      ReadsHas(openers[..n], x);
      assert forall k :: 0 <= k < n ==> openers[..n][k] == openers[k];
    }
  }

  lemma CountFinish(d: Unit, id: Id, r: Request, x: Id)
    ensures Tally(Finish(d, id, r), x) == Tally(d, x) + One(id, x)
  {
    OccursConcat(d.done, [id], x);
  }

  lemma CountEvent(d: Unit, event: int, x: Id)
    ensures Tally(DoEvent(d, event), x) == Tally(d, x)
  {
    HitsPlusRest(d.reqs, d.events, event, x);
    OccursConcat(d.done, Hits(d.reqs, d.events, event), x);
  }

  lemma CountReported(d: Unit, id: Id, x: Id)
    ensures Tally(Reported(d, id), x) == Tally(d, x) + One(id, x)
  {
    CountEvent(d, BUFF, x);
    var told := if Of(d.reqs, id).wire != {} then DoEvent(d, BUFF) else d;
    CountFinish(told, id, Of(told.reqs, id), x);
  }

  lemma CountNoted(d: Unit, id: Id, env: Env, x: Id)
    ensures Tally(Noted(d, id, env), x) == Tally(d, x)
  {
  }

  lemma CountSendOne(d: Unit, id: Id, env: Env, x: Id)
    ensures Tally(SendOne(d, id, env), x) == Tally(d, x) + One(id, x)
  {
    CountNoted(d, id, env, x);
    var noted := Noted(d, id, env);
    CountReported(noted, id, x);
  }

  lemma {:induction false} CountSendAll(d: Unit, env: Env, x: Id)
    ensures Tally(SendAll(d, env), x) == Tally(d, x)
    decreases |d.tx|
  {
    if d.tx != [] {
      var popped := d.(tx := d.tx[1..]);
      OccursFirst(d.tx, x);
      CountSendOne(popped, d.tx[0], env, x);
      CountSendAll(SendOne(popped, d.tx[0], env), env, x);
    }
  }

  lemma CountWrite(d: Unit, id: Id, env: Env, x: Id)
    ensures Tally(WritePacket(d, id, env), x) == Tally(d, x) + One(id, x)
  {
    var r := Of(d.reqs, id);
    if d.online && r.dataLength <= ETHERNET_MTU {
      OccursConcat(d.tx, [id], x);
      CountSendAll(d.(reqs := d.reqs[id := r.(quick := false, pending := true)], tx := d.tx + [id]), env, x);
    } else if d.online {
      CountFinish(d, id, r.(error := S2ERR_MTU_EXCEEDED, wire := GENERIC_ERROR), x);
      CountEvent(Fail(d, id, S2ERR_MTU_EXCEEDED, GENERIC_ERROR), TX, x);
    } else {
      CountFinish(d, id, r.(error := S2ERR_OUTOFSERVICE, wire := UNIT_OFFLINE), x);
    }
  }

  lemma CountRead(d: Unit, id: Id, x: Id)
    ensures Tally(ReadPacket(d, id), x) == Tally(d, x) + One(id, x)
  {
    var k := OpenerAt(d.openers, Of(d.reqs, id).opener);
    if !d.online {
      CountFinish(d, id, Of(d.reqs, id).(error := S2ERR_OUTOFSERVICE, wire := UNIT_OFFLINE), x);
    } else if k == |d.openers| {
      CountFinish(d, id, Of(d.reqs, id).(error := S2ERR_BAD_ARGUMENT, wire := GENERIC_ERROR), x);
    } else {
      ReadsUpdate(d.openers, k, d.openers[k].(rxQueue := d.openers[k].rxQueue + [id]), x);
      OccursConcat(d.openers[k].rxQueue, [id], x);
    }
  }

  lemma CountReadOrphan(d: Unit, id: Id, x: Id)
    ensures Tally(ReadOrphanPacket(d, id), x) == Tally(d, x) + One(id, x)
  {
    OccursConcat(d.orphans, [id], x);
    CountFinish(d, id, Of(d.reqs, id).(error := S2ERR_OUTOFSERVICE, wire := UNIT_OFFLINE), x);
  }

  lemma CountAwait(d: Unit, id: Id, x: Id)
    ensures Tally(AwaitEvent(d, id), x) == Tally(d, x) + One(id, x)
  {
    OccursConcat(d.events, [id], x);
    CountFinish(d, id, Of(d.reqs, id).(error := 0, wire := Of(d.reqs, id).wire * {ONLINE, OFFLINE}), x);
  }

  lemma CountFlush(d: Unit, x: Id)
    ensures Tally(FlushUnit(d), x) == Tally(d, x)
  {
    ReadsEmptied(d.openers);
    OccursConcat(Reads(d.openers) + d.tx, d.events, x);
    OccursConcat(Reads(d.openers), d.tx, x);
    OccursConcat(d.done, Reads(d.openers) + d.tx + d.events, x);
  }

  lemma CountRaise(d: Unit, env: Env, x: Id)
    ensures Tally(RaiseUnit(d, env), x) == Tally(d, x)
  {
    CountEvent(d.(irq := Install(d.irq, env.signal), online := true), ONLINE, x);
  }

  lemma CountDrop(d: Unit, x: Id)
    ensures Tally(DropUnit(d), x) == Tally(d, x)
  {
    CountEvent(d.(online := false), OFFLINE, x);
    CountFlush(DoEvent(d.(online := false), OFFLINE), x);
  }

  lemma CountOnline(d: Unit, id: Id, env: Env, x: Id)
    ensures Tally(GoOnline(d, id, env), x) == Tally(d, x) + One(id, x)
  {
    CountRaise(d, env, x);
    CountFinish(RaiseUnit(d, env), id, Of(RaiseUnit(d, env).reqs, id), x);
    CountFinish(d, id, Of(d.reqs, id).(error := S2ERR_BAD_STATE, wire := NOT_CONFIGURED), x);
  }

  lemma CountConfigure(d: Unit, id: Id, env: Env, x: Id)
    ensures Tally(ConfigureUnit(d, id, env), x) == Tally(d, x) + One(id, x)
  {
    CountOnline(d.(station := Of(d.reqs, id).src, config := true), id, env, x);
    CountFinish(d, id, Of(d.reqs, id).(error := S2ERR_BAD_STATE, wire := IS_CONFIGURED), x);
  }

  lemma CountOffline(d: Unit, id: Id, x: Id)
    ensures Tally(GoOffline(d, id), x) == Tally(d, x) + One(id, x)
  {
    CountDrop(d, x);
    CountFinish(DropUnit(d), id, Of(DropUnit(d).reqs, id), x);
  }

  lemma CountFlushCommand(d: Unit, id: Id, x: Id)
    ensures Tally(FlushCommand(d, id), x) == Tally(d, x) + One(id, x)
  {
    CountFlush(d, x);
    CountFinish(FlushUnit(d), id, Of(FlushUnit(d).reqs, id), x);
  }

  lemma CountQuery(d: Unit, id: Id, env: Env, x: Id)
    ensures Tally(AnswerQuery(d, id, env), x) == Tally(d, x) + One(id, x)
  {
    CountFinish(d, id, Of(d.reqs, id), x);
    CountFinish(d, id, Of(d.reqs, id).(error := env.error, wire := env.wire), x);
  }

  predicate IsTransfer(c: Command) {
    c == Write || c == Multicast || c == Broadcast || c == Read || c == ReadOrphan || c == OnEvent
  }

  lemma CountTransfer(d: Unit, id: Id, env: Env, x: Id)
    requires IsTransfer(Of(d.reqs, id).command)
    ensures Tally(Execute(d, id, env), x) == Tally(d, x) + One(id, x)
  {
    match Of(d.reqs, id).command {
      case Write => CountWrite(d, id, env, x);
      case Multicast => CountWrite(d, id, env, x);
      case Broadcast => CountWrite(ToAll(d, id), id, env, x);
      case Read => CountRead(d, id, x);
      case ReadOrphan => CountReadOrphan(d, id, x);
      case OnEvent => CountAwait(d, id, x);
    }
  }

  lemma CountEnable(d: Unit, id: Id, env: Env, x: Id)
    requires Of(d.reqs, id).command == Online || Of(d.reqs, id).command == Configure
    ensures Tally(Execute(d, id, env), x) == Tally(d, x) + One(id, x)
  {
    if Of(d.reqs, id).command == Online {
      CountOnline(d, id, env, x);
    } else {
      CountConfigure(d, id, env, x);
    }
  }

  lemma CountDisable(d: Unit, id: Id, env: Env, x: Id)
    requires Of(d.reqs, id).command == Offline || Of(d.reqs, id).command == Flush
    ensures Tally(Execute(d, id, env), x) == Tally(d, x) + One(id, x)
  {
    if Of(d.reqs, id).command == Offline {
      CountOffline(d, id, x);
    } else {
      CountFlushCommand(d, id, x);
    }
  }

  lemma CountAnswer(d: Unit, id: Id, env: Env, x: Id)
    requires Of(d.reqs, id).command == Query || Of(d.reqs, id).command == QueryNow
    ensures Tally(Execute(d, id, env), x) == Tally(d, x) + One(id, x)
  {
    CountQuery(d, id, env, x);
  }

  lemma CountUnknown(d: Unit, id: Id, env: Env, x: Id)
    requires Of(d.reqs, id).command == Unknown || Of(d.reqs, id).command == UnknownNow
    ensures Tally(Execute(d, id, env), x) == Tally(d, x) + One(id, x)
  {
    CountFinish(d, id, Of(d.reqs, id).(error := S2ERR_NOT_SUPPORTED, wire := GENERIC_ERROR), x);
  }

  /** Performing a request files it in one list or completes it once, and moves every other one consistently. */
  lemma CountExecute(d: Unit, id: Id, env: Env, x: Id)
    ensures Tally(Execute(d, id, env), x) == Tally(d, x) + One(id, x)
  {
    match Of(d.reqs, id).command
    case Online => CountEnable(d, id, env, x);
    case Configure => CountEnable(d, id, env, x);
    case Offline => CountDisable(d, id, env, x);
    case Flush => CountDisable(d, id, env, x);
    case Query => CountAnswer(d, id, env, x);
    case QueryNow => CountAnswer(d, id, env, x);
    case Unknown => CountUnknown(d, id, env, x);
    case UnknownNow => CountUnknown(d, id, env, x);
    case _ => CountTransfer(d, id, env, x);
  }

  lemma CountBegin(d: Unit, id: Id, env: Env, x: Id)
    ensures Tally(BeginIO(d, id, env), x) == Tally(d, x) + One(id, x)
  {
    CountExecute(Cleared(d, id), id, env, x);
    OccursConcat(d.port, [id], x);
  }

  lemma CountServe(d: Unit, env: Env, x: Id)
    requires d.port != []
    ensures Tally(ServeOne(d, env), x) == Tally(d, x)
  {
    OccursFirst(d.port, x);
    CountExecute(Cleared(d.(port := d.port[1..]), d.port[0]), d.port[0], env, x);
  }

  lemma CountUnlinked(ids: seq<Id>, id: Id, x: Id)
    requires id in ids
    ensures Occurs(Unlinked(ids, id), x) + One(id, x) == Occurs(ids, x)
  {
    WithoutOne(ids, IndexOf(ids, id));
    assert multiset(ids)[x] == multiset(Unlinked(ids, id))[x] + multiset{id}[x];
  }

  lemma CountUnlinkAt(d: Unit, p: Place, id: Id, x: Id)
    requires id in ListAt(d, p)
    ensures Tally(UnlinkAt(d, p, id), x) + One(id, x) == Tally(d, x)
  {
    CountUnlinked(ListAt(d, p), id, x);
    if p.RxQueue? {
      ReadsUpdate(d.openers, p.k, Opener(d.openers[p.k].id, Unlinked(d.openers[p.k].rxQueue, id)), x);
    }
  }

  lemma CountAbort(d: Unit, id: Id, x: Id)
    ensures Tally(AbortIO(d, id), x) == Tally(d, x)
  {
    if AbortFinds(d, id) {
      var p := PlaceOf(d, id);
      CountUnlinkAt(d, p, id, x);
      var found := UnlinkAt(d, p, id);
      CountFinish(found, id, Of(found.reqs, id).(error := IOERR_ABORTED), x);
    }
  }

  lemma CountSettled(d: Unit, id: Id, o: Outcome, h: Request, data: seq<Byte>, x: Id)
    ensures Tally(Settled(d, id, o, h, data), x) == Tally(d, x) + if o.Rejected? then 0 else One(id, x)
  {
    match o
    case Rejected =>
    case Delivered => CountFinish(d, id, h.(data := data), x);
    case Failed =>
      var failed := d.(reqs := d.reqs[id := h.(error := S2ERR_NO_RESOURCES, wire := BUFF_ERROR)]);
      CountEvent(failed, BUFF, x);
      CountFinish(DoEvent(failed, BUFF), id, Of(DoEvent(failed, BUFF).reqs, id), x);
  }

  lemma CountOffer(d: Unit, id: Id, frame: Frame, size: U16, env: Env, x: Id)
    ensures Tally(Offer(d, id, frame, size, env), x)
            == Tally(d, x) + if OutcomeOf(Of(d.reqs, id), id, env).Rejected? then 0 else One(id, x)
  {
    var r := Of(d.reqs, id);
    CountSettled(d, id, OutcomeOf(r, id, env), Addressed(r, frame, size), Fulfil(r.raw, frame, size).data, x);
  }

  lemma CountFulfil(d: Unit, p: Place, id: Id, frame: Frame, size: U16, env: Env, x: Id)
    requires p.RxQueue? || p.Orphans?
    requires id in ListAt(d, p)
    ensures Tally(FulfilRead(d, p, id, frame, size, env), x) == Tally(d, x)
  {
    CountOffer(d, id, frame, size, env, x);
    CountUnlinkAt(Offer(d, id, frame, size, env), p, id, x);
  }

  lemma CountOfferToOne(d: Unit, k: nat, delivered: bool, frame: Frame, size: U16, env: Env, x: Id)
    requires k < |d.openers|
    ensures Tally(OfferToOne(d, k, delivered, frame, size, env).0, x) == Tally(d, x)
  {
    var queue := d.openers[k].rxQueue;
    var i := FirstMatch(d.reqs, queue, TypeOf(frame));
    if i < |queue| {
      CountFulfil(d, RxQueue(k), queue[i], frame, size, env, x);
    }
  }

  lemma {:induction false} CountOpeners(d: Unit, k: nat, delivered: bool, frame: Frame, size: U16, env: Env, x: Id)
    requires k <= |d.openers|
    ensures Tally(OfferToOpeners(d, k, delivered, frame, size, env).0, x) == Tally(d, x)
    decreases |d.openers| - k
  {
    if k < |d.openers| {
      CountOfferToOne(d, k, delivered, frame, size, env, x);
      var (d', delivered') := OfferToOne(d, k, delivered, frame, size, env);
      CountOpeners(d', k + 1, delivered', frame, size, env, x);
    }
  }

  /** A packet moves requests from the read queues, the orphan list and the event list to completion, and no further. */
  lemma CountReceive(d: Unit, frame: Frame, size: U16, env: Env, x: Id)
    ensures Tally(PacketReceived(d, frame, size, env), x) == Tally(d, x)
  {
    CountOpeners(d, 0, false, frame, size, env, x);
    var offered := OfferToOpeners(d, 0, false, frame, size, env).0;
    if offered.orphans != [] {
      CountFulfil(offered, Orphans, offered.orphans[0], frame, size, env, x);
    }
  }
}
