/** What single operations do to the one request they are about, and to nothing else. */
module Sana2Effects {
  import opened Words
  import opened Frames
  import opened Sana2Requests
  import opened Sana2Accounts
  import opened Sana2Invariants
  import TQ = TransmitQueue

  // ---- Order ----

  /** a is b with some elements left out. */
  ghost predicate Within(a: seq<Id>, b: seq<Id>)
    decreases |b|
  {
    if b == [] then a == []
    else
      var n := |b| - 1;
      Within(a, b[..n]) || (a != [] && a[|a| - 1] == b[n] && Within(a[..|a| - 1], b[..n]))
  }

  lemma WithinStep(a: seq<Id>, b: seq<Id>)
    requires b != [] && Within(a, b[..|b| - 1])
    ensures Within(a, b) && Within(a + [b[|b| - 1]], b)
  {
    assert (a + [b[|b| - 1]])[..|a|] == a;
  }

  lemma {:induction false} SplitKeepsOrder(reqs: map<Id, Request>, ids: seq<Id>, event: int)
    ensures Within(Hits(reqs, ids, event), ids) && Within(Rest(reqs, ids, event), ids)
    decreases |ids|
  {
    if ids != [] {
      var init := ids[..|ids| - 1];
      SplitKeepsOrder(reqs, init, event);
      var last, hits, rest := ids[|ids| - 1], Hits(reqs, init, event), Rest(reqs, init, event);
      WithinStep(hits, ids);
      WithinStep(rest, ids);
      assert hits + [] == hits && rest + [] == rest;
    }
  }

  // ---- Events ----

  /**
   * DoEvent completes exactly the waiters of the event, in the order they came, telling each the event and no error;
   * the others keep waiting, in order and unchanged.
   */
  lemma EventExact(d: Unit, event: int, x: Id)
    ensures var d' := DoEvent(d, event);
            && (x in d.events && WaitsFor(d.reqs, x, event)
                ==> Of(d'.reqs, x) == Fired(Of(d.reqs, x), event) && Occurs(d'.done, x) == Occurs(d.done, x) + Occurs(d.events, x))
            && (!(x in d.events && WaitsFor(d.reqs, x, event))
                ==> Of(d'.reqs, x) == Of(d.reqs, x) && Occurs(d'.done, x) == Occurs(d.done, x)
                    && Occurs(d'.events, x) == Occurs(d.events, x))
            && d'.done == d.done + d'.done[|d.done|..] && Within(d'.done[|d.done|..], d.events) && Within(d'.events, d.events)
  {
    var hits := Hits(d.reqs, d.events, event);
    FireEachAt(d.reqs, hits, event, x);
    HitsAndRest(d.reqs, d.events, event, x);
    HitsPlusRest(d.reqs, d.events, event, x);
    OccursConcat(d.done, hits, x);
    SplitKeepsOrder(d.reqs, d.events, event);
    assert DoEvent(d, event).done[|d.done|..] == hits;
    assert Occurs(hits, x) + Occurs(Rest(d.reqs, d.events, event), x) == Occurs(d.events, x);
  }

  // ---- Writes ----

  /** The fate of a write, decided before the call returns: handed to the chip driver, or refused with what error. */
  function WriteError(d: Unit, r: Request, id: Id, env: Env): (error: int) {
    if !d.online then S2ERR_OUTOFSERVICE
    else if r.dataLength > ETHERNET_MTU then S2ERR_MTU_EXCEEDED
    else if r.raw && r.dataLength <= ETH_HEADER_SIZE then S2ERR_MTU_EXCEEDED
    else if id in env.copyFrom || (!r.raw && id in env.dma) then 0
    else S2ERR_NO_RESOURCES
  }

  lemma SentWrite(d: Unit, id: Id, env: Env)
    requires d.tx == [id] && id !in d.events && Of(d.reqs, id).error == 0
    ensures var d', r := SendAll(d, env), Of(d.reqs, id);
            && Of(d'.reqs, id).error == (match Judge(r, id, env) case Handed => 0 case Refused(error) => error)
            && d'.sent == (if Judge(r, id, env).Handed? then d.sent + [id] else d.sent)
            && (!r.quick ==> Of(d'.reqs, id).replied)
  {
    var popped := d.(tx := d.tx[1..]);
    assert popped.tx == [] && SendAll(d, env) == SendAll(SendOne(popped, id, env), env);
    var noted := Noted(popped, id, env);
    HitsAndRest(noted.reqs, noted.events, BUFF, id);
    FireEachAt(noted.reqs, Hits(noted.reqs, noted.events, BUFF), BUFF, id);
  }

  lemma RefusedWrite(d: Unit, id: Id, env: Env)
    requires id !in d.events && (!d.online || Of(d.reqs, id).dataLength > ETHERNET_MTU)
    ensures var d' := WritePacket(d, id, env);
            Of(d'.reqs, id).error == WriteError(d, Of(d.reqs, id), id, env) && d'.sent == d.sent
  {
    var refused := Fail(d, id, S2ERR_MTU_EXCEEDED, GENERIC_ERROR);
    HitsAndRest(refused.reqs, refused.events, TX, id);
    FireEachAt(refused.reqs, Hits(refused.reqs, refused.events, TX), TX, id);
  }

  /**
   * The packet of a write, broadcast or multicast reaches the chip driver exactly if there is no error to report.
   * Nothing is sent for an offline unit or a packet of illegal length.
   */
  lemma WriteExact(d: Unit, id: Id, env: Env)
    requires Good(d) && Room(d, id) && !IsRead(Of(d.reqs, id).command) && Of(d.reqs, id).error == 0
    ensures var d', e := WritePacket(d, id, env), WriteError(d, Of(d.reqs, id), id, env);
            Of(d'.reqs, id).error == e && d'.sent == (if e == 0 then d.sent + [id] else d.sent)
  {
    RoomIsAbsent(d, id);
    var r := Of(d.reqs, id);
    if d.online && r.dataLength <= ETHERNET_MTU {
      SentWrite(d.(reqs := d.reqs[id := r.(quick := false, pending := true)], tx := d.tx + [id]), id, env);
    } else {
      RefusedWrite(d, id, env);
    }
  }

  /** The send a write asks of the chip driver, and the driver's own guard for it. */
  function SendOf(r: Request): (e: TQ.Event) {
    if r.raw then TQ.Raw(r.dataLength) else TQ.Cooked(r.dataLength)
  }

  predicate DriverTakes(q: TQ.Queue, r: Request) {
    if r.raw then TQ.RawAccepted(q, r.dataLength) else TQ.CookedAccepted(q, r.dataLength)
  }

  /** The chip's queue after the request was performed: the driver is called for each packet handed to it. */
  function QueueAfter(d: Unit, id: Id, env: Env, q: TQ.Queue): (q': TQ.Queue) {
    if WritePacket(d, id, env).sent == d.sent then q else TQ.Next(q, SendOf(Of(d.reqs, id)))
  }

  /**
   * The driver's result is ignored, so an error-free write may be lost: it is in the chip's queue afterwards exactly if
   * the driver's own guard held. A write with an error never gets there.
   */
  lemma WriteQueued(d: Unit, id: Id, env: Env, q: TQ.Queue)
    requires Good(d) && Room(d, id) && !IsRead(Of(d.reqs, id).command) && Of(d.reqs, id).error == 0
    ensures var r, d', q' := Of(d.reqs, id), WritePacket(d, id, env), QueueAfter(d, id, env, q);
            && (Of(d'.reqs, id).error == 0 && DriverTakes(q, r) ==> q'.ids == q.ids + [q.frameId % 64])
            && (!(Of(d'.reqs, id).error == 0 && DriverTakes(q, r)) ==> q' == q)
  {
    WriteExact(d, id, env);
  }

  /** The failing family: raw writes of 15 to 45 bytes end without error, and the driver refuses every one of them. */
  lemma ShortRawWriteIsLost(d: Unit, id: Id, env: Env, q: TQ.Queue)
    requires Good(d) && Room(d, id) && !IsRead(Of(d.reqs, id).command) && Of(d.reqs, id).error == 0
    requires d.online && id in env.copyFrom && Of(d.reqs, id).raw && 15 <= Of(d.reqs, id).dataLength <= 45
    ensures Of(WritePacket(d, id, env).reqs, id).error == 0 && QueueAfter(d, id, env, q) == q
  {
    WriteExact(d, id, env);
  }

  /** A write is completed once, within the call. */
  lemma WriteCompleted(d: Unit, id: Id, env: Env)
    requires Good(d) && Room(d, id) && !IsRead(Of(d.reqs, id).command)
    ensures Occurs(WritePacket(d, id, env).done, id) == 1 && WritePacket(d, id, env).tx == []
  {
    var d' := WritePacket(d, id, env);
    RoomIsAbsent(d, id);
    WriteShrinks(d, id, env);
    EmptyStays(d.tx, d'.tx);
    CountWrite(d, id, env, id);
    assert Tally(d, id) + One(id, id) <= 1;
    assert InFlight(d', id) == 0 by {
      ReadsHas(d.openers, id);
      ReadsHas(d'.openers, id);
    }
  }

  // ---- Aborts ----

  lemma InOneQueue(d: Unit, id: Id)
    requires Filed(d) && d.tx == []
    requires forall j, k :: 0 <= j < k < |d.openers| ==> d.openers[j].id != d.openers[k].id
    requires InFlight(d, id) > 0 && id !in d.port
    ensures id in ListAt(d, PlaceOf(d, id)) && Of(d.reqs, id).pending && Abortable(Of(d.reqs, id).command)
  {
    if id in Reads(d.openers) {
      ReadsHas(d.openers, id);
      var k :| 0 <= k < |d.openers| && id in d.openers[k].rxQueue;
      assert InRxQueue(Of(d.reqs, id), d.openers[k].id);
      assert OpenerAt(d.openers, d.openers[k].id) == k;
    }
  }

  lemma UnlinkOnly(d: Unit, p: Place, id: Id)
    ensures var d' := UnlinkAt(d, p, id); d'.reqs == d.reqs && d'.done == d.done && d'.port == d.port
  {
  }

  lemma AbortFound(d: Unit, id: Id, x: Id)
    requires AbortFinds(d, id)
    ensures var d' := AbortIO(d, id);
            && d'.done == d.done + [id]
            && Of(d'.reqs, x) == if x == id then Aborted(Of(d.reqs, x)) else Of(d.reqs, x)
  {
    UnlinkOnly(d, PlaceOf(d, id), id);
  }

  lemma AbortFoundCount(d: Unit, id: Id, x: Id)
    requires AbortFinds(d, id)
    ensures InFlight(AbortIO(d, id), x) == InFlight(d, x) - One(id, x)
  {
    var d' := AbortIO(d, id);
    CountAbort(d, id, x);
    OccursConcat(d.done, [id], x);
    AbortFound(d, id, x);
    assert Tally(d', x) == InFlight(d', x) + Occurs(d'.done, x);
  }

  /**
   * AbortIO finds a request exactly if it waits in a list other than the unit's port. Then that request alone is
   * completed, with IOERR_ABORTED, and leaves its list; otherwise nothing at all changes.
   */
  lemma AbortExact(d: Unit, id: Id, x: Id)
    requires Good(d) && Once(d)
    requires forall j, k :: 0 <= j < k < |d.openers| ==> d.openers[j].id != d.openers[k].id
    ensures var d', found := AbortIO(d, id), InFlight(d, id) > 0 && id !in d.port;
            && (AbortResult(d, id) == IOERR_ABORTED <==> found)
            && (!found ==> d' == d)
            && (found ==> d'.done == d.done + [id] && InFlight(d', x) == InFlight(d, x) - One(id, x)
                          && Of(d'.reqs, x) == if x == id then Aborted(Of(d.reqs, x)) else Of(d.reqs, x))
  {
    if InFlight(d, id) > 0 && id !in d.port {
      InOneQueue(d, id);
      AbortFound(d, id, x);
      AbortFoundCount(d, id, x);
    } else {
      NotListed(d, id);
    }
  }

  lemma NotListed(d: Unit, id: Id)
    requires Once(d) && (InFlight(d, id) == 0 || id in d.port)
    ensures id !in ListAt(d, PlaceOf(d, id))
  {
    assert Tally(d, id) <= 1;
    ReadsHas(d.openers, id);
  }

  // ---- Going offline ----

  /**
   * Going offline completes every read, write and event request, but orphan reads go on waiting: nothing of the unit's
   * own lists is left exactly if no orphan read was.
   */
  lemma OfflineLeavesOrphans(d: Unit, id: Id, x: Id)
    requires d.online
    ensures var d' := GoOffline(d, id);
            && InFlight(d', x) == Occurs(d.port, x) + Occurs(d.orphans, x)
            && (d'.tx + Reads(d'.openers) + d'.events + d'.orphans == [] <==> d.orphans == [])
  {
    ReadsEmptied(d.openers);
  }

  /**
   * So does CMD_FLUSH, online or not: nothing of the unit's own lists is left exactly if no orphan read waited, and
   * those that did wait on as they were.
   */
  lemma FlushLeavesOrphans(d: Unit, id: Id, x: Id)
    ensures var d' := FlushCommand(d, id);
            && (d'.tx + Reads(d'.openers) + d'.events + d'.orphans == [] <==> d.orphans == [])
            && d'.orphans == d.orphans
            && (Once(d) && x in d.orphans && x != id ==> Of(d'.reqs, x) == Of(d.reqs, x))
  {
    ReadsEmptied(d.openers);
    if Once(d) && x in d.orphans {
      assert Tally(d, x) <= 1;
      ReadsHas(d.openers, x);
      AbortEachAt(d.reqs, Reads(d.openers) + d.tx + d.events, x);
    }
  }
}
