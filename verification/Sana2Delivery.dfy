/** Which read of an opener a packet goes to, in terms of the packet's bytes and the reads' type fields alone. */
module Sana2Delivery {
  import opened Words
  import opened Frames
  import opened Sana2Requests
  import opened Sana2Accounts
  import opened Sana2Invariants
  import opened Sana2Dispatch

  /** The type field of the packet, most significant byte first. */
  function TypeField(frame: Frame): (t: nat) {
    var high: int := frame[12];
    256 * high + frame[13]
  }

  /** The read asks for the packet's type, or both are lengths of the 802.3 format, which the driver treats as one type. */
  predicate Fits(r: Request, frame: Frame) {
    r.packetType == TypeField(frame) || (r.packetType <= 1500 && TypeField(frame) <= 1500)
  }

  lemma FitsIsSameType(r: Request, frame: Frame)
    ensures SameType(r.packetType, TypeOf(frame)) <==> Fits(r, frame)
  {
  }

  /** The i-th read of the queue fits, and none before it does. */
  ghost predicate FirstFitting(d: Unit, k: nat, i: nat, frame: Frame) {
    && k < |d.openers| && i < |d.openers[k].rxQueue| && Fits(Of(d.reqs, d.openers[k].rxQueue[i]), frame)
    && forall j :: 0 <= j < i ==> !Fits(Of(d.reqs, d.openers[k].rxQueue[j]), frame)
  }

  ghost predicate NoneFits(d: Unit, k: nat, frame: Frame) {
    k < |d.openers| && forall j :: 0 <= j < |d.openers[k].rxQueue| ==> !Fits(Of(d.reqs, d.openers[k].rxQueue[j]), frame)
  }

  lemma ChosenIsFirst(d: Unit, k: nat, frame: Frame)
    requires k < |d.openers|
    ensures if Matches(d, k, frame) then FirstFitting(d, k, Chosen(d, k, frame), frame) else NoneFits(d, k, frame)
  {
    var queue := d.openers[k].rxQueue;
    forall j | 0 <= j < |queue| ensures SameType(Of(d.reqs, queue[j]).packetType, TypeOf(frame)) <==> Fits(Of(d.reqs, queue[j]), frame) {
      FitsIsSameType(Of(d.reqs, queue[j]), frame);
    }
  }

  lemma OneFirst(d: Unit, k: nat, i: nat, j: nat, frame: Frame)
    requires FirstFitting(d, k, i, frame) && FirstFitting(d, k, j, frame)
    ensures i == j
  {
  }

  // ---- The records ----

  /** The read is not the one its opener is offered the packet for. */
  ghost predicate NotOffered(d: Unit, k: nat, x: Id, frame: Frame) {
    && k < |d.openers| && x in d.openers[k].rxQueue
    && forall i: nat :: FirstFitting(d, k, i, frame) ==> d.openers[k].rxQueue[i] != x
  }

  lemma OwnTurnKeeps(d: Unit, k: nat, delivered: bool, frame: Frame, size: U16, env: Env, x: Id)
    requires Once(d) && NotOffered(d, k, x, frame)
    ensures Of(OfferToOne(d, k, delivered, frame, size, env).0.reqs, x) == Of(d.reqs, x)
  {
    ChosenIsFirst(d, k, frame);
    InOneReadQueue(d, k, k, x);
    if Matches(d, k, frame) {
      var id := d.openers[k].rxQueue[Chosen(d, k, frame)];
      var r := Of(d.reqs, id);
      SettledTouches(d, id, OutcomeOf(r, id, env), Addressed(r, frame, size), Fulfil(r.raw, frame, size).data, x);
    }
  }

  lemma SameFirst(d: Unit, d': Unit, k: nat, i: nat, frame: Frame)
    requires SameQueue(d, d', k)
    ensures FirstFitting(d', k, i, frame) <==> FirstFitting(d, k, i, frame)
  {
  }

  lemma StillNotOffered(d: Unit, d': Unit, k: nat, x: Id, frame: Frame)
    requires SameQueue(d, d', k) && NotOffered(d, k, x, frame)
    ensures NotOffered(d', k, x, frame)
  {
    forall i: nat | FirstFitting(d', k, i, frame) ensures d'.openers[k].rxQueue[i] != x {
      SameFirst(d, d', k, i, frame);
    }
  }

  lemma OnceAfter(d: Unit, j: nat, delivered: bool, frame: Frame, size: U16, env: Env)
    requires Once(d) && j < |d.openers|
    ensures Once(OfferToOne(d, j, delivered, frame, size, env).0)
  {
    forall y ensures Tally(OfferToOne(d, j, delivered, frame, size, env).0, y) <= 1 {
      CountOfferToOne(d, j, delivered, frame, size, env, y);
      assert Tally(d, y) <= 1;
    }
  }

  /** Once its own opener had its turn, the others leave a queued read alone. */
  lemma {:induction false} LaterTurnsKeep(d: Unit, j: nat, delivered: bool, frame: Frame, size: U16, env: Env, k: nat, x: Id)
    requires Once(d) && k < j <= |d.openers| && x in d.openers[k].rxQueue
    ensures Of(OfferToOpeners(d, j, delivered, frame, size, env).0.reqs, x) == Of(d.reqs, x)
    decreases |d.openers| - j
  {
    if j < |d.openers| {
      var (d1, delivered1) := OfferToOne(d, j, delivered, frame, size, env);
      OneTurn(d, j, delivered, frame, size, env);
      OnceAfter(d, j, delivered, frame, size, env);
      assert SameQueue(d, d1, k);
      hide OfferToOne, Once;
      LaterTurnsKeep(d1, j + 1, delivered1, frame, size, env, k, x);
    }
  }

  lemma StaysQueued(d: Unit, k: nat, x: Id, frame: Frame, env: Env)
    requires NotOffered(d, k, x, frame)
    ensures x in QueueAfter(d, k, frame, env)
  {
    ChosenIsFirst(d, k, frame);
    var queue, i := d.openers[k].rxQueue, Chosen(d, k, frame);
    if Matches(d, k, frame) {
      var j :| 0 <= j < |queue| && queue[j] == x;
      assert Without(queue, i)[if j < i then j else j - 1] == x;
    }
  }

  /** The round from the j-th opener on leaves the record of x alone, if x is no read on offer. */
  lemma {:induction false} RoundKeepsRecord(d: Unit, j: nat, delivered: bool, frame: Frame, size: U16, env: Env, k: nat, x: Id)
    requires Once(d) && j <= k && NotOffered(d, k, x, frame)
    ensures Of(OfferToOpeners(d, j, delivered, frame, size, env).0.reqs, x) == Of(d.reqs, x)
    decreases |d.openers| - j
  {
    var (d1, delivered1) := OfferToOne(d, j, delivered, frame, size, env);
    OneTurn(d, j, delivered, frame, size, env);
    OnceAfter(d, j, delivered, frame, size, env);
    if j < k {
      assert SameQueue(d, d1, k);
      StillNotOffered(d, d1, k, x, frame);
      hide OfferToOne, Once, NotOffered;
      RoundKeepsRecord(d1, j + 1, delivered1, frame, size, env, k, x);
    } else {
      OwnTurnKeeps(d, k, delivered, frame, size, env, x);
      StaysQueued(d, k, x, frame, env);
      hide OfferToOne, Once, NotOffered;
      LaterTurnsKeep(d1, j + 1, delivered1, frame, size, env, k, x);
    }
  }

  lemma OrphanTurnKeeps(d: Unit, delivered: bool, frame: Frame, size: U16, env: Env, x: Id)
    requires x !in d.orphans && x !in d.events
    ensures Of(OfferToOrphan(d, delivered, frame, size, env).reqs, x) == Of(d.reqs, x)
  {
    if !delivered && d.orphans != [] {
      var id := d.orphans[0];
      var r := Of(d.reqs, id);
      SettledTouches(d, id, OutcomeOf(r, id, env), Addressed(r, frame, size), Fulfil(r.raw, frame, size).data, x);
    }
  }

  /** A packet leaves the record of every queued read alone except, for each opener, that of its first fitting read. */
  lemma OthersUntouched(d: Unit, frame: Frame, size: U16, env: Env, k: nat, x: Id)
    requires Once(d) && NotOffered(d, k, x, frame)
    ensures Of(PacketReceived(d, frame, size, env).reqs, x) == Of(d.reqs, x)
  {
    var (offered, flag) := OfferToOpeners(d, 0, false, frame, size, env);
    RoundKeepsRecord(d, 0, false, frame, size, env, k, x);
    InOneReadQueue(d, k, k, x);
    ShrinksOpeners(d, 0, false, frame, size, env);
    hide OfferToOpeners, OfferToOrphan, Once;
    OrphanTurnKeeps(offered, flag, frame, size, env, x);
  }

  // ---- Who gets the packet ----

  lemma OthersRemain(queue: seq<Id>, c: nat, i: nat)
    requires c < |queue| && i < |queue|
    ensures i == c || queue[i] in Without(queue, c)
  {
    if i != c {
      assert Without(queue, c)[if i < c then i else i - 1] == queue[i];
    }
  }

  lemma QueueUnless(d: Unit, k: nat, frame: Frame, size: U16, env: Env)
    requires Once(d) && k < |d.openers|
    ensures var d' := PacketReceived(d, frame, size, env);
            |d'.openers| == |d.openers| && d'.openers[k] == Opener(d.openers[k].id, QueueAfter(d, k, frame, env))
  {
    DispatchExact(d, frame, size, env);
  }

  /** An opener none of whose reads fits keeps its queue, and each of its reads its record. */
  lemma NobodyFits(d: Unit, k: nat, frame: Frame, size: U16, env: Env, x: Id)
    requires Once(d) && NoneFits(d, k, frame)
    ensures var d' := PacketReceived(d, frame, size, env);
            |d'.openers| == |d.openers| && d'.openers[k] == d.openers[k]
            && (x in d.openers[k].rxQueue ==> Of(d'.reqs, x) == Of(d.reqs, x))
  {
    ChosenIsFirst(d, k, frame);
    QueueUnless(d, k, frame, size, env);
    if x in d.openers[k].rxQueue {
      OthersUntouched(d, frame, size, env, k, x);
    }
  }

  /**
   * The first read of the queue that fits leaves it exactly if its client's filter accepts the packet; all others keep
   * their place and order.
   */
  lemma FirstFittingGoes(d: Unit, k: nat, i: nat, frame: Frame, size: U16, env: Env)
    requires Once(d) && FirstFitting(d, k, i, frame)
    ensures var d', queue := PacketReceived(d, frame, size, env), d.openers[k].rxQueue;
            && |d'.openers| == |d.openers|
            && d'.openers[k].rxQueue == if Of(d.reqs, queue[i]).opener != 0 && queue[i] in env.accepts
                                        then queue[..i] + queue[i + 1..] else queue
  {
    ChosenIsFirst(d, k, frame);
    QueueUnless(d, k, frame, size, env);
    if Matches(d, k, frame) {
      OneFirst(d, k, i, Chosen(d, k, frame), frame);
    }
  }

  /** A read that leaves its opener's queue asked for the packet's type, and none ahead of it did. */
  lemma OnlyFittingLeave(d: Unit, k: nat, i: nat, frame: Frame, size: U16, env: Env)
    requires Once(d) && k < |d.openers| && i < |d.openers[k].rxQueue|
    requires |PacketReceived(d, frame, size, env).openers| == |d.openers|
    requires d.openers[k].rxQueue[i] !in PacketReceived(d, frame, size, env).openers[k].rxQueue
    ensures FirstFitting(d, k, i, frame) && d.openers[k].rxQueue[i] in env.accepts
  {
    var queue, x := d.openers[k].rxQueue, d.openers[k].rxQueue[i];
    ChosenIsFirst(d, k, frame);
    QueueUnless(d, k, frame, size, env);
    var c := Chosen(d, k, frame);
    if c < |queue| {
      OthersRemain(queue, c, i);
    }
  }

  // ---- What it gets ----

  /** A completed request is not touched again in the round. */
  lemma {:induction false} CompletedStays(d: Unit, j: nat, delivered: bool, frame: Frame, size: U16, env: Env, x: Id)
    requires Once(d) && j <= |d.openers| && x in d.done
    ensures var d' := OfferToOpeners(d, j, delivered, frame, size, env).0; Of(d'.reqs, x) == Of(d.reqs, x) && x in d'.done
    decreases |d.openers| - j
  {
    if j < |d.openers| {
      var (d1, delivered1) := OfferToOne(d, j, delivered, frame, size, env);
      CompletedInTurn(d, j, delivered, frame, size, env, x);
      OnceAfter(d, j, delivered, frame, size, env);
      hide OfferToOne, Once;
      CompletedStays(d1, j + 1, delivered1, frame, size, env, x);
    }
  }

  lemma CompletedInTurn(d: Unit, j: nat, delivered: bool, frame: Frame, size: U16, env: Env, x: Id)
    requires Once(d) && j < |d.openers| && x in d.done
    ensures var d' := OfferToOne(d, j, delivered, frame, size, env).0; Of(d'.reqs, x) == Of(d.reqs, x) && x in d'.done
  {
    DoneIsAbsent(d, x);
    if Matches(d, j, frame) {
      var id := d.openers[j].rxQueue[Chosen(d, j, frame)];
      var r := Of(d.reqs, id);
      SettledTouches(d, id, OutcomeOf(r, id, env), Addressed(r, frame, size), Fulfil(r.raw, frame, size).data, x);
      ShrinksFulfil(d, RxQueue(j), id, frame, size, env);
    }
  }

  /** What the client of a completed read finds in it. */
  predicate Holds(r: Request, r': Request, frame: Frame, size: U16, copied: bool) {
    var group, everyone := frame[0] % 2 == 1, frame[..6] == [255, 255, 255, 255, 255, 255];
    && r'.dst == frame[..6] && r'.src == frame[6..12] && r'.packetType == TypeField(frame)
    && r'.dataLength == DeliveredLength(r.raw, size)
    && (r'.broadcast <==> r.broadcast || everyone)
    && (r'.multicast <==> r.multicast || (group && !everyone))
    && (if copied then r'.error == r.error && r'.data == (if r.raw then frame[..r'.dataLength] else frame[14..14 + r'.dataLength])
        else r'.error == 1)
  }

  lemma AddressedHolds(r: Request, frame: Frame, size: U16)
    ensures var h, data := Addressed(r, frame, size), Fulfil(r.raw, frame, size).data;
            && Holds(r, Terminated(h.(data := data)), frame, size, true)
            && Holds(r, Terminated(h.(error := S2ERR_NO_RESOURCES, wire := BUFF_ERROR)), frame, size, false)
  {
    assert frame[..6][0] == frame[0];
    assert frame[0..DeliveredLength(true, size)] == frame[..DeliveredLength(true, size)];
  }

  lemma SettledHolds(d: Unit, id: Id, frame: Frame, size: U16, env: Env)
    requires id !in d.events && OutcomeOf(Of(d.reqs, id), id, env) != Rejected
    ensures var r := Of(d.reqs, id);
            var d' := Settled(d, id, OutcomeOf(r, id, env), Addressed(r, frame, size), Fulfil(r.raw, frame, size).data);
            Holds(r, Of(d'.reqs, id), frame, size, id in env.copyTo) && id in d'.done
  {
    var r := Of(d.reqs, id);
    var h := Addressed(r, frame, size);
    AddressedHolds(r, frame, size);
    hide Holds, Addressed, Fulfil;
    if OutcomeOf(r, id, env).Failed? {
      var failed := d.(reqs := d.reqs[id := h.(error := S2ERR_NO_RESOURCES, wire := BUFF_ERROR)]);
      HitsAndRest(failed.reqs, failed.events, BUFF, id);
      FireEachAt(failed.reqs, Hits(failed.reqs, failed.events, BUFF), BUFF, id);
    }
  }

  lemma TurnHolds(d: Unit, k: nat, delivered: bool, frame: Frame, size: U16, env: Env)
    requires Once(d) && k < |d.openers| && Matches(d, k, frame) && !Sana2Dispatch.Verdict(d, k, frame, env).Rejected?
    ensures var x, d' := d.openers[k].rxQueue[Chosen(d, k, frame)], OfferToOne(d, k, delivered, frame, size, env).0;
            Holds(Of(d.reqs, x), Of(d'.reqs, x), frame, size, x in env.copyTo) && x in d'.done
  {
    var x := d.openers[k].rxQueue[Chosen(d, k, frame)];
    InOneReadQueue(d, k, k, x);
    hide Holds, Addressed, Fulfil;
    SettledHolds(d, x, frame, size, env);
  }

  /** The read that has the fields of the packet and is completed. */
  predicate Delivery(d: Unit, d': Unit, x: Id, frame: Frame, size: U16, env: Env) {
    Holds(Of(d.reqs, x), Of(d'.reqs, x), frame, size, x in env.copyTo) && x in d'.done
  }

  lemma OwnTurnDelivers(d: Unit, k: nat, delivered: bool, frame: Frame, size: U16, env: Env, i: nat)
    requires Once(d) && FirstFitting(d, k, i, frame)
    requires Of(d.reqs, d.openers[k].rxQueue[i]).opener != 0 && d.openers[k].rxQueue[i] in env.accepts
    ensures Delivery(d, OfferToOpeners(d, k, delivered, frame, size, env).0, d.openers[k].rxQueue[i], frame, size, env)
  {
    var x := d.openers[k].rxQueue[i];
    var (d1, delivered1) := OfferToOne(d, k, delivered, frame, size, env);
    OnceAfter(d, k, delivered, frame, size, env);
    ChosenIsFirst(d, k, frame);
    if Matches(d, k, frame) {
      OneFirst(d, k, i, Chosen(d, k, frame), frame);
      TurnHolds(d, k, delivered, frame, size, env);
    }
    hide OfferToOne, Once, FirstFitting, Holds;
    CompletedStays(d1, k + 1, delivered1, frame, size, env, x);
  }

  /** The openers before the k-th leave its chosen read as it was, so it gets what it would have got alone. */
  lemma {:induction false} RoundHolds(d: Unit, j: nat, delivered: bool, frame: Frame, size: U16, env: Env, k: nat, i: nat)
    requires Once(d) && j <= k && FirstFitting(d, k, i, frame)
    requires Of(d.reqs, d.openers[k].rxQueue[i]).opener != 0 && d.openers[k].rxQueue[i] in env.accepts
    ensures Delivery(d, OfferToOpeners(d, j, delivered, frame, size, env).0, d.openers[k].rxQueue[i], frame, size, env)
    decreases |d.openers| - j
  {
    if j < k {
      var (d1, delivered1) := OfferToOne(d, j, delivered, frame, size, env);
      var x := d.openers[k].rxQueue[i];
      TurnBefore(d, j, delivered, frame, size, env, k, i);
      hide OfferToOne, OfferToOpeners, Once, FirstFitting, Delivery;
      RoundHolds(d1, j + 1, delivered1, frame, size, env, k, i);
      DeliveryBefore(d, d1, OfferToOpeners(d1, j + 1, delivered1, frame, size, env).0, x, frame, size, env);
    } else {
      OwnTurnDelivers(d, k, delivered, frame, size, env, i);
    }
  }

  lemma DeliveryBefore(d: Unit, d1: Unit, d': Unit, x: Id, frame: Frame, size: U16, env: Env)
    requires Of(d1.reqs, x) == Of(d.reqs, x) && Delivery(d1, d', x, frame, size, env)
    ensures Delivery(d, d', x, frame, size, env)
  {
  }

  lemma TurnBefore(d: Unit, j: nat, delivered: bool, frame: Frame, size: U16, env: Env, k: nat, i: nat)
    requires Once(d) && j < k && FirstFitting(d, k, i, frame)
    ensures var (d1, delivered1) := OfferToOne(d, j, delivered, frame, size, env);
            var x := d.openers[k].rxQueue[i];
            && Once(d1) && FirstFitting(d1, k, i, frame) && |d1.openers| == |d.openers|
            && d1.openers[k].rxQueue[i] == x && Of(d1.reqs, x) == Of(d.reqs, x)
            && OfferToOpeners(d, j, delivered, frame, size, env) == OfferToOpeners(d1, j + 1, delivered1, frame, size, env)
  {
    var d1 := OfferToOne(d, j, delivered, frame, size, env).0;
    OneTurn(d, j, delivered, frame, size, env);
    OnceAfter(d, j, delivered, frame, size, env);
    assert SameQueue(d, d1, k);
    SameFirst(d, d1, k, i, frame);
    assert d.openers[k].rxQueue[i] in d.openers[k].rxQueue;
  }

  /** The first fitting read of each opener, if accepted, is completed with the packet's own fields and data. */
  lemma FirstFittingHolds(d: Unit, k: nat, i: nat, frame: Frame, size: U16, env: Env)
    requires Once(d) && FirstFitting(d, k, i, frame)
    requires Of(d.reqs, d.openers[k].rxQueue[i]).opener != 0 && d.openers[k].rxQueue[i] in env.accepts
    ensures var x, d' := d.openers[k].rxQueue[i], PacketReceived(d, frame, size, env);
            Holds(Of(d.reqs, x), Of(d'.reqs, x), frame, size, x in env.copyTo) && x in d'.done
  {
    var x := d.openers[k].rxQueue[i];
    var (offered, flag) := OfferToOpeners(d, 0, false, frame, size, env);
    RoundHolds(d, 0, false, frame, size, env, k, i);
    assert Once(offered) by {
      forall y ensures Tally(offered, y) <= 1 {
        CountOpeners(d, 0, false, frame, size, env, y);
        assert Tally(d, y) <= 1;
      }
    }
    DoneIsAbsent(offered, x);
    if !flag && offered.orphans != [] {
      ShrinksFulfil(offered, Orphans, offered.orphans[0], frame, size, env);
    }
    hide OfferToOpeners, Once, FirstFitting, Holds, OfferToOrphan;
    OrphanTurnKeeps(offered, flag, frame, size, env, x);
  }

  lemma NotTwice(d: Unit, k: nat, i: nat, j: nat)
    requires Once(d) && k < |d.openers| && i < j < |d.openers[k].rxQueue|
    ensures d.openers[k].rxQueue[i] != d.openers[k].rxQueue[j]
  {
    QueueOnce(d, k, d.openers[k].rxQueue[i]);
    if d.openers[k].rxQueue[i] == d.openers[k].rxQueue[j] {
      TwoPositions(d.openers[k].rxQueue, i, j);
    }
  }

  /** When the first fitting read is accepted it leaves its opener's queue completed, and no other read is touched. */
  lemma OnlyThatOneGoes(d: Unit, k: nat, i: nat, frame: Frame, size: U16, env: Env)
    requires Once(d) && FirstFitting(d, k, i, frame)
    requires Of(d.reqs, d.openers[k].rxQueue[i]).opener != 0 && d.openers[k].rxQueue[i] in env.accepts
    ensures var x, d' := d.openers[k].rxQueue[i], PacketReceived(d, frame, size, env);
            && Delivery(d, d', x, frame, size, env) && |d'.openers| == |d.openers| && x !in d'.openers[k].rxQueue
            && forall y :: y in d.openers[k].rxQueue && y != x ==> y in d'.openers[k].rxQueue && Of(d'.reqs, y) == Of(d.reqs, y)
  {
    var x, d' := d.openers[k].rxQueue[i], PacketReceived(d, frame, size, env);
    FirstFittingHolds(d, k, i, frame, size, env);
    FirstFittingGoes(d, k, i, frame, size, env);
    forall y | y in d.openers[k].rxQueue && y != x
      ensures y in d'.openers[k].rxQueue && Of(d'.reqs, y) == Of(d.reqs, y)
    {
      var j :| 0 <= j < |d.openers[k].rxQueue| && d.openers[k].rxQueue[j] == y;
      OthersRemain(d.openers[k].rxQueue, i, j);
      forall l: nat | FirstFitting(d, k, l, frame) ensures d.openers[k].rxQueue[l] != y {
        OneFirst(d, k, i, l, frame);
      }
      OthersUntouched(d, frame, size, env, k, y);
    }
    LeavesForGood(d, k, i);
  }

  lemma LeavesForGood(d: Unit, k: nat, i: nat)
    requires Once(d) && k < |d.openers| && i < |d.openers[k].rxQueue|
    ensures d.openers[k].rxQueue[i] !in Without(d.openers[k].rxQueue, i)
  {
    var queue := d.openers[k].rxQueue;
    if j :| 0 <= j < |Without(queue, i)| && Without(queue, i)[j] == queue[i] {
      if j < i {
        NotTwice(d, k, j, i);
      } else {
        NotTwice(d, k, i, j + 1);
      }
    }
  }
}
