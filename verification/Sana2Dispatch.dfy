/** Who gets a received packet: one read per opener at most, the earliest that fits, and orphan reads when nobody did. */
module Sana2Dispatch {
  import opened Words
  import opened Frames
  import opened Sana2Requests
  import opened Sana2Accounts
  import opened Sana2Invariants

  // ---- The rule, on the state before the packet ----

  function Chosen(d: Unit, k: nat, frame: Frame): (i: nat)
    requires k < |d.openers|
    ensures i <= |d.openers[k].rxQueue|
  {
    FirstMatch(d.reqs, d.openers[k].rxQueue, TypeOf(frame))
  }

  predicate Matches(d: Unit, k: nat, frame: Frame)
    requires k < |d.openers|
  {
    Chosen(d, k, frame) < |d.openers[k].rxQueue|
  }

  /** What the opener's client makes of the packet. */
  function Verdict(d: Unit, k: nat, frame: Frame, env: Env): (o: Outcome)
    requires k < |d.openers|
  {
    if !Matches(d, k, frame) then Rejected
    else var id := d.openers[k].rxQueue[Chosen(d, k, frame)]; OutcomeOf(Of(d.reqs, id), id, env)
  }

  /** The opener's queue afterwards: the same, or without the one read that took the packet. */
  function QueueAfter(d: Unit, k: nat, frame: Frame, env: Env): (ids: seq<Id>)
    requires k < |d.openers|
  {
    if Verdict(d, k, frame, env).Rejected? then d.openers[k].rxQueue
    else Without(d.openers[k].rxQueue, Chosen(d, k, frame))
  }

  /** The flag that decides about orphans: the verdict of the last opener that has a fitting read. */
  function LastVerdict(d: Unit, k: nat, delivered: bool, frame: Frame, env: Env): (b: bool)
    requires k <= |d.openers|
    decreases |d.openers| - k
  {
    if k == |d.openers| then delivered
    else LastVerdict(d, k + 1, if Matches(d, k, frame) then Verdict(d, k, frame, env).Delivered? else delivered, frame, env)
  }

  // ---- Openers do not disturb each other ----

  /** The k-th opener's queue and the records of its requests are the same in both states. */
  ghost predicate SameQueue(d: Unit, d': Unit, k: nat) {
    && k < |d.openers| && k < |d'.openers| && d'.openers[k] == d.openers[k]
    && forall x :: x in d.openers[k].rxQueue ==> Of(d'.reqs, x) == Of(d.reqs, x)
  }

  ghost predicate OrphansSame(d: Unit, d': Unit) {
    d'.orphans == d.orphans && forall x :: x in d.orphans ==> Of(d'.reqs, x) == Of(d.reqs, x)
  }

  lemma SettledTouches(d: Unit, id: Id, o: Outcome, h: Request, data: seq<Byte>, x: Id)
    requires x != id && x !in d.events
    ensures Of(Settled(d, id, o, h, data).reqs, x) == Of(d.reqs, x)
  {
    if o.Failed? {
      var failed := d.(reqs := d.reqs[id := h.(error := S2ERR_NO_RESOURCES, wire := BUFF_ERROR)]);
      HitsAndRest(failed.reqs, failed.events, BUFF, x);
      FireEachAt(failed.reqs, Hits(failed.reqs, failed.events, BUFF), BUFF, x);
    }
  }

  /** A request in one read queue is in no other, and waits for no event. */
  lemma InOneReadQueue(d: Unit, j: nat, k: nat, x: Id)
    requires Once(d) && j < |d.openers| && k < |d.openers| && x in d.openers[j].rxQueue
    ensures x !in d.events && x !in d.orphans && (x in d.openers[k].rxQueue ==> j == k)
  {
    assert Tally(d, x) <= 1;
    ReadsHas(d.openers, x);
    if j != k && x in d.openers[k].rxQueue {
      TwoQueues(d.openers, j, k, x);
    }
  }

  lemma TwoQueues(openers: seq<Opener>, j: nat, k: nat, x: Id)
    requires j < |openers| && k < |openers| && j != k && x in openers[j].rxQueue && x in openers[k].rxQueue
    ensures Occurs(Reads(openers), x) >= 2
  {
    var emptied := openers[j := Opener(openers[j].id, [])];
    ReadsUpdate(openers, j, Opener(openers[j].id, []), x);
    assert x in emptied[k].rxQueue;
    ReadsHas(emptied, x);
  }

  lemma TwoPositions(ids: seq<Id>, i: nat, j: nat)
    requires i < |ids| && j < |ids| && ids[i] == ids[j]
    ensures i == j || Occurs(ids, ids[i]) >= 2
  {
    if i != j {
      WithoutOne(ids, j);
      assert Without(ids, j)[if i < j then i else i - 1] == ids[i];
    }
  }

  lemma UnlinkFirst(ids: seq<Id>, i: nat)
    requires i < |ids| && Occurs(ids, ids[i]) <= 1
    ensures Unlinked(ids, ids[i]) == Without(ids, i)
  {
    TwoPositions(ids, i, IndexOf(ids, ids[i]));
  }

  lemma QueueOnce(d: Unit, k: nat, x: Id)
    requires Once(d) && k < |d.openers|
    ensures Occurs(d.openers[k].rxQueue, x) <= 1
  {
    assert Tally(d, x) <= 1;
    ReadsUpdate(d.openers, k, Opener(d.openers[k].id, []), x);
  }

  /** One opener's turn changes its own queue as the rule says and leaves the other queues alone. */
  lemma OneTurn(d: Unit, k: nat, delivered: bool, frame: Frame, size: U16, env: Env)
    requires Once(d) && k < |d.openers|
    ensures var d' := OfferToOne(d, k, delivered, frame, size, env).0;
            && |d'.openers| == |d.openers|
            && d'.openers == d.openers[k := Opener(d.openers[k].id, QueueAfter(d, k, frame, env))]
            && OrphansSame(d, d')
            && forall j :: 0 <= j < |d.openers| && j != k ==> SameQueue(d, d', j)
  {
    var d' := OfferToOne(d, k, delivered, frame, size, env).0;
    var queue, i := d.openers[k].rxQueue, Chosen(d, k, frame);
    if i < |queue| {
      var r := Of(d.reqs, queue[i]);
      forall x | x != queue[i] && x !in d.events ensures Of(d'.reqs, x) == Of(d.reqs, x) {
        SettledTouches(d, queue[i], OutcomeOf(r, queue[i], env), Addressed(r, frame, size),
                       Fulfil(r.raw, frame, size).data, x);
      }
      QueueOnce(d, k, queue[i]);
      UnlinkFirst(queue, i);
      TurnApart(d, d', k, queue[i]);
    }
  }

  lemma TurnApart(d: Unit, d': Unit, k: nat, id: Id)
    requires Once(d) && k < |d.openers| && id in d.openers[k].rxQueue
    requires |d'.openers| == |d.openers| && forall j :: 0 <= j < |d.openers| && j != k ==> d'.openers[j] == d.openers[j]
    requires forall x :: x != id && x !in d.events ==> Of(d'.reqs, x) == Of(d.reqs, x)
    ensures forall j :: 0 <= j < |d.openers| && j != k ==> SameQueue(d, d', j)
    ensures forall x :: x in d.orphans ==> Of(d'.reqs, x) == Of(d.reqs, x)
  {
    forall j, x | 0 <= j < |d.openers| && j != k && x in d.openers[j].rxQueue ensures Of(d'.reqs, x) == Of(d.reqs, x) {
      InOneReadQueue(d, j, k, x);
    }
    forall x | x in d.orphans ensures Of(d'.reqs, x) == Of(d.reqs, x) {
      InOneReadQueue(d, k, k, id);
      assert Tally(d, x) <= 1;
    }
  }

  // ---- The whole round ----

  lemma SameRule(d: Unit, d': Unit, k: nat, frame: Frame, env: Env)
    requires SameQueue(d, d', k)
    ensures Chosen(d', k, frame) == Chosen(d, k, frame) && Verdict(d', k, frame, env) == Verdict(d, k, frame, env)
    ensures QueueAfter(d', k, frame, env) == QueueAfter(d, k, frame, env)
  {
    SameChoice(d.reqs, d'.reqs, d.openers[k].rxQueue, TypeOf(frame));
  }

  lemma {:induction false} SameChoice(reqs: map<Id, Request>, reqs': map<Id, Request>, ids: seq<Id>, packetType: nat)
    requires forall x :: x in ids ==> Of(reqs', x) == Of(reqs, x)
    ensures FirstMatch(reqs', ids, packetType) == FirstMatch(reqs, ids, packetType)
    decreases |ids|
  {
    if ids != [] {
      SameChoice(reqs, reqs', ids[1..], packetType);
    }
  }

  lemma {:induction false} SameVerdicts(d: Unit, d': Unit, k: nat, delivered: bool, frame: Frame, env: Env)
    requires k <= |d.openers| == |d'.openers| && forall j :: k <= j < |d.openers| ==> SameQueue(d, d', j)
    ensures LastVerdict(d', k, delivered, frame, env) == LastVerdict(d, k, delivered, frame, env)
    decreases |d.openers| - k
  {
    if k < |d.openers| {
      SameRule(d, d', k, frame, env);
      SameVerdicts(d, d', k + 1, if Matches(d, k, frame) then Verdict(d, k, frame, env).Delivered? else delivered, frame, env);
    }
  }

  /** The queues from the k-th on are as the rule says; the ones before are as they were. */
  ghost predicate QueuesFrom(d: Unit, d': Unit, k: nat, frame: Frame, env: Env) {
    && |d'.openers| == |d.openers|
    && (forall j :: 0 <= j < k && j < |d.openers| ==> d'.openers[j] == d.openers[j])
    && forall j :: k <= j < |d.openers| ==> d'.openers[j] == Opener(d.openers[j].id, QueueAfter(d, j, frame, env))
  }

  lemma QueuesStep(d: Unit, d1: Unit, d': Unit, k: nat, frame: Frame, env: Env)
    requires k < |d.openers|
    requires d1.openers == d.openers[k := Opener(d.openers[k].id, QueueAfter(d, k, frame, env))]
    requires forall j :: 0 <= j < |d.openers| && j != k ==> SameQueue(d, d1, j)
    requires QueuesFrom(d1, d', k + 1, frame, env)
    ensures QueuesFrom(d, d', k, frame, env)
  {
    forall j | k < j < |d.openers| ensures QueueAfter(d1, j, frame, env) == QueueAfter(d, j, frame, env) {
      SameRule(d, d1, j, frame, env);
    }
  }

  /** The loop from the k-th opener on does to each queue what the rule says of the state it started in. */
  lemma {:induction false} RoundExact(d: Unit, k: nat, delivered: bool, frame: Frame, size: U16, env: Env)
    requires Once(d) && k <= |d.openers|
    ensures var (d', flag) := OfferToOpeners(d, k, delivered, frame, size, env);
            QueuesFrom(d, d', k, frame, env) && OrphansSame(d, d') && flag == LastVerdict(d, k, delivered, frame, env)
    decreases |d.openers| - k
  {
    if k < |d.openers| {
      var (d1, delivered1) := OfferToOne(d, k, delivered, frame, size, env);
      OneTurn(d, k, delivered, frame, size, env);
      forall x ensures Tally(d1, x) <= 1 {
        CountOfferToOne(d, k, delivered, frame, size, env, x);
        assert Tally(d, x) <= 1;
      }
      RoundExact(d1, k + 1, delivered1, frame, size, env);
      SameVerdicts(d, d1, k + 1, delivered1, frame, env);
      QueuesStep(d, d1, OfferToOpeners(d1, k + 1, delivered1, frame, size, env).0, k, frame, env);
    }
  }

  /** The orphan read first in line, and what its client makes of the packet. */
  function OrphanVerdict(d: Unit, env: Env): (o: Outcome) {
    if d.orphans == [] then Rejected else OutcomeOf(Of(d.reqs, d.orphans[0]), d.orphans[0], env)
  }

  lemma OrphanTurn(d: Unit, delivered: bool, frame: Frame, size: U16, env: Env)
    requires d.orphans != [] ==> Occurs(d.orphans, d.orphans[0]) <= 1
    ensures var d' := OfferToOrphan(d, delivered, frame, size, env);
            && d'.openers == d.openers
            && d'.orphans == if delivered || OrphanVerdict(d, env).Rejected? then d.orphans else d.orphans[1..]
  {
    if d.orphans != [] {
      UnlinkFirst(d.orphans, 0);
      assert Without(d.orphans, 0) == d.orphans[1..];
    }
  }

  /** The record of a request that was offered the packet: the packet's addresses, type and length. */
  predicate WasOffered(r: Request, frame: Frame, size: U16) {
    var p := Fulfil(r.raw, frame, size);
    r.dst == p.dst && r.src == p.src && r.packetType == p.packetType && r.dataLength == |p.data|
  }

  lemma AddressedOffered(r: Request, h: Request, data: seq<Byte>, frame: Frame, size: U16)
    requires h == Addressed(r, frame, size)
    ensures WasOffered(h, frame, size) && WasOffered(Terminated(h.(data := data)), frame, size)
    ensures WasOffered(Terminated(h.(error := S2ERR_NO_RESOURCES, wire := BUFF_ERROR)), frame, size)
  {
    hide Fulfil;
  }

  lemma SettledRecord(d: Unit, id: Id, o: Outcome, frame: Frame, size: U16)
    requires id !in d.events
    ensures var r := Of(d.reqs, id);
            WasOffered(Of(Settled(d, id, o, Addressed(r, frame, size), Fulfil(r.raw, frame, size).data).reqs, id), frame, size)
  {
    var r := Of(d.reqs, id);
    var h, data := Addressed(r, frame, size), Fulfil(r.raw, frame, size).data;
    AddressedOffered(r, h, data, frame, size);
    hide Fulfil, Addressed, WasOffered;
    if o.Failed? {
      var failed := d.(reqs := d.reqs[id := h.(error := S2ERR_NO_RESOURCES, wire := BUFF_ERROR)]);
      HitsAndRest(failed.reqs, failed.events, BUFF, id);
      FireEachAt(failed.reqs, Hits(failed.reqs, failed.events, BUFF), BUFF, id);
    }
  }

  lemma OrphanRecord(d: Unit, delivered: bool, frame: Frame, size: U16, env: Env)
    requires d.orphans != [] && d.orphans[0] !in d.events && Of(d.reqs, d.orphans[0]).opener != 0
    ensures var id, d' := d.orphans[0], OfferToOrphan(d, delivered, frame, size, env);
            if delivered then Of(d'.reqs, id) == Of(d.reqs, id) else WasOffered(Of(d'.reqs, id), frame, size)
  {
    var id := d.orphans[0];
    SettledRecord(d, id, OutcomeOf(Of(d.reqs, id), id, env), frame, size);
  }

  /**
   * The orphan read first in line is offered the packet exactly when the flag is clear, whatever its client makes of it:
   * then its record tells of the packet, else it is as before. It leaves the list exactly if it was offered the packet
   * and its client's filter accepted it.
   */
  lemma HeadOfferedExactly(d: Unit, frame: Frame, size: U16, env: Env)
    requires Once(d) && d.orphans != [] && Of(d.reqs, d.orphans[0]).opener != 0
    ensures var id, d', flag := d.orphans[0], PacketReceived(d, frame, size, env), LastVerdict(d, 0, false, frame, env);
            && (if flag then Of(d'.reqs, id) == Of(d.reqs, id) else WasOffered(Of(d'.reqs, id), frame, size))
            && d'.orphans == if flag || id !in env.accepts then d.orphans else d.orphans[1..]
  {
    var (offered, flag) := OfferToOpeners(d, 0, false, frame, size, env);
    RoundExact(d, 0, false, frame, size, env);
    ShrinksOpeners(d, 0, false, frame, size, env);
    assert Tally(d, d.orphans[0]) <= 1;
    assert Of(offered.reqs, d.orphans[0]) == Of(d.reqs, d.orphans[0]);
    OrphanTurn(offered, flag, frame, size, env);
    OrphanRecord(offered, flag, frame, size, env);
  }

  /**
   * A packet takes at most one read from each opener, the earliest whose type fits and whose client accepts the packet,
   * and leaves every other queued read in place and in order. The first orphan read is offered the packet exactly when
   * the last opener that had a fitting read did not get the packet delivered.
   */
  lemma DispatchExact(d: Unit, frame: Frame, size: U16, env: Env)
    requires Once(d)
    ensures var d' := PacketReceived(d, frame, size, env);
            && QueuesFrom(d, d', 0, frame, env)
            && d'.orphans == if LastVerdict(d, 0, false, frame, env) || OrphanVerdict(d, env).Rejected? then d.orphans
                             else d.orphans[1..]
  {
    var (offered, flag) := OfferToOpeners(d, 0, false, frame, size, env);
    RoundExact(d, 0, false, frame, size, env);
    if d.orphans != [] {
      assert Tally(d, d.orphans[0]) <= 1;
      assert Of(offered.reqs, d.orphans[0]) == Of(d.reqs, d.orphans[0]);
    }
    OrphanTurn(offered, flag, frame, size, env);
  }

  // ---- What a rejection leaves ----

  /** A read whose client's filter rejected a packet goes on fitting exactly the packets it fitted before. */
  lemma RejectionKeepsType(r: Request, frame: Frame, size: U16, other: nat)
    requires SameType(r.packetType, TypeOf(frame))
    ensures SameType(Addressed(r, frame, size).packetType, other) <==> SameType(r.packetType, other)
  {
  }

  // ---- The delivered flag ----

  predicate Delivers(d: Unit, k: nat, frame: Frame, env: Env)
    requires k < |d.openers|
  {
    Matches(d, k, frame) && Verdict(d, k, frame, env).Delivered?
  }

  predicate NoMatchAfter(d: Unit, k: nat, frame: Frame) {
    forall j :: k <= j < |d.openers| ==> !Matches(d, j, frame)
  }

  /** The k-th opener is the last one with a fitting read. */
  predicate IsLast(d: Unit, k: nat, frame: Frame) {
    k < |d.openers| && Matches(d, k, frame) && NoMatchAfter(d, k + 1, frame)
  }

  /** The flag is set exactly if the last opener with a fitting read got the packet. */
  lemma {:induction false} FlagExact(d: Unit, k: nat, delivered: bool, frame: Frame, env: Env)
    requires k <= |d.openers|
    ensures LastVerdict(d, k, delivered, frame, env) <==>
            || (delivered && NoMatchAfter(d, k, frame))
            || exists i :: k <= i < |d.openers| && IsLast(d, i, frame) && Delivers(d, i, frame, env)
    decreases |d.openers| - k
  {
    if k < |d.openers| {
      FlagExact(d, k + 1, if Matches(d, k, frame) then Verdict(d, k, frame, env).Delivered? else delivered, frame, env);
      assert NoMatchAfter(d, k, frame) <==> !Matches(d, k, frame) && NoMatchAfter(d, k + 1, frame);
      assert IsLast(d, k, frame) <==> Matches(d, k, frame) && NoMatchAfter(d, k + 1, frame);
    }
  }

  /** The packet goes to the orphan read first in line, whose client is ready to take one. */
  predicate OrphanServed(d: Unit, frame: Frame, size: U16, env: Env) {
    PacketReceived(d, frame, size, env).orphans != d.orphans
  }

  lemma OrphanByFlag(d: Unit, frame: Frame, size: U16, env: Env)
    requires Once(d) && !OrphanVerdict(d, env).Rejected?
    ensures OrphanServed(d, frame, size, env) <==> !LastVerdict(d, 0, false, frame, env)
  {
    DispatchExact(d, frame, size, env);
  }

  /** With one opener an orphan read takes exactly the packets that opener did not get. */
  lemma OneOpener(d: Unit, frame: Frame, size: U16, env: Env)
    requires Once(d) && !OrphanVerdict(d, env).Rejected? && |d.openers| == 1
    ensures OrphanServed(d, frame, size, env) <==> !Delivers(d, 0, frame, env)
  {
    OrphanByFlag(d, frame, size, env);
    assert LastVerdict(d, 1, true, frame, env) && !LastVerdict(d, 1, false, frame, env);
  }

  /** With one opener the orphan read first in line is offered exactly the packets that opener did not get. */
  lemma OneOpenerOffers(d: Unit, frame: Frame, size: U16, env: Env)
    requires Once(d) && d.orphans != [] && Of(d.reqs, d.orphans[0]).opener != 0 && |d.openers| == 1
    ensures var id, d' := d.orphans[0], PacketReceived(d, frame, size, env);
            if Delivers(d, 0, frame, env) then d'.orphans == d.orphans && Of(d'.reqs, id) == Of(d.reqs, id)
            else WasOffered(Of(d'.reqs, id), frame, size)
  {
    HeadOfferedExactly(d, frame, size, env);
    assert LastVerdict(d, 1, true, frame, env) && !LastVerdict(d, 1, false, frame, env);
  }

  lemma {:induction false} LastFrom(d: Unit, i: nat, frame: Frame) returns (j: nat)
    requires i < |d.openers| && Matches(d, i, frame)
    ensures i <= j && IsLast(d, j, frame)
    decreases |d.openers| - i
  {
    if NoMatchAfter(d, i + 1, frame) {
      j := i;
    } else {
      var l :| i + 1 <= l < |d.openers| && Matches(d, l, frame);
      j := LastFrom(d, l, frame);
    }
  }

  /**
   * With several openers an orphan read takes a packet that somebody got exactly if one opener got it and the last one
   * with a fitting read did not.
   */
  lemma OrphanToo(d: Unit, frame: Frame, size: U16, env: Env)
    requires Once(d) && !OrphanVerdict(d, env).Rejected?
    ensures (OrphanServed(d, frame, size, env) && exists i :: 0 <= i < |d.openers| && Delivers(d, i, frame, env)) <==>
            exists i, j :: 0 <= i < j < |d.openers| && Delivers(d, i, frame, env) && IsLast(d, j, frame)
                           && !Delivers(d, j, frame, env)
  {
    OrphanByFlag(d, frame, size, env);
    hide OrphanServed;
    FlagExact(d, 0, false, frame, env);
    if i :| 0 <= i < |d.openers| && Delivers(d, i, frame, env) {
      var j := LastFrom(d, i, frame);
      forall l | 0 <= l < |d.openers| && IsLast(d, l, frame) ensures l == j {
        OneLast(d, j, l, frame);
      }
    }
  }

  lemma OneLast(d: Unit, j: nat, l: nat, frame: Frame)
    requires IsLast(d, j, frame) && IsLast(d, l, frame)
    ensures l == j
  {
  }
}
