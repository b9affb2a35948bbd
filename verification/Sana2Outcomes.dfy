/** What the client of a request is told, in the numbers of the SANA-II standard. */
module Sana2Outcomes {
  import opened Words
  import opened Frames
  import opened Sana2Requests
  import opened Sana2Accounts
  import opened Sana2Invariants
  import opened Sana2Effects
  import opened Sana2Device
  import opened Sana2Runs

  /** The request was completed by this very call, last: its error and wire error code, and a reply unless it is quick. */
  predicate Told(d: Unit, d': Unit, id: Id, error: int, wire: set<int>) {
    var r, r' := Of(d.reqs, id), Of(d'.reqs, id);
    && d'.done != [] && d'.done[|d'.done| - 1] == id
    && r'.error == error && r'.wire == wire
    && r'.replied == (r.replied || !r'.quick) && (r'.pending ==> r'.quick)
  }

  /** Queued and nothing else: the request is marked pending, nobody is told anything. */
  predicate JustPending(d: Unit, d': Unit, id: Id) {
    d'.done == d.done && d'.reqs == d.reqs[id := Of(d.reqs, id).(pending := true)]
  }

  // ---- Events and aborts ----

  /** A waiter of the event is told this event, of all it waited for, and no error. */
  lemma WaiterTold(d: Unit, event: int, x: Id)
    requires x in d.events && event in Of(d.reqs, x).wire
    ensures var r, r' := Of(d.reqs, x), Of(DoEvent(d, event).reqs, x);
            && r'.error == 0 && r'.wire == {event} && x in DoEvent(d, event).done && x !in DoEvent(d, event).events
            && r'.replied == (r.replied || !r.quick) && (r'.pending ==> r.quick)
  {
    HitsAndRest(d.reqs, d.events, event, x);
    FireEachAt(d.reqs, Hits(d.reqs, d.events, event), event, x);
  }

  /** An aborted request is told error -2, and keeps all that its client put in it. */
  lemma AbortTold(d: Unit, id: Id)
    requires AbortResult(d, id) == -2
    ensures var r, r', d' := Of(d.reqs, id), Of(AbortIO(d, id).reqs, id), AbortIO(d, id);
            && d'.done == d.done + [id]
            && r' == r.(error := -2, pending := r'.pending, replied := r'.replied)
            && r'.replied == (r.replied || !r.quick) && (r'.pending ==> r.quick)
  {
    AbortFound(d, id, id);
  }

  /** A flush tells the same to every read, write and event request that waits: reads first, then writes, then events. */
  lemma FlushTold(d: Unit, x: Id)
    ensures var d' := FlushUnit(d);
            && d'.done == d.done + (Reads(d.openers) + d.tx + d.events)
            && (x in Reads(d.openers) || x in d.tx || x in d.events ==> Of(d'.reqs, x).error == -2)
            && (!(x in Reads(d.openers) || x in d.tx || x in d.events) ==> Of(d'.reqs, x) == Of(d.reqs, x))
  {
    AbortEachAt(d.reqs, Reads(d.openers) + d.tx + d.events, x);
  }

  /** What AbortIO answers for a request it leaves alone: nothing to do, not to be aborted at all, or not found. */
  lemma AbortAnswers(d: Unit, id: Id)
    requires AbortResult(d, id) != -2
    ensures var r := Of(d.reqs, id);
            && AbortIO(d, id) == d
            && AbortResult(d, id) ==
               if !r.pending then 0
               else if r.command in {Read, ReadOrphan, Write, Broadcast, OnEvent} then 3 else 9
  {
  }

  // ---- Reads and orphan reads ----

  /** The k-th opener is the one the request names, and none before it is. */
  ghost predicate OpenerIs(d: Unit, k: nat, opener: nat) {
    k < |d.openers| && d.openers[k].id == opener && forall j :: 0 <= j < k ==> d.openers[j].id != opener
  }

  /** An online unit queues a read with the opener it names, behind what waits there, and completes nothing. */
  lemma ReadQueued(d: Unit, id: Id, env: Env, k: nat)
    requires Of(d.reqs, id).command == Read && Of(d.reqs, id).error == 0 && d.online && OpenerIs(d, k, Of(d.reqs, id).opener)
    ensures var d' := BeginIO(d, id, env);
            && JustPending(d, d', id) && |d'.openers| == |d.openers|
            && d'.openers[k].rxQueue == d.openers[k].rxQueue + [id]
            && forall j :: 0 <= j < |d.openers| && j != k ==> d'.openers[j] == d.openers[j]
  {
    var cleared := Cleared(d, id);
    assert BeginIO(d, id, env) == ReadPacket(cleared, id);
    assert cleared.reqs == d.reqs[id := Of(d.reqs, id)] && OpenerIs(cleared, k, Of(cleared.reqs, id).opener);
    hide BeginIO, ReadPacket;
    LastInQueue(cleared, id, k);
  }

  lemma LastInQueue(d: Unit, id: Id, k: nat)
    requires d.online && OpenerIs(d, k, Of(d.reqs, id).opener)
    ensures var d' := ReadPacket(d, id);
            && JustPending(d, d', id) && |d'.openers| == |d.openers|
            && d'.openers[k].rxQueue == d.openers[k].rxQueue + [id]
            && forall j :: 0 <= j < |d.openers| && j != k ==> d'.openers[j] == d.openers[j]
  {
    assert OpenerAt(d.openers, Of(d.reqs, id).opener) == k;
  }

  /** A read is refused with error 10, wire error 3 by an offline unit, and with error 3 when its opener is not there. */
  lemma ReadRefused(d: Unit, id: Id, env: Env)
    requires Of(d.reqs, id).command == Read
    requires !d.online || forall j :: 0 <= j < |d.openers| ==> d.openers[j].id != Of(d.reqs, id).opener
    ensures var d' := BeginIO(d, id, env);
            d'.openers == d.openers && if d.online then Told(d, d', id, 3, {}) else Told(d, d', id, 10, {0, 1})
  {
    var cleared := Cleared(d, id);
    assert d.online ==> OpenerAt(cleared.openers, Of(cleared.reqs, id).opener) == |d.openers|;
    assert BeginIO(d, id, env) == ReadPacket(cleared, id);
    hide BeginIO, OpenerAt;
  }

  lemma OrphanReadTold(d: Unit, id: Id, env: Env)
    requires Of(d.reqs, id).command == ReadOrphan && Of(d.reqs, id).error == 0
    ensures var d' := BeginIO(d, id, env);
            if d.online then JustPending(d, d', id) && id in d'.orphans
            else Told(d, d', id, 10, {0, 1}) && d'.orphans == d.orphans
  {
  }

  // ---- Commands for the unit process ----

  /** Control commands are handed to the unit process: last in its port, pending and no longer quick. */
  lemma ControlQueued(d: Unit, id: Id, env: Env)
    requires Of(d.reqs, id).command in {Flush, OnEvent, Online, Offline, Configure, Query, Unknown}
    ensures var d' := BeginIO(d, id, env);
            && d'.port != [] && d'.port[|d'.port| - 1] == id && d'.port[..|d'.port| - 1] == d.port && d'.done == d.done
            && d'.reqs == d.reqs[id := Of(d.reqs, id).(pending := true, quick := false)]
  {
  }

  /** Refused commands, with error and wire error: unconfigured, configured twice, unknown. */
  lemma RefusalsTold(d: Unit, id: Id, env: Env)
    requires Of(d.reqs, id).command in {Online, Configure, Unknown, UnknownNow}
    ensures var c, d' := Of(d.reqs, id).command, PerformIO(d, id, env);
            && (c == Online && !d.config ==> Told(d, d', id, 4, {0}) && d'.online == d.online)
            && (c == Configure && d.config ==>
                  Told(d, d', id, 4, {0, 1, 2, 3}) && d'.station == d.station && d'.online == d.online)
            && (c == Unknown || c == UnknownNow ==> Told(d, d', id, 8, {}))
  {
  }

  /**
   * A request for events is completed at once if it waits for the state the unit is in, and told of all the states its
   * mask has; otherwise it joins the waiters, last, and nobody is told anything.
   */
  lemma OnEventTold(d: Unit, id: Id, env: Env)
    requires Of(d.reqs, id).command == OnEvent
    ensures var r, d' := Of(d.reqs, id), PerformIO(d, id, env);
            if (3 in r.wire && d.online) || (4 in r.wire && !d.online)
            then Told(d, d', id, 0, r.wire * {3, 4}) && d'.events == d.events
            else d'.events == d.events + [id] && d'.done == d.done && d'.reqs == d.reqs[id := r.(error := 0)]
  {
  }

  /** A query ends with what looking up the answer came to; its wire error is set only on failure. */
  lemma QueryTold(d: Unit, id: Id, env: Env)
    requires Of(d.reqs, id).command in {Query, QueryNow}
    ensures var r, d' := Of(d.reqs, id), PerformIO(d, id, env);
            Told(d, d', id, env.error, if env.error == 0 then r.wire else env.wire)
  {
  }

  /** Accepted ones end without error, the unit online, offline, or with the client's address. */
  lemma ChangesTold(d: Unit, id: Id, env: Env)
    requires Of(d.reqs, id).command in {Online, Offline, Configure} && id !in d.events && id !in d.tx && id !in Reads(d.openers)
    ensures var c, r, d' := Of(d.reqs, id).command, Of(d.reqs, id), PerformIO(d, id, env);
            && (c == Online && d.config ==> Told(d, d', id, 0, r.wire) && d'.online)
            && (c == Offline ==> Told(d, d', id, 0, r.wire) && !d'.online)
            && (c == Configure && !d.config ==> Told(d, d', id, 0, r.wire) && d'.online && d'.station == r.src)
  {
    var c, cleared := Of(d.reqs, id).command, Cleared(d, id);
    var set_ := cleared.(station := Of(cleared.reqs, id).src, config := true);
    if c == Online {
      RaiseSpares(cleared, id, env);
    } else if c == Configure {
      RaiseSpares(set_, id, env);
    } else {
      DropSpares(cleared, id);
    }
  }

  lemma RaiseSpares(d: Unit, id: Id, env: Env)
    requires id !in d.events
    ensures Of(RaiseUnit(d, env).reqs, id) == Of(d.reqs, id) && RaiseUnit(d, env).station == d.station && RaiseUnit(d, env).online
  {
    var up := d.(irq := Install(d.irq, env.signal), online := true);
    HitsAndRest(up.reqs, up.events, ONLINE, id);
    FireEachAt(up.reqs, Hits(up.reqs, up.events, ONLINE), ONLINE, id);
  }

  lemma DropSpares(d: Unit, id: Id)
    requires id !in d.events && id !in d.tx && id !in Reads(d.openers)
    ensures Of(DropUnit(d).reqs, id) == Of(d.reqs, id) && !DropUnit(d).online
  {
    var down := d.(online := false);
    HitsAndRest(down.reqs, down.events, OFFLINE, id);
    FireEachAt(down.reqs, Hits(down.reqs, down.events, OFFLINE), OFFLINE, id);
    var told := DoEvent(down, OFFLINE);
    FlushTold(told, id);
  }

  // ---- Writes ----

  /** The event list after an event: those that wait for it are gone. */
  ghost predicate WithoutWaiters(d: Unit, d': Unit, event: int) {
    forall x :: x in d'.events <==> x in d.events && event !in Of(d.reqs, x).wire
  }

  lemma EventEmptied(d: Unit, event: int)
    ensures WithoutWaiters(d, DoEvent(d, event), event)
  {
    forall x ensures x in Rest(d.reqs, d.events, event) <==> x in d.events && event !in Of(d.reqs, x).wire {
      HitsAndRest(d.reqs, d.events, event, x);
    }
  }

  lemma EventSpares(d: Unit, event: int, id: Id)
    requires id !in d.events
    ensures Of(DoEvent(d, event).reqs, id) == Of(d.reqs, id)
  {
    HitsAndRest(d.reqs, d.events, event, id);
    FireEachAt(d.reqs, Hits(d.reqs, d.events, event), event, id);
  }

  /** What sendAllPackets leaves of one request: completed, replied to, and, if it has a wire error, those told who wait. */
  lemma ReportTold(d: Unit, id: Id)
    requires id !in d.events && !Of(d.reqs, id).quick
    ensures var d', r := Reported(d, id), Of(d.reqs, id);
            && d'.done != [] && d'.done[|d'.done| - 1] == id && d'.sent == d.sent
            && Of(d'.reqs, id) == r.(pending := false, replied := true) && d'.tx == d.tx
            && (if r.wire != {} then WithoutWaiters(d, d', 5) else d'.events == d.events)
  {
    EventSpares(d, BUFF, id);
    EventEmptied(d, BUFF);
    hide DoEvent;
  }

  lemma SendAlone(d: Unit, id: Id, env: Env)
    requires d.tx == [id]
    ensures SendAll(d, env) == Reported(Noted(d.(tx := []), id, env), id)
  {
    assert d.tx[1..] == [];
    assert SendAll(d, env) == SendAll(SendOne(d.(tx := []), id, env), env);
  }

  /**
   * An online unit's write of legal length is completed by the call itself, never quick, with a reply; its destination is
   * as before. If its request holds a wire error, its client's own or a buffer error, those who wait for event 5 are told.
   */
  lemma WriteTold(d: Unit, id: Id, env: Env)
    requires d.tx == [] && id !in d.events && d.online && Of(d.reqs, id).dataLength <= 1500 && Of(d.reqs, id).error == 0
    ensures var d', r, r' := WritePacket(d, id, env), Of(d.reqs, id), Of(WritePacket(d, id, env).reqs, id);
            && d'.done != [] && d'.done[|d'.done| - 1] == id && d'.tx == []
            && !r'.pending && r'.replied && r'.dst == r.dst && r'.wire == (if r'.error == 0 then r.wire else {1, 2})
            && (if r'.wire != {} then WithoutWaiters(d, d', 5) else d'.events == d.events)
  {
    var queued := Queued(d, id);
    var noted := Noted(queued.(tx := []), id, env);
    assert WritePacket(d, id, env) == SendAll(queued, env);
    NotedTold(d, id, env);
    hide *;
    SendAlone(queued, id, env);
    ReportTold(noted, id);
    SameWaiters(d, noted, Reported(noted, id), id);
    Replied(Of(noted.reqs, id), Of(Reported(noted, id).reqs, id));
  }

  lemma Replied(r: Request, r': Request)
    requires r' == r.(pending := false, replied := true)
    ensures !r'.pending && r'.replied && r'.dst == r.dst && r'.wire == r.wire && r'.error == r.error
  {
  }

  function Queued(d: Unit, id: Id): (d': Unit)
    requires d.tx == []
    ensures d'.tx == [id]
  {
    d.(reqs := d.reqs[id := Of(d.reqs, id).(quick := false, pending := true)], tx := d.tx + [id])
  }

  lemma NotedTold(d: Unit, id: Id, env: Env)
    requires d.tx == [] && Of(d.reqs, id).error == 0
    ensures var r, noted := Of(d.reqs, id), Noted(Queued(d, id).(tx := []), id, env);
            var r' := Of(noted.reqs, id);
            && !r'.quick && r'.dst == r.dst && r'.wire == (if r'.error == 0 then r.wire else {1, 2})
            && noted.events == d.events && noted.tx == []
            && forall x :: x != id ==> Of(noted.reqs, x) == Of(d.reqs, x)
  {
    var queued := Queued(d, id).(tx := []);
    assert Of(queued.reqs, id) == Of(d.reqs, id).(quick := false, pending := true);
    assert forall x :: x != id ==> Of(queued.reqs, x) == Of(d.reqs, x);
    hide Queued;
    VerdictTold(queued, id, env);
  }

  lemma VerdictTold(d: Unit, id: Id, env: Env)
    requires Of(d.reqs, id).error == 0
    ensures var r, noted := Of(d.reqs, id), Noted(d, id, env);
            var r' := Of(noted.reqs, id);
            && r'.quick == r.quick && r'.dst == r.dst && r'.wire == (if r'.error == 0 then r.wire else {1, 2})
            && noted.events == d.events && noted.tx == d.tx
            && forall x :: x != id ==> Of(noted.reqs, x) == Of(d.reqs, x)
  {
    var r := Of(d.reqs, id);
    RefusalsAreErrors(r, id, env);
    hide Judge;
    if Judge(r, id, env).Refused? {
      assert Of(Noted(d, id, env).reqs, id) == r.(error := Judge(r, id, env).error, wire := {1, 2});
    }
  }

  lemma RefusalsAreErrors(r: Request, id: Id, env: Env)
    ensures Judge(r, id, env).Refused? ==> Judge(r, id, env).error != 0
  {
  }

  lemma SameWaiters(d: Unit, noted: Unit, d': Unit, id: Id)
    requires noted.events == d.events && id !in d.events && forall x :: x != id ==> Of(noted.reqs, x) == Of(d.reqs, x)
    ensures WithoutWaiters(noted, d', 5) ==> WithoutWaiters(d, d', 5)
  {
  }

  /** Offline a write is refused with error 10 and wire error 3, and nobody else hears of it. */
  lemma OfflineWriteTold(d: Unit, id: Id, env: Env)
    requires !d.online
    ensures var d' := WritePacket(d, id, env);
            Told(d, d', id, 10, {0, 1}) && d'.events == d.events && d'.tx == d.tx && Of(d'.reqs, id).dst == Of(d.reqs, id).dst
  {
  }

  /** A write that is too long is refused with error 6, and those who wait for event 1 are told. */
  lemma LongWriteTold(d: Unit, id: Id, env: Env)
    requires id !in d.events && d.online && Of(d.reqs, id).dataLength > 1500
    ensures var d', r, r' := WritePacket(d, id, env), Of(d.reqs, id), Of(WritePacket(d, id, env).reqs, id);
            && id in d'.done && r'.error == 6 && r'.wire == {} && r'.dst == r.dst && d'.tx == d.tx
            && r'.replied == (r.replied || !r.quick) && WithoutWaiters(d, d', 1)
  {
    var failed := Fail(d, id, S2ERR_MTU_EXCEEDED, GENERIC_ERROR);
    EventSpares(failed, TX, id);
    EventEmptied(failed, TX);
    assert forall x :: x in d.events ==> Of(failed.reqs, x) == Of(d.reqs, x);
    assert id in failed.done;
  }

  /** A broadcast goes out to the address of all ones, whatever its client had put there; other writes to their own. */
  lemma BroadcastToAll(d: Unit, id: Id, env: Env)
    requires d.tx == [] && id !in d.events && Of(d.reqs, id).command in {Write, Broadcast, Multicast}
    ensures var r, d' := Of(d.reqs, id), BeginIO(d, id, env);
            && id in d'.done && d'.port == d.port
            && Of(d'.reqs, id).dst == if r.command == Broadcast then [255, 255, 255, 255, 255, 255] else r.dst
  {
    var cleared := Cleared(d, id);
    var given := if Of(d.reqs, id).command == Broadcast then ToAll(cleared, id) else cleared;
    assert BeginIO(d, id, env) == WritePacket(given, id, env);
    hide WritePacket, BeginIO;
    if !d.online {
      OfflineWriteTold(given, id, env);
    } else if Of(d.reqs, id).dataLength > 1500 {
      LongWriteTold(given, id, env);
    } else {
      WriteTold(given, id, env);
    }
    PortKept(given, id, env);
  }

  lemma PortKept(d: Unit, id: Id, env: Env)
    ensures WritePacket(d, id, env).port == d.port
  {
  }

  // ---- A new unit ----

  /** The open that builds a unit leaves it offline, unconfigured, with the chip's own address and one opener. */
  lemma FreshUnitIs(s: Device, handle: nat, unitNumber: nat, mine: bool, prom: bool, o: Setting)
    requires !s.present && OpenDevice(s, handle, unitNumber, mine, prom, o).1
    ensures var d := OpenDevice(s, handle, unitNumber, mine, prom, o).0.unit;
            && !d.online && !d.config && d.station == o.address && d.openers == [Opener(handle, [])] && d.openCnt == 1
            && d.port == [] && d.tx == [] && d.orphans == [] && d.events == []
            && d.reqs == s.unit.reqs && d.done == s.unit.done
  {
    OpenOutcome(s, handle, unitNumber, mine, prom, o);
  }
}
