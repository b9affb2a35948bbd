/** The device unit: its lists and state bits, changed step by step by the driver's functions. */
module Sana2Unit {
  import opened Words
  import opened Frames
  import opened Sana2Requests

  class DeviceUnit {
    var reqs: map<Id, Request>
    var port: seq<Id>
    var tx: seq<Id>
    var orphans: seq<Id>
    var events: seq<Id>
    var openers: seq<Opener>
    var done: seq<Id>
    var sent: seq<Id>
    var online: bool
    var config: bool
    var station: seq<Byte>
    var irq: Irq
    var openCnt: int

    function State(): (d: Unit)
      reads this
    {
      Unit(reqs, port, tx, orphans, events, openers, done, sent, online, config, station, irq, openCnt)
    }

    constructor ()
      ensures State() == Unit(map[], [], [], [], [], [], [], [], false, false, [], Irq(false, 0, 0), 0)
    {
      reqs, port, tx, orphans, events, openers, done, sent := map[], [], [], [], [], [], [], [];
      online, config, station, irq, openCnt := false, false, [], Irq(false, 0, 0), 0;
    }

    method TermIO(id: Id)
      modifies `reqs, `done
      ensures reqs == old(reqs)[id := Terminated(Of(old(reqs), id))] && done == old(done) + [id]
      ensures Of(reqs, id).replied <==> Of(old(reqs), id).replied || !Of(old(reqs), id).quick
      ensures forall x :: x != id ==> Of(reqs, x) == Of(old(reqs), x)
    {
      var r := Of(reqs, id);
      if !r.quick {
        r := r.(pending := false, replied := true);
      }
      reqs := reqs[id := r];
      done := done + [id];
    }

    method SetError(id: Id, error: int, wire: set<int>)
      modifies `reqs
      ensures reqs == old(reqs)[id := Of(old(reqs), id).(error := error, wire := wire)]
    {
      reqs := reqs[id := Of(reqs, id).(error := error, wire := wire)];
    }

    method Refuse(id: Id, error: int, wire: set<int>)
      modifies `reqs, `done
      ensures State() == Fail(old(State()), id, error, wire)
    {
      SetError(id, error, wire);
      TermIO(id);
    }

    method Abort(id: Id)
      modifies `reqs, `done
      ensures reqs == old(reqs)[id := Aborted(Of(old(reqs), id))] && done == old(done) + [id]
    {
      SetError(id, IOERR_ABORTED, Of(reqs, id).wire);
      TermIO(id);
    }

    method Fire(id: Id, event: int)
      modifies `reqs, `done
      ensures reqs == old(reqs)[id := Fired(Of(old(reqs), id), event)] && done == old(done) + [id]
    {
      SetError(id, 0, {event});
      TermIO(id);
    }

    /** Takes the first request off a list and aborts it, until the list is empty. */
    method AbortReqList(list: seq<Id>) returns (left: seq<Id>)
      modifies `reqs, `done
      ensures left == []
      ensures reqs == AbortEach(old(reqs), list) && done == old(done) + list
    {
      left := list;
      ghost var i := 0;
      while left != []
        invariant i <= |list| && left == list[i..]
        invariant reqs == AbortEach(old(reqs), list[..i]) && done == old(done) + list[..i]
        decreases |left|
      {
        var id := left[0];
        AbortStep(old(reqs), list, i);
        left := left[1..];
        Abort(id);
        i := i + 1;
      }
      assert list[..i] == list;
    }

    /** Walks the event list, unlinking and completing the requests that wait for the event. */
    method ScanEvents(event: int)
      modifies `reqs, `done, `events
      ensures events == Rest(old(reqs), old(events), event)
      ensures done == old(done) + Hits(old(reqs), old(events), event)
      ensures reqs == FireEach(old(reqs), Hits(old(reqs), old(events), event), event)
    {
      ghost var before, all := reqs, events;
      ghost var passed, ahead, kept, hits := [], events, [], [];
      var i := 0;
      while i < |events|
        invariant all == passed + ahead && events == kept + ahead && i == |kept|
        invariant kept == Rest(before, passed, event) && hits == Hits(before, passed, event)
        invariant reqs == FireEach(before, hits, event)
        invariant done == old(done) + hits
        decreases |ahead|
      {
        var id := events[i];
        Passing(passed, kept, ahead);
        EventStep(before, passed, id, event);
        passed, ahead := passed + [id], ahead[1..];
        if event in Of(reqs, id).wire {
          events := events[..i] + events[i + 1..];
          Fire(id, event);
          hits := hits + [id];
        } else {
          i := i + 1;
          kept := kept + [id];
        }
      }
      assert passed == all;
    }

    method DoEvent(event: int)
      modifies `reqs, `done, `events
      ensures State() == Sana2Requests.DoEvent(old(State()), event)
    {
      ScanEvents(event);
    }

    // ---- Sending ----

    /** Hands a request's packet to the chip driver, or notes in the request why not. */
    method Transmit(id: Id, env: Env)
      modifies `reqs, `sent
      ensures State() == Noted(old(State()), id, env)
    {
      var r := Of(reqs, id);
      if r.raw {
        if r.dataLength > ETH_HEADER_SIZE {
          if id in env.copyFrom {
            sent := sent + [id];
          } else {
            SetError(id, S2ERR_NO_RESOURCES, BUFF_ERROR);
          }
        } else {
          SetError(id, S2ERR_MTU_EXCEEDED, BUFF_ERROR);
        }
      } else {
        if r.dataLength <= ETHERNET_MTU {
          if id in env.dma || id in env.copyFrom {
            sent := sent + [id];
          } else {
            SetError(id, S2ERR_NO_RESOURCES, BUFF_ERROR);
          }
        } else {
          SetError(id, S2ERR_MTU_EXCEEDED, BUFF_ERROR);
        }
      }
    }

    method Report(id: Id)
      modifies `reqs, `done, `events
      ensures State() == Reported(old(State()), id)
    {
      if Of(reqs, id).wire != {} {
        DoEvent(BUFF);
      }
      TermIO(id);
    }

    method SendNext(env: Env)
      requires tx != []
      modifies `reqs, `done, `events, `sent, `tx
      ensures State() == SendOne(old(State()).(tx := old(tx)[1..]), old(tx)[0], env)
    {
      var id := tx[0];
      tx := tx[1..];
      Transmit(id, env);
      Report(id);
    }

    method SendAllPackets(env: Env)
      modifies `reqs, `done, `events, `sent, `tx
      ensures State() == SendAll(old(State()), env)
    {
      while tx != []
        invariant SendAll(State(), env) == SendAll(old(State()), env)
        decreases |tx|
      {
        SendAllStep(State(), env);
        SendNext(env);
      }
    }

    method DevCmdWritePacket(id: Id, env: Env)
      modifies `reqs, `done, `events, `sent, `tx
      ensures State() == WritePacket(old(State()), id, env)
    {
      if online {
        if Of(reqs, id).dataLength <= ETHERNET_MTU {
          reqs := reqs[id := Of(reqs, id).(quick := false, pending := true)];
          tx := tx + [id];
          SendAllPackets(env);
        } else {
          Refuse(id, S2ERR_MTU_EXCEEDED, GENERIC_ERROR);
          DoEvent(TX);
        }
      } else {
        Refuse(id, S2ERR_OUTOFSERVICE, UNIT_OFFLINE);
      }
    }

    // ---- Queuing ----

    method DevCmdReadPacket(id: Id)
      modifies `reqs, `done, `openers
      ensures State() == ReadPacket(old(State()), id)
    {
      if online {
        var k := 0;
        while k < |openers| && openers[k].id != Of(reqs, id).opener
          invariant k <= |openers| && forall j :: 0 <= j < k ==> openers[j].id != Of(reqs, id).opener
        {
          k := k + 1;
        }
        if k < |openers| {
          reqs := reqs[id := Of(reqs, id).(pending := true)];
          openers := openers[k := openers[k].(rxQueue := openers[k].rxQueue + [id])];
        } else {
          Refuse(id, S2ERR_BAD_ARGUMENT, GENERIC_ERROR);
        }
      } else {
        Refuse(id, S2ERR_OUTOFSERVICE, UNIT_OFFLINE);
      }
    }

    method DevCmdReadOrphan(id: Id)
      modifies `reqs, `done, `orphans
      ensures State() == ReadOrphanPacket(old(State()), id)
      ensures online ==> orphans == old(orphans) + [id] && Of(reqs, id).pending && done == old(done)
      ensures !online ==> orphans == old(orphans) && done == old(done) + [id] && Of(reqs, id).error == S2ERR_OUTOFSERVICE
      ensures forall x :: x != id ==> Of(reqs, x) == Of(old(reqs), x)
    {
      if online {
        reqs := reqs[id := Of(reqs, id).(pending := true)];
        orphans := orphans + [id];
      } else {
        Refuse(id, S2ERR_OUTOFSERVICE, UNIT_OFFLINE);
      }
    }

    method DevCmdOnEvent(id: Id)
      modifies `reqs, `done, `events
      ensures State() == AwaitEvent(old(State()), id)
      ensures var mask := Of(old(reqs), id).wire;
              if (if online then ONLINE else OFFLINE) in mask
              then done == old(done) + [id] && events == old(events) && Of(reqs, id).error == 0
              else done == old(done) && events == old(events) + [id] && reqs == old(reqs)
    {
      var wire := Of(reqs, id).wire;
      if (ONLINE in wire && online) || (OFFLINE in wire && !online) {
        Refuse(id, 0, wire * {ONLINE, OFFLINE});
        return;
      }
      events := events + [id];
    }

    // ---- State changes ----

    /** AllocSignal gives a signal number, or -1 when none is free. */
    method InstallInterruptHandler(signalNumber: int)
      modifies `irq
      ensures irq == Install(old(irq), signalNumber != -1)
      ensures irq.installed <==> old(irq.installed) || signalNumber != -1
      ensures irq.servers - old(irq.servers) == irq.signals - old(irq.signals)
              == if irq.installed && !old(irq.installed) then 1 else 0
      ensures old(irq.installed) ==> irq == old(irq)
    {
      if irq.installed {
        return;
      }
      if signalNumber == -1 {
        return;
      }
      irq := Irq(true, irq.servers + 1, irq.signals + 1);
    }

    method UninstallInterruptHandler()
      modifies `irq
      ensures irq == Uninstall(old(irq))
      ensures !irq.installed
      ensures old(irq.servers) - irq.servers == old(irq.signals) - irq.signals == if old(irq.installed) then 1 else 0
    {
      if irq.installed {
        irq := Irq(false, irq.servers - 1, irq.signals - 1);
      }
    }

    method BringOnline(env: Env)
      modifies `reqs, `done, `events, `irq, `online
      ensures State() == RaiseUnit(old(State()), env)
    {
      if !online {
        InstallInterruptHandler(if env.signal then 0 else -1);
        online := true;
        DoEvent(ONLINE);
      }
    }

    method DevCmdOnline(id: Id, env: Env)
      modifies `reqs, `done, `events, `irq, `online
      ensures State() == GoOnline(old(State()), id, env)
    {
      if !config {
        SetError(id, S2ERR_BAD_STATE, NOT_CONFIGURED);
      } else {
        BringOnline(env);
      }
      TermIO(id);
    }

    method DevCmdConfigInterface(id: Id, env: Env)
      modifies `reqs, `done, `events, `irq, `online, `station, `config
      ensures State() == ConfigureUnit(old(State()), id, env)
      ensures config && done != [] && done[|done| - 1] == id
      ensures if old(config) then station == old(station) && online == old(online) && irq == old(irq)
              else station == Of(old(reqs), id).src && online
    {
      if !config {
        station := Of(reqs, id).src;
        config := true;
        DevCmdOnline(id, env);
      } else {
        Refuse(id, S2ERR_BAD_STATE, IS_CONFIGURED);
      }
    }

    method FlushReads()
      modifies `reqs, `done, `openers
      ensures openers == Emptied(old(openers))
      ensures reqs == AbortEach(old(reqs), Reads(old(openers))) && done == old(done) + Reads(old(openers))
    {
      ghost var was, before, completed := openers, reqs, done;
      var k := 0;
      while k < |openers|
        invariant k <= |openers| == |was| && openers == Emptied(was[..k]) + was[k..]
        invariant reqs == AbortEach(before, Reads(was[..k])) && done == completed + Reads(was[..k])
      {
        FlushStep(before, completed, was, k);
        EmptyStep(was, k);
        var left := AbortReqList(openers[k].rxQueue);
        openers := openers[k := openers[k].(rxQueue := left)];
        k := k + 1;
      }
      assert was[..k] == was && Emptied(was) + was[k..] == Emptied(was);
    }

    method FlushQueues()
      modifies `reqs, `done, `openers, `tx, `events
      ensures openers == Emptied(old(openers)) && tx == [] && events == []
      ensures reqs == AbortEach(old(reqs), Reads(old(openers)) + old(tx) + old(events))
      ensures done == old(done) + (Reads(old(openers)) + old(tx) + old(events))
    {
      ghost var waiting := Reads(openers);
      FlushReads();
      FlushEnd(old(reqs), waiting, tx, events);
      FlushDone(old(done), waiting, tx, events);
      tx := AbortReqList(tx);
      events := AbortReqList(events);
    }

    method FlushAll()
      modifies `reqs, `done, `openers, `tx, `events
      ensures State() == FlushUnit(old(State()))
    {
      FlushQueues();
    }

    method DevCmdFlush(id: Id)
      modifies `reqs, `done, `openers, `tx, `events
      ensures State() == FlushCommand(old(State()), id)
    {
      FlushAll();
      TermIO(id);
    }

    method Lower()
      modifies `reqs, `done, `openers, `tx, `events, `online
      ensures State() == Lowered(old(State()))
    {
      online := false;
      DoEvent(OFFLINE);
      FlushAll();
    }

    method TakeOffline()
      modifies `reqs, `done, `openers, `tx, `events, `online, `irq
      ensures State() == DropUnit(old(State()))
    {
      if online {
        Lower();
        UninstallInterruptHandler();
      }
    }

    method DevCmdOffline(id: Id)
      modifies `reqs, `done, `openers, `tx, `events, `online, `irq
      ensures State() == GoOffline(old(State()), id)
    {
      TakeOffline();
      TermIO(id);
    }

    method ClearLists()
      modifies `port, `tx, `orphans, `events
      ensures port == [] && tx == [] && orphans == [] && events == []
    {
      port := [];
      tx := [];
      orphans := [];
      events := [];
    }

    method Reset(address: seq<Byte>)
      modifies `port, `tx, `orphans, `events, `openers, `online, `config, `station, `openCnt
      ensures State() == FreshUnit(old(State()), address)
    {
      ClearLists();
      openers := [];
      online := false;
      config := false;
      station := address;
      openCnt := 0;
    }

    method Stop() returns (left: seq<Id>)
      modifies `port, `tx, `orphans, `events, `online, `config, `irq
      ensures State() == ShutDown(old(State())) && left == LeftBehind(old(State()))
    {
      online := false;
      config := false;
      UninstallInterruptHandler();
      left := port + tx + orphans + events;
      ClearLists();
    }

    // ---- Dispatch ----

    method DevCmdQuery(id: Id, env: Env)
      modifies `reqs, `done
      ensures State() == AnswerQuery(old(State()), id, env)
    {
      if env.error != 0 {
        SetError(id, env.error, env.wire);
      }
      TermIO(id);
    }

    method Perform(id: Id, env: Env)
      modifies this
      ensures State() == Execute(old(State()), id, env)
    {
      match Of(reqs, id).command
      case Write => DevCmdWritePacket(id, env);
      case Multicast => DevCmdWritePacket(id, env);
      case Broadcast =>
        reqs := reqs[id := Of(reqs, id).(dst := [255, 255, 255, 255, 255, 255])];
        DevCmdWritePacket(id, env);
      case Read => DevCmdReadPacket(id);
      case ReadOrphan => DevCmdReadOrphan(id);
      case Flush => DevCmdFlush(id);
      case OnEvent => DevCmdOnEvent(id);
      case Online => DevCmdOnline(id, env);
      case Offline => DevCmdOffline(id);
      case Configure => DevCmdConfigInterface(id, env);
      case Query => DevCmdQuery(id, env);
      case QueryNow => DevCmdQuery(id, env);
      case Unknown => Refuse(id, S2ERR_NOT_SUPPORTED, GENERIC_ERROR);
      case UnknownNow => Refuse(id, S2ERR_NOT_SUPPORTED, GENERIC_ERROR);
    }

    method PerformIO(id: Id, env: Env)
      modifies this
      ensures State() == Sana2Requests.PerformIO(old(State()), id, env)
    {
      reqs := reqs[id := Of(reqs, id).(error := 0)];
      Perform(id, env);
    }

    method BeginIO(id: Id, env: Env)
      modifies this
      ensures State() == Sana2Requests.BeginIO(old(State()), id, env)
    {
      if AtOnce(Of(reqs, id).command) {
        PerformIO(id, env);
      } else {
        reqs := reqs[id := Of(reqs, id).(pending := true, quick := false)];
        port := port + [id];
      }
    }

    /** The unit process, woken for its message port: takes requests off it until it is empty. */
    method ServicePort(env: Env)
      modifies this
      ensures State() == ServeAll(old(State()), env)
    {
      while port != []
        invariant ServeAll(State(), env) == ServeAll(old(State()), env)
        decreases |port|
      {
        ServeAllStep(State(), env);
        ServeNext(env);
      }
    }

    method ServeNext(env: Env)
      requires port != []
      modifies this
      ensures State() == ServeOne(old(State()), env)
    {
      var id := port[0];
      port := port[1..];
      PerformIO(id, env);
    }

    // ---- Abort ----

    /** Unlinks a request from a list it may be in. */
    method AbortRequestAndRemove(p: Place, id: Id) returns (result: int)
      modifies this
      ensures var d := old(State());
              if id in ListAt(d, p)
              then result == IOERR_ABORTED
                   && State() == AbortOne(UnlinkAt(d, p, id), id)
              else result == S2ERR_BAD_ARGUMENT && State() == d
    {
      result := S2ERR_BAD_ARGUMENT;
      var list := ListAt(State(), p);
      var i := 0;
      while i < |list|
        invariant i <= |list| && id !in list[..i] && State() == old(State())
      {
        if list[i] == id {
          IndexIs(list, id, i);
          SetList(p, list[..i] + list[i + 1..]);
          result := IOERR_ABORTED;
          Abort(id);
          return;
        }
        i := i + 1;
      }
      assert list[..i] == list;
    }

    method SetList(p: Place, ids: seq<Id>)
      modifies `openers, `tx, `events, `orphans
      ensures State() == WithList(old(State()), p, ids)
    {
      match p
      case RxQueue(k) => if k < |openers| { openers := openers[k := Opener(openers[k].id, ids)]; }
      case TxPort => tx := ids;
      case Events => events := ids;
      case Orphans => orphans := ids;
      case Nowhere =>
    }

    method AbortIO(id: Id) returns (result: int)
      modifies this
      ensures State() == Sana2Requests.AbortIO(old(State()), id) && result == AbortResult(old(State()), id)
    {
      var r := Of(reqs, id);
      if !r.pending {
        return 0;
      }
      if !Abortable(r.command) {
        return S2ERR_SOFTWARE;
      }
      result := AbortRequestAndRemove(PlaceOf(State(), id), id);
    }

    // ---- Reception ----

    method Receive(id: Id, frame: Frame, size: U16, env: Env) returns (taken: bool, delivered: bool)
      modifies `reqs, `done, `events
      ensures State() == Offer(old(State()), id, frame, size, env)
      ensures taken == !OutcomeOf(Of(old(reqs), id), id, env).Rejected?
      ensures delivered == OutcomeOf(Of(old(reqs), id), id, env).Delivered?
    {
      var r := Of(reqs, id);
      if r.opener == 0 {
        return false, false;
      }
      var h := Addressed(r, frame, size);
      if id !in env.accepts {
        reqs := reqs[id := h];
        return false, false;
      }
      if id in env.copyTo {
        reqs := reqs[id := h.(data := Fulfil(r.raw, frame, size).data)];
        TermIO(id);
        return true, true;
      }
      reqs := reqs[id := h.(error := S2ERR_NO_RESOURCES, wire := BUFF_ERROR)];
      DoEvent(BUFF);
      TermIO(id);
      return true, false;
    }

    method FulfillReadIORequest(p: Place, id: Id, frame: Frame, size: U16, env: Env) returns (status: bool)
      modifies this
      ensures State() == FulfilRead(old(State()), p, id, frame, size, env)
      ensures status == OutcomeOf(Of(old(reqs), id), id, env).Delivered?
    {
      var taken;
      taken, status := Receive(id, frame, size, env);
      if taken {
        SetList(p, Unlinked(ListAt(State(), p), id));
      }
    }

    method OnPktReceived(frame: Frame, size: U16, env: Env)
      modifies this
      ensures State() == PacketReceived(old(State()), frame, size, env)
    {
      var delivered := false;
      var k := 0;
      while k < |openers|
        invariant k <= |openers|
        invariant OfferToOpeners(State(), k, delivered, frame, size, env)
                  == OfferToOpeners(old(State()), 0, false, frame, size, env)
        decreases |openers| - k
      {
        OfferStep(State(), k, delivered, frame, size, env);
        delivered := OfferTo(k, delivered, frame, size, env);
        k := k + 1;
      }
      if !delivered && orphans != [] {
        var pktTransfered := FulfillReadIORequest(Orphans, orphans[0], frame, size, env);
      }
    }

    /** The inner loop: the first read of the k-th opener that fits the packet is offered it. */
    method OfferTo(k: nat, before: bool, frame: Frame, size: U16, env: Env) returns (delivered: bool)
      requires k < |openers|
      modifies this
      ensures (State(), delivered) == OfferToOne(old(State()), k, before, frame, size, env)
    {
      delivered := before;
      var queue := openers[k].rxQueue;
      var i := 0;
      while i < |queue|
        invariant i <= |queue| && State() == old(State()) && delivered == before
        invariant forall j :: 0 <= j < i ==> !SameType(Of(reqs, queue[j]).packetType, TypeOf(frame))
      {
        if SameType(Of(reqs, queue[i]).packetType, TypeOf(frame)) {
          delivered := FulfillReadIORequest(RxQueue(k), queue[i], frame, size, env);
          break;
        }
        i := i + 1;
      }
    }
  }

  lemma Passing(passed: seq<Id>, kept: seq<Id>, ahead: seq<Id>)
    requires ahead != []
    ensures (kept + ahead)[|kept|] == ahead[0]
    ensures passed + ahead == passed + [ahead[0]] + ahead[1..] && kept + ahead == kept + [ahead[0]] + ahead[1..]
    ensures (kept + ahead)[..|kept|] + (kept + ahead)[|kept| + 1..] == kept + ahead[1..]
  {
  }

  lemma AbortStep(reqs: map<Id, Request>, all: seq<Id>, i: nat)
    requires i < |all|
    ensures var before := AbortEach(reqs, all[..i]);
            AbortEach(reqs, all[..i + 1]) == before[all[i] := Aborted(Of(before, all[i]))]
  {
    assert all[..i + 1][..i] == all[..i];
  }

  lemma FlushStep(reqs: map<Id, Request>, done: seq<Id>, openers: seq<Opener>, k: nat)
    requires k < |openers|
    ensures Reads(openers[..k + 1]) == Reads(openers[..k]) + openers[k].rxQueue
    ensures AbortEach(AbortEach(reqs, Reads(openers[..k])), openers[k].rxQueue) == AbortEach(reqs, Reads(openers[..k + 1]))
    ensures done + Reads(openers[..k + 1]) == done + Reads(openers[..k]) + openers[k].rxQueue
  {
    assert openers[..k + 1][..k] == openers[..k];
    AbortEachConcat(reqs, Reads(openers[..k]), openers[k].rxQueue);
  }

  lemma EmptyStep(openers: seq<Opener>, k: nat)
    requires k < |openers|
    ensures var now := Emptied(openers[..k]) + openers[k..];
            now[k] == openers[k] && now[k := Opener(openers[k].id, [])] == Emptied(openers[..k + 1]) + openers[k + 1..]
  {
  }

  lemma FlushEnd(reqs: map<Id, Request>, a: seq<Id>, b: seq<Id>, c: seq<Id>)
    ensures AbortEach(AbortEach(AbortEach(reqs, a), b), c) == AbortEach(reqs, a + b + c)
  {
    AbortEachConcat(reqs, a, b);
    AbortEachConcat(reqs, a + b, c);
  }

  lemma FlushDone(done: seq<Id>, a: seq<Id>, b: seq<Id>, c: seq<Id>)
    ensures done + a + b + c == done + (a + b + c)
  {
  }

  lemma IndexIs(ids: seq<Id>, x: Id, i: nat)
    requires i < |ids| && ids[i] == x && x !in ids[..i]
    ensures IndexOf(ids, x) == i
  {
    forall j | 0 <= j < i ensures ids[j] != x {
      assert ids[..i][j] == ids[j];
    }
  }

  lemma ServeAllStep(d: Unit, env: Env)
    requires d.port != []
    ensures ServeAll(d, env) == ServeAll(ServeOne(d, env), env)
  {
  }

  lemma OfferStep(d: Unit, k: nat, delivered: bool, frame: Frame, size: U16, env: Env)
    requires k < |d.openers|
    ensures var (d', delivered') := OfferToOne(d, k, delivered, frame, size, env);
            && |d'.openers| == |d.openers|
            && OfferToOpeners(d, k, delivered, frame, size, env) == OfferToOpeners(d', k + 1, delivered', frame, size, env)
  {
  }

  lemma SendAllStep(d: Unit, env: Env)
    requires d.tx != []
    ensures SendAll(d, env) == SendAll(SendOne(d.(tx := d.tx[1..]), d.tx[0], env), env)
  {
  }

  lemma EventStep(reqs: map<Id, Request>, passed: seq<Id>, id: Id, event: int)
    ensures var hits, rest, waits := Hits(reqs, passed, event), Rest(reqs, passed, event), WaitsFor(reqs, id, event);
            && Hits(reqs, passed + [id], event) == (if waits then hits + [id] else hits)
            && Rest(reqs, passed + [id], event) == (if waits then rest else rest + [id])
            && (WaitsFor(FireEach(reqs, hits, event), id, event) <==> waits)
            && FireEach(reqs, hits + [id], event)
               == FireEach(reqs, hits, event)[id := Fired(Of(FireEach(reqs, hits, event), id), event)]
  {
    var hits := Hits(reqs, passed, event);
    SplitStep(reqs, passed, id, event);
    assert (hits + [id])[..|hits|] == hits;
    FireEachAt(reqs, hits, event, id);
    HitsAndRest(reqs, passed, event, id);
  }
}
