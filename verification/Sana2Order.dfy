/** First come, first served: every list a request waits in is in the order in which the requests arrived. */
module Sana2Order {
  import opened Words
  import opened Frames
  import opened Sana2Requests
  import opened Sana2Accounts
  import opened Sana2Invariants
  import opened Sana2Device
  import opened Sana2Runs
  import opened Sana2Theorems
  import opened Sana2Delivery
  import D = Sana2Dispatch

  /** x stands somewhere before y. */
  ghost predicate Before(ids: seq<Id>, x: Id, y: Id) {
    exists i, j :: 0 <= i < j < |ids| && ids[i] == x && ids[j] == y
  }

  /** What is in the first list is in the second, in the same order. */
  ghost predicate Sub(a: seq<Id>, b: seq<Id>) {
    (forall x :: x in a ==> x in b) && forall x, y :: Before(a, x, y) ==> Before(b, x, y)
  }

  lemma SubTrans(a: seq<Id>, b: seq<Id>, c: seq<Id>)
    requires Sub(a, b) && Sub(b, c)
    ensures Sub(a, c)
  {
  }

  lemma SplitBefore(a: seq<Id>, b: seq<Id>, x: Id, y: Id)
    ensures Before(a + b, x, y) <==> Before(a, x, y) || Before(b, x, y) || (x in a && y in b)
  {
    var c := a + b;
    if i, j :| 0 <= i < j < |c| && c[i] == x && c[j] == y {
      if j < |a| {
        assert a[i] == x && a[j] == y;
      } else if i >= |a| {
        assert b[i - |a|] == x && b[j - |a|] == y;
      }
    }
    if i, j :| 0 <= i < j < |a| && a[i] == x && a[j] == y {
      assert c[i] == x && c[j] == y;
    }
    if i, j :| 0 <= i < j < |b| && b[i] == x && b[j] == y {
      assert c[i + |a|] == x && c[j + |a|] == y;
    }
    if x in a && y in b {
      var i :| 0 <= i < |a| && a[i] == x;
      var j :| 0 <= j < |b| && b[j] == y;
      assert c[i] == x && c[j + |a|] == y;
    }
  }

  lemma SubConcat(a: seq<Id>, b: seq<Id>, c: seq<Id>, d: seq<Id>)
    requires Sub(a, b) && Sub(c, d)
    ensures Sub(a + c, b + d)
  {
    forall x, y | Before(a + c, x, y) ensures Before(b + d, x, y) {
      SplitBefore(a, c, x, y);
      SplitBefore(b, d, x, y);
    }
  }

  lemma SubOf(ids: seq<Id>, i: nat)
    requires i < |ids|
    ensures Sub(Without(ids, i), ids) && Sub(ids, ids) && Sub([], ids)
  {
    var front, back := ids[..i], ids[i + 1..];
    assert ids == front + ([ids[i]] + back);
    forall x, y | Before(Without(ids, i), x, y) ensures Before(ids, x, y) {
      SplitBefore(front, back, x, y);
      SplitBefore([ids[i]], back, x, y);
      SplitBefore(front, [ids[i]] + back, x, y);
    }
  }

  lemma SubSelf(ids: seq<Id>)
    ensures Sub(ids, ids) && Sub([], ids)
  {
  }

  lemma {:induction false} SubRest(reqs: map<Id, Request>, ids: seq<Id>, event: int)
    ensures Sub(Rest(reqs, ids, event), ids)
    decreases |ids|
  {
    if ids != [] {
      var n := |ids| - 1;
      SubRest(reqs, ids[..n], event);
      var last := if WaitsFor(reqs, ids[n], event) then [] else [ids[n]];
      if WaitsFor(reqs, ids[n], event) {
        SubSelf([ids[n]]);
      } else {
        SubSelf(last);
      }
      SubConcat(Rest(reqs, ids[..n], event), ids[..n], last, [ids[n]]);
      assert ids[..n] + [ids[n]] == ids;
    }
  }

  // ---- Operations that only take requests off lists ----

  /** Each list afterwards is part of the same list before, in order; the event list and the port count as one. */
  ghost predicate Thinner(d: Unit, d': Unit) {
    && |d'.openers| == |d.openers|
    && (forall k :: 0 <= k < |d.openers| ==> Sub(d'.openers[k].rxQueue, d.openers[k].rxQueue))
    && Sub(d'.orphans, d.orphans) && Sub(d'.events, d.events) && d'.port == d.port
  }

  lemma ThinnerTrans(d: Unit, d1: Unit, d': Unit)
    requires Thinner(d, d1) && Thinner(d1, d')
    ensures Thinner(d, d')
  {
  }

  lemma ThinnerSame(d: Unit, d': Unit)
    requires d'.openers == d.openers && d'.orphans == d.orphans && d'.events == d.events && d'.port == d.port
    ensures Thinner(d, d')
  {
  }

  lemma ThinnerEvent(d: Unit, event: int)
    ensures Thinner(d, DoEvent(d, event))
  {
    SubRest(d.reqs, d.events, event);
  }

  lemma ThinnerUnlink(d: Unit, p: Place, x: Id)
    ensures Thinner(d, UnlinkAt(d, p, x))
  {
    var ids := ListAt(d, p);
    var i := IndexOf(ids, x);
    if i < |ids| {
      SubOf(ids, i);
    }
  }

  lemma ThinnerSendOne(d: Unit, id: Id, env: Env)
    ensures Thinner(d, SendOne(d, id, env))
  {
    var noted := Noted(d, id, env);
    ThinnerSame(d, noted);
    ThinnerEvent(noted, BUFF);
    ThinnerTrans(d, noted, DoEvent(noted, BUFF));
  }

  lemma {:induction false} ThinnerSendAll(d: Unit, env: Env)
    ensures Thinner(d, SendAll(d, env))
    decreases |d.tx|
  {
    if d.tx != [] {
      var popped := d.(tx := d.tx[1..]);
      ThinnerSendOne(popped, d.tx[0], env);
      hide SendOne;
      ThinnerSendAll(SendOne(popped, d.tx[0], env), env);
      ThinnerTrans(d, SendOne(popped, d.tx[0], env), SendAll(d, env));
    }
  }

  lemma ThinnerWrite(d: Unit, id: Id, env: Env)
    ensures Thinner(d, WritePacket(d, id, env))
  {
    var r := Of(d.reqs, id);
    var failed := Fail(d, id, S2ERR_MTU_EXCEEDED, GENERIC_ERROR);
    ThinnerEvent(failed, TX);
    ThinnerTrans(d, failed, DoEvent(failed, TX));
    var queued := d.(reqs := d.reqs[id := r.(quick := false, pending := true)], tx := d.tx + [id]);
    ThinnerSame(d, queued);
    ThinnerSendAll(queued, env);
    hide SendAll;
    ThinnerTrans(d, queued, SendAll(queued, env));
  }

  lemma ThinnerFlush(d: Unit)
    ensures Thinner(d, FlushUnit(d))
  {
  }

  lemma ThinnerRaise(d: Unit, env: Env)
    ensures Thinner(d, RaiseUnit(d, env))
  {
    if !d.online {
      var up := d.(irq := Install(d.irq, env.signal), online := true);
      ThinnerEvent(up, ONLINE);
    }
  }

  lemma ThinnerDrop(d: Unit)
    ensures Thinner(d, DropUnit(d))
  {
    if d.online {
      var down := d.(online := false);
      ThinnerEvent(down, OFFLINE);
      var told := DoEvent(down, OFFLINE);
      ThinnerFlush(told);
      ThinnerTrans(d, told, FlushUnit(told));
    }
  }

  lemma ThinnerOffer(d: Unit, id: Id, frame: Frame, size: U16, env: Env)
    ensures Thinner(d, Offer(d, id, frame, size, env))
  {
    var r := Of(d.reqs, id);
    var h := Addressed(r, frame, size);
    var failed := d.(reqs := d.reqs[id := h.(error := S2ERR_NO_RESOURCES, wire := BUFF_ERROR)]);
    ThinnerEvent(failed, BUFF);
  }

  lemma ThinnerFulfil(d: Unit, p: Place, id: Id, frame: Frame, size: U16, env: Env)
    ensures Thinner(d, FulfilRead(d, p, id, frame, size, env))
  {
    var offered := Offer(d, id, frame, size, env);
    ThinnerOffer(d, id, frame, size, env);
    ThinnerUnlink(offered, p, id);
    hide Offer, UnlinkAt;
    ThinnerTrans(d, offered, UnlinkAt(offered, p, id));
  }

  lemma {:induction false} ThinnerRound(d: Unit, k: nat, delivered: bool, frame: Frame, size: U16, env: Env)
    requires k <= |d.openers|
    ensures Thinner(d, OfferToOpeners(d, k, delivered, frame, size, env).0)
    decreases |d.openers| - k
  {
    if k < |d.openers| {
      var (d1, delivered1) := OfferToOne(d, k, delivered, frame, size, env);
      var queue := d.openers[k].rxQueue;
      var i := FirstMatch(d.reqs, queue, TypeOf(frame));
      if i < |queue| {
        ThinnerFulfil(d, RxQueue(k), queue[i], frame, size, env);
      }
      hide FulfilRead;
      assert Thinner(d, d1);
      ThinnerRound(d1, k + 1, delivered1, frame, size, env);
      ThinnerTrans(d, d1, OfferToOpeners(d1, k + 1, delivered1, frame, size, env).0);
    }
  }

  lemma ThinnerReceive(d: Unit, frame: Frame, size: U16, env: Env)
    ensures Thinner(d, PacketReceived(d, frame, size, env))
  {
    var (offered, delivered) := OfferToOpeners(d, 0, false, frame, size, env);
    ThinnerRound(d, 0, false, frame, size, env);
    hide FulfilRead, OfferToOpeners;
    if !delivered && offered.orphans != [] {
      ThinnerFulfil(offered, Orphans, offered.orphans[0], frame, size, env);
      ThinnerTrans(d, offered, PacketReceived(d, frame, size, env));
    }
  }

  // ---- Arrival order ----

  /** Every list is in the order of arrival; event requests wait in the port first, and in the event list later. */
  ghost predicate Ordered(d: Unit, arrived: seq<Id>) {
    && (forall k :: 0 <= k < |d.openers| ==> Sub(d.openers[k].rxQueue, arrived))
    && Sub(d.orphans, arrived) && Sub(d.events + d.port, arrived)
  }

  lemma OrderedThinner(d: Unit, d': Unit, arrived: seq<Id>)
    requires Ordered(d, arrived) && Thinner(d, d')
    ensures Ordered(d', arrived)
  {
    SubSelf(d.port);
    SubConcat(d'.events, d.events, d.port, d.port);
    SubTrans(d'.events + d'.port, d.events + d.port, arrived);
  }

  lemma OrderedLater(d: Unit, arrived: seq<Id>, id: Id)
    requires Ordered(d, arrived)
    ensures Ordered(d, arrived + [id])
  {
    hide Sub;
    Appended([], arrived, id);
    forall k | 0 <= k < |d.openers| ensures Sub(d.openers[k].rxQueue, arrived + [id]) {
      SubTrans(d.openers[k].rxQueue, arrived, arrived + [id]);
    }
    SubTrans(d.orphans, arrived, arrived + [id]);
    SubTrans(d.events + d.port, arrived, arrived + [id]);
  }

  lemma Appended(ids: seq<Id>, arrived: seq<Id>, id: Id)
    ensures Sub(arrived, arrived + [id])
    ensures Sub(ids, arrived) ==> Sub(ids + [id], arrived + [id])
  {
    SubSelf(arrived);
    SubSelf([id]);
    SubConcat(arrived, arrived, [], [id]);
    assert arrived + [] == arrived;
    if Sub(ids, arrived) {
      SubConcat(ids, arrived, [id], [id]);
    }
  }

  lemma OrderedRead(d: Unit, id: Id, arrived: seq<Id>)
    requires Ordered(d, arrived)
    ensures Ordered(ReadPacket(d, id), arrived + [id]) && Ordered(ReadOrphanPacket(d, id), arrived + [id])
  {
    OrderedLater(d, arrived, id);
    var k := OpenerAt(d.openers, Of(d.reqs, id).opener);
    if k < |d.openers| {
      Appended(d.openers[k].rxQueue, arrived, id);
    }
    Appended(d.orphans, arrived, id);
    hide Sub;
  }

  lemma OrderedPort(d: Unit, d': Unit, id: Id, arrived: seq<Id>)
    requires Ordered(d, arrived) && d'.openers == d.openers && d'.orphans == d.orphans && d'.events == d.events
    requires d'.port == d.port + [id]
    ensures Ordered(d', arrived + [id])
  {
    OrderedLater(d, arrived, id);
    Appended(d.events + d.port, arrived, id);
    assert d.events + d.port + [id] == d.events + (d.port + [id]);
    hide Sub;
  }

  lemma ThinnerTransfer(d: Unit, id: Id, env: Env)
    requires AtOnce(Of(d.reqs, id).command) && !IsRead(Of(d.reqs, id).command)
    ensures Thinner(d, Execute(d, id, env))
  {
    var c := Of(d.reqs, id).command;
    if c == Broadcast {
      ThinnerWrite(ToAll(d, id), id, env);
      ThinnerTrans(d, ToAll(d, id), WritePacket(ToAll(d, id), id, env));
    } else if c == Write || c == Multicast {
      ThinnerWrite(d, id, env);
    } else {
      ThinnerSame(d, Execute(d, id, env));
    }
  }

  /** The commands the unit process serves, but for a request that goes on waiting for an event. */
  lemma ThinnerControl(d: Unit, id: Id, env: Env)
    requires !AtOnce(Of(d.reqs, id).command)
    requires Of(d.reqs, id).command == OnEvent ==> Satisfied(d, Of(d.reqs, id).wire)
    ensures Thinner(d, Execute(d, id, env))
  {
    var c := Of(d.reqs, id).command;
    hide RaiseUnit, DropUnit, FlushUnit;
    if c == Online || c == Configure {
      var set_ := if c == Configure then d.(station := Of(d.reqs, id).src, config := true) else d;
      ThinnerRaise(set_, env);
      ThinnerTrans(d, set_, RaiseUnit(set_, env));
    } else if c == Offline {
      ThinnerDrop(d);
    } else if c == Flush {
      ThinnerFlush(d);
    } else {
      ThinnerSame(d, Execute(d, id, env));
    }
  }

  lemma OrderedBegin(d: Unit, id: Id, env: Env, arrived: seq<Id>)
    requires Ordered(d, arrived)
    ensures Ordered(BeginIO(d, id, env), arrived + [id])
  {
    var c := Of(d.reqs, id).command;
    if !AtOnce(c) {
      hide Ordered;
      OrderedPort(d, BeginIO(d, id, env), id, arrived);
    } else {
      var cleared := Cleared(d, id);
      ThinnerSame(d, cleared);
      OrderedThinner(d, cleared, arrived);
      if IsRead(c) {
        hide Ordered, Thinner;
        OrderedRead(cleared, id, arrived);
      } else {
        hide Ordered, Thinner, Execute;
        ThinnerTransfer(cleared, id, env);
        OrderedThinner(cleared, Execute(cleared, id, env), arrived);
        OrderedLater(Execute(cleared, id, env), arrived, id);
      }
    }
  }

  lemma Popped(events: seq<Id>, port: seq<Id>)
    requires port != []
    ensures Sub(events + port[1..], events + port) && events + [port[0]] + port[1..] == events + port
  {
    SubOf(port, 0);
    assert Without(port, 0) == port[1..];
    SubSelf(events);
    SubConcat(events, events, port[1..], port);
  }

  lemma OrderedServe(d: Unit, env: Env, arrived: seq<Id>)
    requires d.port != [] && Ordered(d, arrived) && !AtOnce(Of(d.reqs, d.port[0]).command)
    ensures Ordered(ServeOne(d, env), arrived)
  {
    var id, popped := d.port[0], d.(port := d.port[1..]);
    var cleared := Cleared(popped, id);
    Popped(d.events, d.port);
    SubTrans(d.events + d.port[1..], d.events + d.port, arrived);
    hide Sub;
    assert Ordered(cleared, arrived);
    if Of(d.reqs, id).command == OnEvent && !Satisfied(cleared, Of(cleared.reqs, id).wire) {
      assert ServeOne(d, env).events == d.events + [id];
    } else {
      hide Ordered, Thinner, Execute;
      ThinnerControl(cleared, id, env);
      OrderedThinner(cleared, Execute(cleared, id, env), arrived);
    }
  }

  lemma OrderedAbort(d: Unit, id: Id, arrived: seq<Id>)
    requires Ordered(d, arrived)
    ensures Ordered(AbortIO(d, id), arrived)
  {
    var p := PlaceOf(d, id);
    ThinnerUnlink(d, p, id);
    hide UnlinkAt, Ordered;
    OrderedThinner(d, UnlinkAt(d, p, id), arrived);
    ThinnerSame(UnlinkAt(d, p, id), AbortOne(UnlinkAt(d, p, id), id));
    OrderedThinner(UnlinkAt(d, p, id), AbortOne(UnlinkAt(d, p, id), id), arrived);
  }

  lemma NothingWaits(arrived: seq<Id>)
    ensures Sub([], arrived) && Sub([] + [], arrived)
  {
    var none: seq<Id> := [];
    assert none + none == none;
  }

  lemma OrderedOpen(s: Device, handle: nat, unitNumber: nat, mine: bool, prom: bool, o: Setting)
    requires Ordered(s.unit, s.submitted)
    ensures var s' := OpenDevice(s, handle, unitNumber, mine, prom, o).0; Ordered(s'.unit, s'.submitted)
  {
    OpenOutcome(s, handle, unitNumber, mine, prom, o);
    NothingWaits(s.submitted);
  }

  lemma OrderedClose(s: Device, handle: nat)
    requires Ordered(s.unit, s.submitted)
    ensures Ordered(CloseDevice(s, handle).unit, CloseDevice(s, handle).submitted)
  {
    var k := OpenerAt(s.unit.openers, handle);
    if k < |s.unit.openers| {
      forall j | 0 <= j < |s.unit.openers| - 1
        ensures Dropped(s.unit.openers, k)[j] == s.unit.openers[if j < k then j else j + 1]
      {
        DroppedAt(s.unit.openers, k, j);
      }
    }
    NothingWaits(s.submitted);
    hide Sub, AbortEach;
  }

  // ---- Whole runs ----

  lemma OrderedStep(s: Device, e: Event)
    requires Inv(s) && Enabled(s, e) && Ordered(s.unit, s.submitted)
    ensures Ordered(Next(s, e).unit, Next(s, e).submitted)
  {
    hide Ordered, Thinner, BeginIO, ServeOne, PacketReceived, AbortIO, OpenDevice, CloseDevice;
    match e
    case Begin(id, r, env) =>
      var given := s.unit.(reqs := s.unit.reqs[id := r]);
      ThinnerSame(s.unit, given);
      OrderedThinner(s.unit, given, s.submitted);
      OrderedBegin(given, id, env, s.submitted);
    case Serve(env) =>
      assert InPort(Of(s.unit.reqs, s.unit.port[0])) by {
        assert s.unit.port[0] in s.unit.port;
      }
      OrderedServe(s.unit, env, s.submitted);
    case Receive(frame, size, env) =>
      ThinnerReceive(s.unit, frame, size, env);
      OrderedThinner(s.unit, PacketReceived(s.unit, frame, size, env), s.submitted);
    case Abort(id) => OrderedAbort(s.unit, id, s.submitted);
    case Open(handle, unitNumber, mine, prom, o) => OrderedOpen(s, handle, unitNumber, mine, prom, o);
    case Close(handle) => OrderedClose(s, handle);
  }

  lemma {:induction false} OrderedRun(s: Device, run: seq<Event>)
    requires Inv(s) && Possible(s, run) && Ordered(s.unit, s.submitted)
    ensures Ordered(Exec(s, run).unit, Exec(s, run).submitted)
    decreases |run|
  {
    if run != [] {
      OrderedStep(s, run[0]);
      StepKeeps(s, run[0]);
      hide Ordered, Inv;
      OrderedRun(Next(s, run[0]), run[1..]);
    }
  }

  lemma ClosedOrdered()
    ensures Ordered(Closed().unit, Closed().submitted)
  {
    NothingWaits([]);
  }

  /** In a list of different requests, two of them stand in one order only. */
  lemma OneOrder(arrived: seq<Id>, x: Id, y: Id)
    requires Before(arrived, x, y) && Before(arrived, y, x)
    ensures Occurs(arrived, x) > 1 || Occurs(arrived, y) > 1
  {
    var i, j :| 0 <= i < j < |arrived| && arrived[i] == x && arrived[j] == y;
    var k, l :| 0 <= k < l < |arrived| && arrived[k] == y && arrived[l] == x;
    D.TwoPositions(arrived, i, l);
    D.TwoPositions(arrived, j, k);
  }

  lemma SomeOrder(ids: seq<Id>, x: Id, y: Id)
    requires x in ids && y in ids && x != y
    ensures Before(ids, x, y) || Before(ids, y, x)
  {
    var i :| 0 <= i < |ids| && ids[i] == x;
    var j :| 0 <= j < |ids| && ids[j] == y;
  }

  lemma SameOrder(ids: seq<Id>, arrived: seq<Id>, x: Id, y: Id)
    requires Sub(ids, arrived) && x in ids && y in ids && x != y && Occurs(arrived, x) <= 1 && Occurs(arrived, y) <= 1
    ensures Before(ids, x, y) <==> Before(arrived, x, y)
  {
    SomeOrder(ids, x, y);
    if Before(arrived, x, y) && Before(arrived, y, x) {
      OneOrder(arrived, x, y);
    }
  }

  /** After every run two reads of one opener that both still wait stand in its queue in the order they were begun in. */
  lemma ReadsInOrder(run: seq<Event>, k: nat, x: Id, y: Id)
    requires Possible(Closed(), run) && k < |Exec(Closed(), run).unit.openers| && x != y
    requires x in Exec(Closed(), run).unit.openers[k].rxQueue && y in Exec(Closed(), run).unit.openers[k].rxQueue
    ensures var s := Exec(Closed(), run);
            Before(s.unit.openers[k].rxQueue, x, y) <==> Before(s.submitted, x, y)
  {
    var s := Exec(Closed(), run);
    RunHolds(run);
    ClosedHolds();
    ClosedOrdered();
    OrderedRun(Closed(), run);
    assert Occurs(s.submitted, x) <= 1 && Occurs(s.submitted, y) <= 1 by {
      SubmittedOnce(s, x);
      SubmittedOnce(s, y);
    }
    hide Inv, Sub;
    SameOrder(s.unit.openers[k].rxQueue, s.submitted, x, y);
  }

  lemma SubmittedOnce(s: Device, x: Id)
    requires Inv(s)
    ensures Occurs(s.submitted, x) <= 1
  {
    assert Tally(s.unit, x) + Occurs(s.abandoned, x) == Occurs(s.submitted, x) && Occurs(s.submitted, x) <= 1;
  }

  /** The same of the orphan reads, of the requests waiting for an event, and of those in the unit's port. */
  lemma OthersInOrder(run: seq<Event>, x: Id, y: Id)
    requires Possible(Closed(), run) && x != y
    ensures var s := Exec(Closed(), run);
            && (x in s.unit.orphans && y in s.unit.orphans ==> (Before(s.unit.orphans, x, y) <==> Before(s.submitted, x, y)))
            && (x in s.unit.events && y in s.unit.events ==> (Before(s.unit.events, x, y) <==> Before(s.submitted, x, y)))
            && (x in s.unit.port && y in s.unit.port ==> (Before(s.unit.port, x, y) <==> Before(s.submitted, x, y)))
            && (x in s.unit.events && y in s.unit.port ==> Before(s.submitted, x, y))
  {
    var s := Exec(Closed(), run);
    RunHolds(run);
    ClosedHolds();
    ClosedOrdered();
    OrderedRun(Closed(), run);
    SubmittedOnce(s, x);
    SubmittedOnce(s, y);
    hide Inv;
    Halves(s.unit.events, s.unit.port, s.submitted);
    SplitBefore(s.unit.events, s.unit.port, x, y);
    hide Sub;
    if x in s.unit.orphans && y in s.unit.orphans {
      SameOrder(s.unit.orphans, s.submitted, x, y);
    }
    if x in s.unit.events && y in s.unit.events {
      SameOrder(s.unit.events, s.submitted, x, y);
    }
    if x in s.unit.port && y in s.unit.port {
      SameOrder(s.unit.port, s.submitted, x, y);
    }
  }

  lemma Halves(a: seq<Id>, b: seq<Id>, arrived: seq<Id>)
    requires Sub(a + b, arrived)
    ensures Sub(a, arrived) && Sub(b, arrived) && forall x, y :: Before(a + b, x, y) ==> Before(arrived, x, y)
  {
    forall x, y | Before(a, x, y) ensures Before(arrived, x, y) {
      SplitBefore(a, b, x, y);
    }
    forall x, y | Before(b, x, y) ensures Before(arrived, x, y) {
      SplitBefore(a, b, x, y);
    }
    assert forall x :: x in a || x in b ==> x in a + b;
  }

  /**
   * First come, first served. Of an opener's waiting reads that fit a packet, the one begun first gets it, if its client
   * takes it; all the others go on waiting, as they were.
   */
  lemma FirstComeFirstServed(run: seq<Event>, k: nat, x: Id, frame: Frame, size: U16, env: Env)
    requires Possible(Closed(), run) && k < |Exec(Closed(), run).unit.openers|
    requires var s := Exec(Closed(), run);
             && x in s.unit.openers[k].rxQueue && Fits(Of(s.unit.reqs, x), frame)
             && Of(s.unit.reqs, x).opener != 0 && x in env.accepts
             && forall y :: y in s.unit.openers[k].rxQueue && y != x && Fits(Of(s.unit.reqs, y), frame)
                            ==> Before(s.submitted, x, y)
    ensures var d, d' := Exec(Closed(), run).unit, PacketReceived(Exec(Closed(), run).unit, frame, size, env);
            && Delivery(d, d', x, frame, size, env) && |d'.openers| == |d.openers| && x !in d'.openers[k].rxQueue
            && forall y :: y in d.openers[k].rxQueue && y != x ==> y in d'.openers[k].rxQueue && Of(d'.reqs, y) == Of(d.reqs, y)
  {
    var s := Exec(Closed(), run);
    RunHolds(run);
    OnceByLedger(s);
    var d, queue := s.unit, s.unit.openers[k].rxQueue;
    var i :| 0 <= i < |queue| && queue[i] == x;
    forall j | 0 <= j < i ensures !Fits(Of(d.reqs, queue[j]), frame) {
      EarlierIsOther(run, k, j, i);
    }
    assert FirstFitting(d, k, i, frame);
    OnlyThatOneGoes(d, k, i, frame, size, env);
  }

  lemma EarlierIsOther(run: seq<Event>, k: nat, j: nat, i: nat)
    requires Possible(Closed(), run) && k < |Exec(Closed(), run).unit.openers|
    requires j < i < |Exec(Closed(), run).unit.openers[k].rxQueue|
    ensures var s := Exec(Closed(), run);
            var queue := s.unit.openers[k].rxQueue;
            queue[j] != queue[i] && Before(s.submitted, queue[j], queue[i]) && !Before(s.submitted, queue[i], queue[j])
  {
    var s := Exec(Closed(), run);
    var queue := s.unit.openers[k].rxQueue;
    RunHolds(run);
    OnceByLedger(s);
    NotTwice(s.unit, k, j, i);
    SubmittedOnce(s, queue[j]);
    assert Before(queue, queue[j], queue[i]);
    hide Inv;
    ReadsInOrder(run, k, queue[j], queue[i]);
    if Before(s.submitted, queue[i], queue[j]) {
      OneOrder(s.submitted, queue[j], queue[i]);
    }
  }
}
