/** Runs from a freshly loaded device that end where the code does not keep what its comments say. */
module Sana2Witnesses {
  import opened Words
  import opened Frames
  import opened Sana2Requests
  import opened Sana2Device
  import opened Sana2Runs
  import opened Sana2Theorems

  const ADDRESS: seq<Byte> := [0, 0, 0, 0, 0, 1]
  const SETTING := Setting(true, true, true, true, ADDRESS)

  /** Every callback serves every request, and a signal is free. */
  const WILLING := Env({}, {10, 20, 30}, {10, 20, 30}, {10, 20, 30}, true, 0, {})

  const CONFIGURE := BLANK.(command := Configure, src := ADDRESS)
  const CONFIGURED := CONFIGURE.(replied := true)

  lemma {:induction false} ExecOneMore(s: Device, run: seq<Event>, e: Event)
    requires Possible(s, run) && Enabled(Exec(s, run), e)
    ensures Possible(s, run + [e]) && Exec(s, run + [e]) == Next(Exec(s, run), e)
    decreases |run|
  {
    if run == [] {
      assert Exec(Next(s, e), []) == Next(s, e);
    } else {
      assert (run + [e])[1..] == run[1..] + [e];
      ExecOneMore(Next(s, run[0]), run[1..], e);
    }
  }

  lemma Then(run: seq<Event>, s: Device, e: Event, s': Device) returns (run': seq<Event>)
    requires Possible(Closed(), run) && Exec(Closed(), run) == s && Enabled(s, e) && Next(s, e) == s'
    ensures Possible(Closed(), run') && Exec(Closed(), run') == s' && run' == run + [e]
  {
    ExecOneMore(Closed(), run, e);
    run' := run + [e];
  }

  predicate NoPacket(run: seq<Event>) {
    forall i :: 0 <= i < |run| ==> !run[i].Receive?
  }

  lemma NoPacketMore(run: seq<Event>, e: Event)
    requires NoPacket(run) && !e.Receive?
    ensures NoPacket(run + [e])
  {
  }

  // ---- Opened and online ----

  /** A unit that the given handles have open, before its configuration. */
  function Fresh(openers: seq<Opener>, handles: set<nat>): (s: Device) {
    Device(Unit(map[], [], [], [], [], openers, [], [], false, false, ADDRESS, Irq(false, 0, 0), |openers|), true,
           |openers|, false, false, handles, [], [])
  }

  /** The same unit online, with the records, read queues, orphan reads, completions and arrivals given. */
  function Up(reqs: map<Id, Request>, openers: seq<Opener>, orphans: seq<Id>, handles: set<nat>, done: seq<Id>,
              submitted: seq<Id>): (s: Device)
  {
    Device(Unit(reqs, [], [], orphans, [], openers, done, [], true, true, ADDRESS, Irq(true, 1, 1), |openers|), true,
           |openers|, false, false, handles, [], submitted)
  }

  lemma OneInside() returns (run: seq<Event>)
    ensures Possible(Closed(), run) && Exec(Closed(), run) == Fresh([Opener(1, [])], {1})
    ensures run == [Open(1, 0, false, false, SETTING)]
  {
    run := Then([], Closed(), Open(1, 0, false, false, SETTING), Fresh([Opener(1, [])], {1}));
  }

  lemma TwoInside() returns (run: seq<Event>)
    ensures Possible(Closed(), run) && Exec(Closed(), run) == Fresh([Opener(1, []), Opener(2, [])], {1, 2})
    ensures NoPacket(run)
  {
    run := OneInside();
    run := Then(run, Fresh([Opener(1, [])], {1}), Open(2, 0, false, false, SETTING),
                Fresh([Opener(1, []), Opener(2, [])], {1, 2}));
  }

  lemma Configuring(openers: seq<Opener>, handles: set<nat>)
    ensures var s, s' := Fresh(openers, handles), Up(map[0 := CONFIGURED], openers, [], handles, [0], [0]);
            && Enabled(s, Begin(0, CONFIGURE, WILLING))
            && Enabled(Next(s, Begin(0, CONFIGURE, WILLING)), Serve(WILLING))
            && Next(Next(s, Begin(0, CONFIGURE, WILLING)), Serve(WILLING)) == s'
  {
    var s := Fresh(openers, handles);
    var s1 := Next(s, Begin(0, CONFIGURE, WILLING));
    assert s1.unit.port == [0] && s1.unit.port[1..] == [];
    var s2 := Next(s1, Serve(WILLING));
    assert s2.unit.reqs == map[0 := CONFIGURED];
    assert s2.unit.events == [] && s2.unit.done == [0];
  }

  lemma Configured(run: seq<Event>, openers: seq<Opener>, handles: set<nat>) returns (run': seq<Event>)
    requires Possible(Closed(), run) && Exec(Closed(), run) == Fresh(openers, handles)
    ensures Possible(Closed(), run') && Exec(Closed(), run') == Up(map[0 := CONFIGURED], openers, [], handles, [0], [0])
    ensures run' == run + [Begin(0, CONFIGURE, WILLING), Serve(WILLING)]
  {
    var s := Fresh(openers, handles);
    var s1 := Next(s, Begin(0, CONFIGURE, WILLING));
    Configuring(openers, handles);
    hide Next, Fresh, Up, Enabled;
    var run1 := Then(run, s, Begin(0, CONFIGURE, WILLING), s1);
    run' := Then(run1, s1, Serve(WILLING), Up(map[0 := CONFIGURED], openers, [], handles, [0], [0]));
    assert run' == run + [Begin(0, CONFIGURE, WILLING), Serve(WILLING)];
  }

  // ---- A delivered packet offered again ----

  /** The clients' reads: one for each opener, and an orphan read of the first. */
  function ReadOf(packetType: nat, opener: nat): (r: Request) {
    BLANK.(command := Read, packetType := packetType, opener := opener)
  }

  function OrphanOf(opener: nat): (r: Request) {
    BLANK.(command := ReadOrphan, opener := opener)
  }

  /** Two clients inside, and the first n of the three requests 10, 20 and 30 waiting. */
  function Waiting(n: nat, packetType: nat): (s: Device) {
    var reqs := map[0 := CONFIGURED];
    var reqs1 := reqs[10 := ReadOf(packetType, 1).(pending := true)];
    var reqs2 := reqs1[20 := ReadOf(packetType, 2).(pending := true)];
    if n == 0 then Up(reqs, [Opener(1, []), Opener(2, [])], [], {1, 2}, [0], [0])
    else if n == 1 then Up(reqs1, [Opener(1, [10]), Opener(2, [])], [], {1, 2}, [0], [0, 10])
    else if n == 2 then Up(reqs2, [Opener(1, [10]), Opener(2, [20])], [], {1, 2}, [0], [0, 10, 20])
    else Up(reqs2[30 := OrphanOf(1).(pending := true)], [Opener(1, [10]), Opener(2, [20])], [30], {1, 2}, [0],
            [0, 10, 20, 30])
  }

  function Asked(n: nat, packetType: nat): (e: Event) {
    if n == 0 then Begin(10, ReadOf(packetType, 1), WILLING)
    else if n == 1 then Begin(20, ReadOf(packetType, 2), WILLING)
    else Begin(30, OrphanOf(1), WILLING)
  }

  lemma FirstRead(packetType: nat)
    ensures Enabled(Waiting(0, packetType), Asked(0, packetType))
    ensures Next(Waiting(0, packetType), Asked(0, packetType)) == Waiting(1, packetType)
  {
    var openers := [Opener(1, []), Opener(2, [])];
    assert OpenerAt(openers, 1) == 0 && openers[0].rxQueue + [10] == [10];
    assert QueueRead(openers, 0, 10) == [Opener(1, [10]), Opener(2, [])];
  }

  lemma SecondRead(packetType: nat)
    ensures Enabled(Waiting(1, packetType), Asked(1, packetType))
    ensures Next(Waiting(1, packetType), Asked(1, packetType)) == Waiting(2, packetType)
  {
    var openers := [Opener(1, [10]), Opener(2, [])];
    assert openers[1..] == [Opener(2, [])] && OpenerAt(openers, 2) == 1 && openers[1].rxQueue + [20] == [20];
    assert QueueRead(openers, 1, 20) == [Opener(1, [10]), Opener(2, [20])];
  }

  lemma OrphanRead(packetType: nat)
    ensures Enabled(Waiting(2, packetType), Asked(2, packetType))
    ensures Next(Waiting(2, packetType), Asked(2, packetType)) == Waiting(3, packetType)
  {
  }

  lemma ThreeReads(packetType: nat) returns (run: seq<Event>)
    ensures Possible(Closed(), run) && Exec(Closed(), run) == Waiting(3, packetType)
    ensures NoPacket(run)
  {
    run := TwoInside();
    run := Configured(run, [Opener(1, []), Opener(2, [])], {1, 2});
    assert Exec(Closed(), run) == Waiting(0, packetType) && NoPacket(run);
    assert !Asked(0, packetType).Receive? && !Asked(1, packetType).Receive? && !Asked(2, packetType).Receive?;
    hide Next, Up, Enabled, Asked, Waiting, NoPacket;
    NoPacketMore(run, Asked(0, packetType));
    NoPacketMore(run + [Asked(0, packetType)], Asked(1, packetType));
    NoPacketMore(run + [Asked(0, packetType)] + [Asked(1, packetType)], Asked(2, packetType));
    FirstRead(packetType);
    run := Then(run, Waiting(0, packetType), Asked(0, packetType), Waiting(1, packetType));
    SecondRead(packetType);
    run := Then(run, Waiting(1, packetType), Asked(1, packetType), Waiting(2, packetType));
    OrphanRead(packetType);
    run := Then(run, Waiting(2, packetType), Asked(2, packetType), Waiting(3, packetType));
  }

  /** The first client takes the packet, the second cannot copy it. */
  const UNABLE := WILLING.(copyTo := {10, 30})

  lemma Offered(packetType: nat, frame: Frame, size: U16)
    requires SameType(packetType, TypeOf(frame))
    ensures var (d, delivered) := OfferToOne(Waiting(3, packetType).unit, 0, false, frame, size, UNABLE);
            && delivered && d.openers == [Opener(1, []), Opener(2, [20])] && d.orphans == [30] && d.events == []
            && d.done == [0, 10] && Of(d.reqs, 10).command == Read && Of(d.reqs, 10).error == 0
            && Of(d.reqs, 10).data == Fulfil(false, frame, size).data
            && Of(d.reqs, 20) == ReadOf(packetType, 2).(pending := true)
            && Of(d.reqs, 30) == OrphanOf(1).(pending := true)
  {
    hide Fulfil, TypeOf;
    var d := Waiting(3, packetType).unit;
    assert d.openers[0].rxQueue == [10] && FirstMatch(d.reqs, [10], TypeOf(frame)) == 0;
    assert Unlinked([10], 10) == [];
    assert WithList(d, RxQueue(0), []).openers == [Opener(1, []), Opener(2, [20])];
  }

  lemma NotCopied(d: Unit, packetType: nat, frame: Frame, size: U16)
    requires SameType(packetType, TypeOf(frame)) && Of(d.reqs, 20) == ReadOf(packetType, 2).(pending := true)
    requires d.openers == [Opener(1, []), Opener(2, [20])] && d.events == []
    ensures var (d', delivered) := OfferToOne(d, 1, true, frame, size, UNABLE);
            && !delivered && |d'.openers| == 2 && d'.orphans == d.orphans && d'.done == d.done + [20]
            && Of(d'.reqs, 20).error == S2ERR_NO_RESOURCES
            && forall x :: x != 20 ==> Of(d'.reqs, x) == Of(d.reqs, x)
  {
    hide Fulfil, TypeOf;
    assert d.openers[1].rxQueue == [20] && FirstMatch(d.reqs, [20], TypeOf(frame)) == 0;
  }

  lemma TakenByOrphan(d: Unit, frame: Frame, size: U16)
    requires d.orphans == [30] && Of(d.reqs, 30) == OrphanOf(1).(pending := true)
    ensures var d' := OfferToOrphan(d, false, frame, size, UNABLE);
            && d'.done == d.done + [30] && d'.orphans == []
            && Of(d'.reqs, 30).error == 0 && Of(d'.reqs, 30).data == Fulfil(false, frame, size).data
            && Of(d'.reqs, 30).command == ReadOrphan
            && forall x :: x != 30 ==> Of(d'.reqs, x) == Of(d.reqs, x)
  {
    hide Fulfil;
    assert Unlinked([30], 30) == [];
  }

  lemma OfferedAll(d: Unit, frame: Frame, size: U16, env: Env)
    requires |d.openers| == 2
    ensures var (d1, first) := OfferToOne(d, 0, false, frame, size, env);
            var (d2, second) := OfferToOne(d1, 1, first, frame, size, env);
            |d2.openers| == 2 ==> PacketReceived(d, frame, size, env) == OfferToOrphan(d2, second, frame, size, env)
  {
    hide OfferToOne, OfferToOrphan;
    var (d1, first) := OfferToOne(d, 0, false, frame, size, env);
    var (d2, second) := OfferToOne(d1, 1, first, frame, size, env);
    assert OfferToOpeners(d1, 1, first, frame, size, env) == OfferToOpeners(d2, 2, second, frame, size, env);
  }

  /**
   * For every packet there is a run in which it arrives once, one client's read gets it without error, another client
   * cannot copy it, and an orphan read gets the same data again.
   */
  lemma DeliveredTwice(frame: Frame, size: U16) returns (run: seq<Event>)
    ensures NoPacket(run) && Possible(Closed(), run + [Receive(frame, size, UNABLE)])
    ensures var d := Exec(Closed(), run + [Receive(frame, size, UNABLE)]).unit;
            && d.done == [0, 10, 20, 30] && Of(d.reqs, 10).command == Read && Of(d.reqs, 30).command == ReadOrphan
            && Of(d.reqs, 10).error == 0 && Of(d.reqs, 30).error == 0
            && Of(d.reqs, 10).data == Of(d.reqs, 30).data == Fulfil(false, frame, size).data
  {
    var packetType: nat := TypeOf(frame);
    run := ThreeReads(packetType);
    ExecOneMore(Closed(), run, Receive(frame, size, UNABLE));
    PacketTwice(packetType, frame, size);
  }

  lemma PacketTwice(packetType: nat, frame: Frame, size: U16)
    requires SameType(packetType, TypeOf(frame))
    ensures var d := PacketReceived(Waiting(3, packetType).unit, frame, size, UNABLE);
            && d.done == [0, 10, 20, 30] && Of(d.reqs, 10).command == Read && Of(d.reqs, 30).command == ReadOrphan
            && Of(d.reqs, 10).error == 0 && Of(d.reqs, 30).error == 0
            && Of(d.reqs, 10).data == Of(d.reqs, 30).data == Fulfil(false, frame, size).data
  {
    var d := Waiting(3, packetType).unit;
    assert |d.openers| == 2;
    hide *;
    var (d1, first) := OfferToOne(d, 0, false, frame, size, UNABLE);
    Offered(packetType, frame, size);
    OfferedAll(d, frame, size, UNABLE);
    SecondAndOrphan(d1, packetType, frame, size);
  }

  lemma SecondAndOrphan(d: Unit, packetType: nat, frame: Frame, size: U16)
    requires SameType(packetType, TypeOf(frame)) && Of(d.reqs, 20) == ReadOf(packetType, 2).(pending := true)
    requires d.openers == [Opener(1, []), Opener(2, [20])] && d.events == [] && d.orphans == [30]
    requires Of(d.reqs, 30) == OrphanOf(1).(pending := true)
    ensures var (d2, second) := OfferToOne(d, 1, true, frame, size, UNABLE);
            var d' := OfferToOrphan(d2, second, frame, size, UNABLE);
            && !second && |d2.openers| == 2
            && d'.done == d.done + [20] + [30] && Of(d'.reqs, 10) == Of(d.reqs, 10)
            && Of(d'.reqs, 30).command == ReadOrphan && Of(d'.reqs, 30).error == 0
            && Of(d'.reqs, 30).data == Fulfil(false, frame, size).data
  {
    hide *;
    NotCopied(d, packetType, frame, size);
    TakenByOrphan(OfferToOne(d, 1, true, frame, size, UNABLE).0, frame, size);
  }

  // ---- A quick read ----

  /** For every packet there is a run in which a quick read gets it without error and its client is never told. */
  lemma QuickReadUnanswered(frame: Frame, size: U16) returns (run: seq<Event>)
    ensures Possible(Closed(), run)
    ensures var d := Exec(Closed(), run).unit;
            && d.done == [0, 10] && Of(d.reqs, 10).error == 0 && Of(d.reqs, 10).data == Fulfil(false, frame, size).data
            && Of(d.reqs, 10).quick && !Of(d.reqs, 10).replied
  {
    var packetType: nat := TypeOf(frame);
    var read := ReadOf(packetType, 1).(quick := true);
    var reqs := map[0 := CONFIGURED, 10 := read.(pending := true)];
    var s, s1 := Up(map[0 := CONFIGURED], [Opener(1, [])], [], {1}, [0], [0]), Up(reqs, [Opener(1, [10])], [], {1}, [0], [0, 10]);
    run := OneInside();
    run := Configured(run, [Opener(1, [])], {1});
    QuickRead(packetType);
    QuickTaken(packetType, frame, size);
    hide PacketReceived, BeginIO, Up, Fulfil;
    run := Then(run, s, Begin(10, read, WILLING), s1);
    run := Then(run, s1, Receive(frame, size, WILLING), s1.(unit := PacketReceived(s1.unit, frame, size, WILLING)));
  }

  lemma QuickRead(packetType: nat)
    ensures var read := ReadOf(packetType, 1).(quick := true);
            var s := Up(map[0 := CONFIGURED], [Opener(1, [])], [], {1}, [0], [0]);
            && Enabled(s, Begin(10, read, WILLING))
            && Next(s, Begin(10, read, WILLING))
               == Up(map[0 := CONFIGURED, 10 := read.(pending := true)], [Opener(1, [10])], [], {1}, [0], [0, 10])
  {
    var openers := [Opener(1, [])];
    assert OpenerAt(openers, 1) == 0 && openers[0].rxQueue + [10] == [10];
    assert QueueRead(openers, 0, 10) == [Opener(1, [10])];
  }

  lemma QuickTaken(packetType: nat, frame: Frame, size: U16)
    requires SameType(packetType, TypeOf(frame))
    ensures var reqs := map[0 := CONFIGURED, 10 := ReadOf(packetType, 1).(quick := true, pending := true)];
            var d := PacketReceived(Up(reqs, [Opener(1, [10])], [], {1}, [0], [0, 10]).unit, frame, size, WILLING);
            && d.done == [0, 10] && Of(d.reqs, 10).error == 0 && Of(d.reqs, 10).data == Fulfil(false, frame, size).data
            && Of(d.reqs, 10).quick && !Of(d.reqs, 10).replied
  {
    hide Fulfil, TypeOf;
    var reqs := map[0 := CONFIGURED, 10 := ReadOf(packetType, 1).(quick := true, pending := true)];
    var d := Up(reqs, [Opener(1, [10])], [], {1}, [0], [0, 10]).unit;
    assert d.openers[0].rxQueue == [10] && FirstMatch(d.reqs, [10], TypeOf(frame)) == 0;
    var (d', delivered) := OfferToOne(d, 0, false, frame, size, WILLING);
    assert OfferToOpeners(d', 1, delivered, frame, size, WILLING) == (d', delivered);
  }

  // ---- The last close ----

  const WAITER := BLANK.(command := OnEvent, wire := {ONLINE})

  /** A client waits for the unit to come online and closes the device: its request is left behind, never completed. */
  lemma LostAtLastClose() returns (run: seq<Event>)
    ensures Possible(Closed(), run)
    ensures var s := Exec(Closed(), run);
            !s.present && s.submitted == [10] && s.abandoned == [10] && s.unit.done == []
  {
    var s := Fresh([Opener(1, [])], {1});
    var s1 := Next(s, Begin(10, WAITER, WILLING));
    var s2 := Next(s1, Serve(WILLING));
    var s3 := Next(s2, Close(1));
    run := OneInside();
    WaiterLeft();
    hide *;
    run := Then(run, s, Begin(10, WAITER, WILLING), s1);
    run := Then(run, s1, Serve(WILLING), s2);
    run := Then(run, s2, Close(1), s3);
  }

  lemma WaiterLeft()
    ensures var s := Fresh([Opener(1, [])], {1});
            var begin, close := Begin(10, WAITER, WILLING), Close(1);
            && Enabled(s, begin) && Enabled(Next(s, begin), Serve(WILLING))
            && var s2 := Next(Next(s, begin), Serve(WILLING));
            && Enabled(s2, close)
            && var s3 := Next(s2, close);
            !s3.present && s3.submitted == [10] && s3.abandoned == [10] && s3.unit.done == []
  {
    var s1 := Next(Fresh([Opener(1, [])], {1}), Begin(10, WAITER, WILLING));
    assert s1.unit.port == [10] && s1.unit.port[1..] == [];
    var s2 := Next(s1, Serve(WILLING));
    assert s2.unit.events == [10] && s2.unit.done == [] && s2.unit.port == [] && s2.unit.orphans == [];
    assert OpenerAt(s2.unit.openers, 1) == 0;
  }

  // ---- An orphan read without its opener ----

  /** One of two clients queues an orphan read and closes; the next packet is still given to its read. */
  lemma OrphanReadOutlives(frame: Frame, size: U16) returns (run: seq<Event>)
    ensures Possible(Closed(), run) && OutlivesOpener(Exec(Closed(), run), 30)
    ensures Of(Exec(Closed(), run).unit.reqs, 30).opener == 1
    ensures var d := PacketReceived(Exec(Closed(), run).unit, frame, size, WILLING);
            d.done == [0, 30] && Of(d.reqs, 30).error == 0
  {
    var s0 := Up(map[0 := CONFIGURED], [Opener(1, []), Opener(2, [])], [], {1, 2}, [0], [0]);
    var reqs := map[0 := CONFIGURED, 30 := OrphanOf(1).(pending := true)];
    var s1 := Up(reqs, [Opener(1, []), Opener(2, [])], [30], {1, 2}, [0], [0, 30]);
    var s2 := Next(s1, Close(1));
    run := TwoInside();
    run := Configured(run, [Opener(1, []), Opener(2, [])], {1, 2});
    OrphanQueued();
    OpenerGone(frame, size);
    hide *;
    run := Then(run, s0, Begin(30, OrphanOf(1), WILLING), s1);
    run := Then(run, s1, Close(1), s2);
  }

  lemma OrphanQueued()
    ensures var s := Up(map[0 := CONFIGURED], [Opener(1, []), Opener(2, [])], [], {1, 2}, [0], [0]);
            && Enabled(s, Begin(30, OrphanOf(1), WILLING))
            && Next(s, Begin(30, OrphanOf(1), WILLING))
               == Up(map[0 := CONFIGURED, 30 := OrphanOf(1).(pending := true)], [Opener(1, []), Opener(2, [])], [30],
                     {1, 2}, [0], [0, 30])
  {
  }

  lemma OpenerGone(frame: Frame, size: U16)
    ensures var reqs := map[0 := CONFIGURED, 30 := OrphanOf(1).(pending := true)];
            var s := Up(reqs, [Opener(1, []), Opener(2, [])], [30], {1, 2}, [0], [0, 30]);
            var s' := Next(s, Close(1));
            && Enabled(s, Close(1)) && OutlivesOpener(s', 30) && Of(s'.unit.reqs, 30).opener == 1
            && var d := PacketReceived(s'.unit, frame, size, WILLING);
            d.done == [0, 30] && Of(d.reqs, 30).error == 0
  {
    hide Fulfil, TypeOf;
    var reqs := map[0 := CONFIGURED, 30 := OrphanOf(1).(pending := true)];
    var s := Up(reqs, [Opener(1, []), Opener(2, [])], [30], {1, 2}, [0], [0, 30]);
    var d := Next(s, Close(1)).unit;
    assert OpenerAt(s.unit.openers, 1) == 0 && d.openers == [Opener(2, [])] && d.reqs == reqs;
    assert FirstMatch(d.reqs, [], TypeOf(frame)) == 0;
    assert OfferToOne(d, 0, false, frame, size, WILLING) == (d, false);
    assert OfferToOpeners(d, 1, false, frame, size, WILLING) == (d, false);
    assert Unlinked([30], 30) == [];
  }

  // ---- Orphan reads after a flush and after going offline ----

  const FLUSH := BLANK.(command := Flush)
  const OFFLINE_NOW := BLANK.(command := Offline)

  /** One client online with an orphan read of its own waiting. */
  function OrphanWaits(): (s: Device) {
    Up(map[0 := CONFIGURED, 30 := OrphanOf(1).(pending := true)], [Opener(1, [])], [30], {1}, [0], [0, 30])
  }

  lemma OrphanWaiting() returns (run: seq<Event>)
    ensures Possible(Closed(), run) && Exec(Closed(), run) == OrphanWaits()
  {
    var s := Up(map[0 := CONFIGURED], [Opener(1, [])], [], {1}, [0], [0]);
    run := OneInside();
    run := Configured(run, [Opener(1, [])], {1});
    OrphanBegun();
    hide *;
    run := Then(run, s, Begin(30, OrphanOf(1), WILLING), OrphanWaits());
  }

  lemma OrphanBegun()
    ensures var s := Up(map[0 := CONFIGURED], [Opener(1, [])], [], {1}, [0], [0]);
            Enabled(s, Begin(30, OrphanOf(1), WILLING)) && Next(s, Begin(30, OrphanOf(1), WILLING)) == OrphanWaits()
  {
  }

  /** A flush was asked for and completed, and the orphan read is still queued and not completed. */
  lemma OrphanSurvivesFlush() returns (run: seq<Event>)
    ensures Possible(Closed(), run)
    ensures var d := Exec(Closed(), run).unit;
            d.done == [0, 40] && Of(d.reqs, 40).command == Flush && Of(d.reqs, 40).error == 0 && d.orphans == [30]
  {
    run := OrphanWaiting();
    FlushServed();
    hide *;
    run := BegunAndServed(run, OrphanWaits(), 40, FLUSH);
  }

  /** The same for going offline, which leaves an offline unit with an orphan read. */
  lemma OrphanSurvivesOffline() returns (run: seq<Event>)
    ensures Possible(Closed(), run)
    ensures var d := Exec(Closed(), run).unit;
            d.done == [0, 40] && Of(d.reqs, 40).command == Offline && Of(d.reqs, 40).error == 0 && d.orphans == [30] && !d.online
  {
    run := OrphanWaiting();
    OfflineServed();
    hide *;
    run := BegunAndServed(run, OrphanWaits(), 40, OFFLINE_NOW);
  }

  lemma BegunAndServed(run: seq<Event>, s: Device, id: Id, r: Request) returns (run': seq<Event>)
    requires Possible(Closed(), run) && Exec(Closed(), run) == s && Enabled(s, Begin(id, r, WILLING))
    requires Enabled(Next(s, Begin(id, r, WILLING)), Serve(WILLING))
    ensures Possible(Closed(), run') && Exec(Closed(), run') == Next(Next(s, Begin(id, r, WILLING)), Serve(WILLING))
  {
    hide *;
    run' := Then(run, s, Begin(id, r, WILLING), Next(s, Begin(id, r, WILLING)));
    var s1 := Next(s, Begin(id, r, WILLING));
    run' := Then(run', s1, Serve(WILLING), Next(s1, Serve(WILLING)));
  }

  /** With empty lists a flush and an event change nothing. */
  lemma NothingToFlush(d: Unit, event: int)
    requires d.tx == [] && d.events == [] && d.openers == [Opener(1, [])]
    ensures FlushUnit(d) == d && DoEvent(d, event) == d
  {
    assert d.openers[..0] == [] && Reads(d.openers) == [];
    assert Emptied(d.openers) == d.openers;
    assert Reads(d.openers) + d.tx + d.events == [];
  }

  lemma QueuedAlone(s: Device, id: Id, r: Request)
    requires s.present && s.unit.port == [] && id !in s.submitted && !r.replied && !r.quick && !AtOnce(r.command)
    ensures Enabled(s, Begin(id, r, WILLING)) && Enabled(Next(s, Begin(id, r, WILLING)), Serve(WILLING))
    ensures Next(Next(s, Begin(id, r, WILLING)), Serve(WILLING)).unit
            == PerformIO(s.unit.(reqs := s.unit.reqs[id := r.(pending := true)]), id, WILLING)
  {
    hide PerformIO;
    var d := s.unit;
    assert d.reqs[id := r][id := r.(pending := true)] == d.reqs[id := r.(pending := true)];
    assert d.port + [id] == [id] && [id][1..] == d.port;
    assert Next(s, Begin(id, r, WILLING)).unit == d.(reqs := d.reqs[id := r.(pending := true)], port := [id]);
  }

  lemma OrphansAfter(d: Unit, id: Id)
    requires d.tx == [] && d.events == [] && d.openers == [Opener(1, [])]
    requires Of(d.reqs, id).command == Flush || Of(d.reqs, id).command == Offline
    ensures var c, d' := Of(d.reqs, id).command, PerformIO(d, id, WILLING);
            && d'.done == d.done + [id] && Of(d'.reqs, id).command == c && Of(d'.reqs, id).error == 0
            && d'.orphans == d.orphans && (c == Offline ==> !d'.online)
  {
    hide FlushUnit, DoEvent;
    NothingToFlush(Cleared(d, id), ONLINE);
    NothingToFlush(Cleared(d, id).(online := false), OFFLINE);
  }

  lemma FlushServed()
    ensures var s := OrphanWaits();
            && Enabled(s, Begin(40, FLUSH, WILLING)) && Enabled(Next(s, Begin(40, FLUSH, WILLING)), Serve(WILLING))
            && var d := Next(Next(s, Begin(40, FLUSH, WILLING)), Serve(WILLING)).unit;
            d.done == [0, 40] && Of(d.reqs, 40).command == Flush && Of(d.reqs, 40).error == 0 && d.orphans == [30]
  {
    hide PerformIO, Next, Enabled;
    QueuedAlone(OrphanWaits(), 40, FLUSH);
    var d := OrphanWaits().unit;
    OrphansAfter(d.(reqs := d.reqs[40 := FLUSH.(pending := true)]), 40);
  }

  lemma OfflineServed()
    ensures var s := OrphanWaits();
            && Enabled(s, Begin(40, OFFLINE_NOW, WILLING))
            && Enabled(Next(s, Begin(40, OFFLINE_NOW, WILLING)), Serve(WILLING))
            && var d := Next(Next(s, Begin(40, OFFLINE_NOW, WILLING)), Serve(WILLING)).unit;
            d.done == [0, 40] && Of(d.reqs, 40).command == Offline && Of(d.reqs, 40).error == 0 && d.orphans == [30] && !d.online
  {
    hide PerformIO, Next, Enabled;
    QueuedAlone(OrphanWaits(), 40, OFFLINE_NOW);
    var d := OrphanWaits().unit;
    OrphansAfter(d.(reqs := d.reqs[40 := OFFLINE_NOW.(pending := true)]), 40);
  }

  // ---- Refused memory, refused signal ----

  lemma IdleUnit() returns (run: seq<Event>)
    ensures Possible(Closed(), run) && Idle(Exec(Closed(), run))
  {
    var open := Open(1, 0, false, false, SETTING.(memory := false));
    run := Then([], Closed(), open, Next(Closed(), open));
  }

  const SIGNALLESS := WILLING.(signal := false)

  lemma OnlineWithoutServer() returns (run: seq<Event>)
    ensures Possible(Closed(), run)
    ensures Exec(Closed(), run).unit.online && !Exec(Closed(), run).unit.irq.installed
  {
    var s := Fresh([Opener(1, [])], {1});
    var s1 := Next(s, Begin(0, CONFIGURE, SIGNALLESS));
    var s2 := Next(s1, Serve(SIGNALLESS));
    run := OneInside();
    SignalRefused();
    hide *;
    run := Then(run, s, Begin(0, CONFIGURE, SIGNALLESS), s1);
    run := Then(run, s1, Serve(SIGNALLESS), s2);
  }

  lemma SignalRefused()
    ensures var s := Fresh([Opener(1, [])], {1});
            && Enabled(s, Begin(0, CONFIGURE, SIGNALLESS))
            && var s1 := Next(s, Begin(0, CONFIGURE, SIGNALLESS));
            && Enabled(s1, Serve(SIGNALLESS))
            && var d := Next(s1, Serve(SIGNALLESS)).unit;
            d.online && !d.irq.installed
  {
    var s1 := Next(Fresh([Opener(1, [])], {1}), Begin(0, CONFIGURE, SIGNALLESS));
    assert s1.unit.port == [0] && s1.unit.port[1..] == [];
  }

  // ---- Exclusive use ----

  /** A client opens for exclusive and promiscuous use, and a second one opens plainly: both are inside, the flags set. */
  lemma ExclusiveJoined() returns (run: seq<Event>)
    ensures Possible(Closed(), run)
    ensures var s := Exec(Closed(), run);
            s.exclusive && s.promiscuous && s.openCnt == 2 && s.handles == {1, 2}
  {
    var s1 := Fresh([Opener(1, [])], {1}).(exclusive := true, promiscuous := true);
    var s2 := Fresh([Opener(1, []), Opener(2, [])], {1, 2}).(exclusive := true, promiscuous := true);
    run := Then([], Closed(), Open(1, 0, true, true, SETTING), s1);
    run := Then(run, s1, Open(2, 0, false, false, SETTING), s2);
  }
}
