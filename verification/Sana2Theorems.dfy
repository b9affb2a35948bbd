/** What holds after every run of the device from the moment it is loaded. */
module Sana2Theorems {
  import opened Words
  import opened Frames
  import opened Sana2Requests
  import opened Sana2Accounts
  import opened Sana2Invariants
  import opened Sana2Replies
  import opened Sana2Device
  import opened Sana2Runs

  lemma ClosedHolds()
    ensures Inv(Closed())
  {
  }

  lemma RunHolds(run: seq<Event>)
    requires Possible(Closed(), run)
    ensures Inv(Exec(Closed(), run))
  {
    ClosedHolds();
    RunKeeps(Closed(), run);
  }

  // ---- Conservation ----

  /**
   * A request that arrived waits in exactly one list, once, or TermIO was called on it exactly once, or the unit was
   * dissolved while it waited; one that never arrived is nowhere.
   */
  lemma ExactlyOnePlace(run: seq<Event>, x: Id)
    requires Possible(Closed(), run)
    ensures var s := Exec(Closed(), run);
            InFlight(s.unit, x) + Occurs(s.unit.done, x) + Occurs(s.abandoned, x) == if x in s.submitted then 1 else 0
  {
    RunHolds(run);
    var s := Exec(Closed(), run);
    assert Tally(s.unit, x) + Occurs(s.abandoned, x) == Occurs(s.submitted, x) && Occurs(s.submitted, x) <= 1;
  }

  /** When the unit is gone, all that arrived was completed, except what then waited in the port, for orphans or events. */
  lemma NothingLeftAfterLastClose(run: seq<Event>, handle: nat)
    requires Possible(Closed(), run) && Exec(Closed(), run).openCnt == 1 && handle in Exec(Closed(), run).handles
    ensures var s := Exec(Closed(), run);
            var s' := CloseDevice(s, handle);
            && !s'.present && s'.openCnt == 0
            && s'.abandoned == s.abandoned + (s.unit.port + s.unit.orphans + s.unit.events)
            && forall x :: x in s.submitted ==> Occurs(s'.unit.done, x) + Occurs(s'.abandoned, x) == 1
  {
    RunHolds(run);
    var s := Exec(Closed(), run);
    var s' := CloseDevice(s, handle);
    CloseKeeps(s, handle);
    assert s.unit.port + [] == s.unit.port;
    var k :| 0 <= k < |s.unit.openers| && s.unit.openers[k].id == handle;
    assert |s'.unit.openers| == 0;
    forall x | x in s.submitted ensures Occurs(s'.unit.done, x) + Occurs(s'.abandoned, x) == 1 {
      assert Tally(s'.unit, x) + Occurs(s'.abandoned, x) == Occurs(s'.submitted, x) && Occurs(s'.submitted, x) <= 1;
    }
  }

  // ---- The unit's state ----

  lemma NobodyWaitsInVain(run: seq<Event>)
    requires Possible(Closed(), run)
    ensures NobodySatisfied(Exec(Closed(), run).unit)
  {
    RunHolds(run);
  }

  lemma UnitStates(run: seq<Event>)
    requires Possible(Closed(), run)
    ensures var d := Exec(Closed(), run).unit;
            && (d.online ==> d.config)
            && d.tx == []
            && (!d.online ==> forall k :: 0 <= k < |d.openers| ==> d.openers[k].rxQueue == [])
            && (d.irq.installed ==> d.online && d.irq.servers == 1 && d.irq.signals == 1)
            && (!d.irq.installed ==> d.irq.servers == 0 && d.irq.signals == 0)
  {
    RunHolds(run);
  }

  /** The unit process serves the command that takes the unit online. */
  predicate TakesOnline(s: Device, e: Event) {
    e.Serve? && s.unit.port != [] && !s.unit.online && Raises(s.unit, s.unit.port[0])
  }

  /** A step takes the unit online without its interrupt server exactly if it is refused the signal for it. */
  lemma ConnectedExactly(s: Device, e: Event)
    requires Inv(s) && Enabled(s, e) && Connected(s.unit)
    ensures !Connected(Next(s, e).unit) <==> TakesOnline(s, e) && !e.env.signal
  {
    hide BeginIO, ServeOne, PacketReceived, AbortIO;
    match e
    case Begin(id, r, env) =>
      BeginLedger(s, id, r, env);
      RoomIsAbsent(s.unit.(reqs := s.unit.reqs[id := r]), id);
      BeginMode(s.unit.(reqs := s.unit.reqs[id := r]), id, env);
    case Serve(env) => ServeMode(s, env);
    case Receive(frame, size, env) => ShrinksReceive(s.unit, frame, size, env);
    case Abort(id) => ShrinksAbort(s.unit, id);
    case Open(handle, unitNumber, mine, prom, o) => OpenOutcome(s, handle, unitNumber, mine, prom, o);
    case Close(handle) =>
  }

  predicate SignalsFree(run: seq<Event>) {
    forall i :: 0 <= i < |run| ==> run[i].Serve? ==> run[i].env.signal
  }

  lemma ServeMode(s: Device, env: Env)
    requires Inv(s) && Enabled(s, Serve(env))
    ensures ModeStep(s.unit, ServeOne(s.unit, env), Raises(s.unit, s.unit.port[0]), env.signal)
  {
    var popped, id := s.unit.(port := s.unit.port[1..]), s.unit.port[0];
    OnceByLedger(s);
    assert id in s.unit.port;
    if id in s.unit.done {
      DoneIsAbsent(s.unit, id);
    }
    PerformMode(popped, id, env);
  }

  lemma {:induction false} ConnectedRun(s: Device, run: seq<Event>)
    requires Inv(s) && Possible(s, run) && Connected(s.unit) && SignalsFree(run)
    ensures Connected(Exec(s, run).unit)
    decreases |run|
  {
    if run != [] {
      ConnectedExactly(s, run[0]);
      StepKeeps(s, run[0]);
      ConnectedRun(Next(s, run[0]), run[1..]);
    }
  }

  /** As long as a signal can be had, the unit is online exactly while its one interrupt server is installed. */
  lemma OnlineMeansInstalled(run: seq<Event>)
    requires Possible(Closed(), run) && SignalsFree(run)
    ensures var d := Exec(Closed(), run).unit;
            (d.online <==> d.irq.installed) && d.irq.servers == d.irq.signals == if d.online then 1 else 0
  {
    ClosedHolds();
    ConnectedRun(Closed(), run);
    RunHolds(run);
  }

  /** A configuration lasts, with its address, as long as the unit does. */
  lemma ConfiguredStep(s: Device, e: Event)
    requires Inv(s) && Enabled(s, e) && s.present && Next(s, e).present && s.unit.config
    ensures Next(s, e).unit.config && Next(s, e).unit.station == s.unit.station
  {
    hide BeginIO, ServeOne, PacketReceived, AbortIO;
    match e
    case Begin(id, r, env) =>
      BeginLedger(s, id, r, env);
      RoomIsAbsent(s.unit.(reqs := s.unit.reqs[id := r]), id);
      BeginMode(s.unit.(reqs := s.unit.reqs[id := r]), id, env);
    case Serve(env) => ServeMode(s, env);
    case Receive(frame, size, env) => ShrinksReceive(s.unit, frame, size, env);
    case Abort(id) => ShrinksAbort(s.unit, id);
    case Open(handle, unitNumber, mine, prom, o) => OpenOutcome(s, handle, unitNumber, mine, prom, o);
    case Close(handle) =>
  }

  predicate StaysPresent(s: Device, run: seq<Event>)
    requires Possible(s, run)
    decreases |run|
  {
    s.present && (run == [] || StaysPresent(Next(s, run[0]), run[1..]))
  }

  lemma {:induction false} ConfiguredOnce(s: Device, run: seq<Event>)
    requires Inv(s) && Possible(s, run) && StaysPresent(s, run) && s.unit.config
    ensures Exec(s, run).unit.config && Exec(s, run).unit.station == s.unit.station
    decreases |run|
  {
    if run != [] {
      ConfiguredStep(s, run[0]);
      StepKeeps(s, run[0]);
      ConfiguredOnce(Next(s, run[0]), run[1..]);
    }
  }

  // ---- Opening and closing ----

  lemma OpenAndCloseBalance(run: seq<Event>)
    requires Possible(Closed(), run)
    ensures var s := Exec(Closed(), run);
            && s.openCnt == s.unit.openCnt == |s.unit.openers|
            && (s.openCnt > 0 ==> s.present)
            && HandlesMatch(s.unit.openers, s.handles) && DistinctIds(s.unit.openers)
  {
    RunHolds(run);
  }

  predicate MemoryFree(run: seq<Event>) {
    forall i :: 0 <= i < |run| ==> (run[i].Open? ==> run[i].setting.memory)
  }

  lemma {:induction false} PresentRun(s: Device, run: seq<Event>)
    requires Inv(s) && Possible(s, run) && MemoryFree(run) && (s.present ==> s.openCnt > 0)
    ensures Exec(s, run).present ==> Exec(s, run).openCnt > 0
    decreases |run|
  {
    if run != [] {
      IdleExactly(s, run[0]);
      StepKeeps(s, run[0]);
      assert MemoryFree(run[1..]);
      PresentRun(Next(s, run[0]), run[1..]);
    }
  }

  predicate Idle(s: Device) {
    s.present && s.openCnt == 0
  }

  /** With nobody else inside, an open passes every check but that for memory. */
  predicate Passes(e: Event) {
    e.Open? && e.unitNumber == 0 && (e.prom ==> e.mine) && e.setting.stack && e.setting.probe
  }

  /**
   * A step leaves the unit behind with nobody using it exactly if it is an open that had the unit built and then got
   * no memory for its opener; and such a unit stays until an open succeeds.
   */
  lemma IdleExactly(s: Device, e: Event)
    requires Inv(s) && Enabled(s, e)
    ensures Idle(Next(s, e)) <==>
            if Idle(s) then !(Passes(e) && e.setting.memory)
            else !s.present && Passes(e) && e.setting.process && !e.setting.memory
  {
    hide BeginIO, ServeOne, PacketReceived, AbortIO, CloseDevice, OpenDevice;
    match e
    case Open(handle, unitNumber, mine, prom, o) => IdleOpen(s, handle, unitNumber, mine, prom, o);
    case Close(handle) => IdleClose(s, handle);
    case _ =>
  }

  lemma IdleOpen(s: Device, handle: nat, unitNumber: nat, mine: bool, prom: bool, o: Setting)
    requires Inv(s)
    ensures var s', passes := OpenDevice(s, handle, unitNumber, mine, prom, o).0,
                              Passes(Open(handle, unitNumber, mine, prom, o));
            Idle(s') <==> if Idle(s) then !(passes && o.memory) else !s.present && passes && o.process && !o.memory
  {
    assert s.openCnt >= 0 && (!s.present ==> s.openCnt == 0);
    hide Inv;
  }

  lemma IdleClose(s: Device, handle: nat)
    requires Inv(s)
    ensures Idle(CloseDevice(s, handle)) <==> Idle(s)
  {
    NobodyInside(s);
    assert s.openCnt == s.unit.openCnt == |s.unit.openers|;
    hide Inv;
  }

  lemma NobodyInside(s: Device)
    requires Inv(s)
    ensures s.openCnt == 0 ==> s.handles == {}
  {
    if h :| h in s.handles {
      assert exists k :: 0 <= k < |s.unit.openers| && s.unit.openers[k].id == h;
    }
  }

  /** The unit is there exactly while someone has the device open. */
  lemma UnitWhileOpen(run: seq<Event>)
    requires Possible(Closed(), run) && MemoryFree(run)
    ensures var s := Exec(Closed(), run); s.present <==> s.openCnt > 0
  {
    ClosedHolds();
    PresentRun(Closed(), run);
    RunHolds(run);
  }

  // ---- Exclusive use ----

  /** An open succeeds exactly under these conditions. The exclusive flag is not among them. */
  lemma OpenSucceedsExactly(s: Device, handle: nat, unitNumber: nat, mine: bool, prom: bool, o: Setting)
    requires s.openCnt >= 0
    ensures OpenDevice(s, handle, unitNumber, mine, prom, o).1 <==>
            && o.stack && unitNumber == 0 && o.probe && o.memory && (s.present || o.process)
            && (mine ==> s.openCnt == 0) && (prom ==> mine)
  {
  }

  /**
   * Both flags are set by an open that asks for them and finds nobody inside, even if the probe or an allocation fails
   * after that, and cleared by every valid close, whoever closes; nothing else touches them.
   */
  lemma FlagsExactly(s: Device, e: Event)
    requires s.openCnt >= 0 && Enabled(s, e)
    ensures var s' := Next(s, e);
            var asks := e.Open? && e.mine && e.setting.stack && e.unitNumber == 0 && s.openCnt == 0;
            var closes := e.Close? && e.handle in s.handles;
            && (s'.exclusive <==> (s.exclusive && !closes) || asks)
            && (s'.promiscuous <==> (s.promiscuous && !closes) || (asks && e.prom))
  {
    hide BeginIO, ServeOne, PacketReceived, AbortIO, RemoveOpener, FreshUnit, WithOpener, ShutDown;
  }

  /** Whoever has asked for exclusive use is alone. */
  predicate Alone(s: Device) {
    s.exclusive ==> s.openCnt <= 1
  }

  /** A second client who does not ask for exclusive use himself. */
  predicate Joins(e: Event) {
    e.Open? && e.unitNumber == 0 && !e.mine && !e.prom && e.setting.stack && e.setting.probe && e.setting.memory
  }

  lemma JoinOutcome(s: Device, e: Event)
    requires Inv(s) && Enabled(s, e) && e.Open? && Alone(s)
    ensures !Alone(Next(s, e)) <==> s.exclusive && s.openCnt == 1 && Joins(e)
  {
    assert s.openCnt >= 0 && (!s.present ==> s.openCnt == 0);
    hide Inv;
    OpenSucceedsExactly(s, e.handle, e.unitNumber, e.mine, e.prom, e.setting);
  }

  lemma AloneAfterClose(s: Device, handle: nat)
    requires Alone(s)
    ensures Alone(CloseDevice(s, handle))
  {
  }

  /** A step ends exclusive use, with the flag still set, exactly if it is a plain open of a second client. */
  lemma ExclusiveExactly(s: Device, e: Event)
    requires Inv(s) && Enabled(s, e) && Alone(s)
    ensures !Alone(Next(s, e)) <==> s.exclusive && s.openCnt == 1 && Joins(e)
  {
    hide BeginIO, ServeOne, PacketReceived, AbortIO, CloseDevice, OpenDevice;
    match e
    case Open(handle, unitNumber, mine, prom, o) => JoinOutcome(s, e);
    case Close(handle) => AloneAfterClose(s, handle);
    case _ =>
  }

  predicate NobodyJoins(s: Device, run: seq<Event>)
    requires Possible(s, run)
    decreases |run|
  {
    run != [] ==> !(s.exclusive && s.openCnt == 1 && Joins(run[0])) && NobodyJoins(Next(s, run[0]), run[1..])
  }

  /** Over whole runs: exclusive use is exclusive as long as nobody joins by a plain open. */
  lemma {:induction false} ExclusiveRun(s: Device, run: seq<Event>)
    requires Inv(s) && Possible(s, run) && Alone(s) && NobodyJoins(s, run)
    ensures Alone(Exec(s, run))
    decreases |run|
  {
    if run != [] {
      ExclusiveExactly(s, run[0]);
      StepKeeps(s, run[0]);
      ExclusiveRun(Next(s, run[0]), run[1..]);
    }
  }

  lemma PromiscuousStep(s: Device, e: Event)
    requires Enabled(s, e) && (s.promiscuous ==> s.exclusive)
    ensures Next(s, e).promiscuous ==> Next(s, e).exclusive
  {
    hide BeginIO, ServeOne, PacketReceived, AbortIO;
  }

  /** Promiscuous mode is never on without the exclusive flag, in any run. */
  lemma {:induction false} PromiscuousIsExclusive(s: Device, run: seq<Event>)
    requires Possible(s, run) && (s.promiscuous ==> s.exclusive)
    ensures Exec(s, run).promiscuous ==> Exec(s, run).exclusive
    decreases |run|
  {
    if run != [] {
      PromiscuousStep(s, run[0]);
      PromiscuousIsExclusive(Next(s, run[0]), run[1..]);
    }
  }

  // ---- Replies to reads ----

  predicate SameRead(r: Request, r': Request) {
    IsRead(r.command) ==> r'.command == r.command && r'.opener == r.opener && r'.quick == r.quick
  }

  lemma SameReadFrom(d: Unit, d': Unit, x: Id)
    requires AnswerKept(d, d', x)
    ensures SameRead(Of(d.reqs, x), Of(d'.reqs, x))
  {
  }

  lemma BegunReadKept(s: Device, id: Id, r: Request, env: Env, x: Id)
    requires Inv(s) && Enabled(s, Begin(id, r, env))
    ensures var given := s.unit.(reqs := s.unit.reqs[id := r]); AnswerKept(given, BeginIO(given, id, env), x)
  {
    var given := s.unit.(reqs := s.unit.reqs[id := r]);
    BeginLedger(s, id, r, env);
    RoomIsAbsent(given, id);
    BeginAnswers(given, id, env);
  }

  lemma ServedReadKept(s: Device, env: Env, x: Id)
    requires Inv(s) && Enabled(s, Serve(env))
    ensures AnswerKept(s.unit, ServeOne(s.unit, env), x)
  {
    var popped, id := s.unit.(port := s.unit.port[1..]), s.unit.port[0];
    OnceByLedger(s);
    assert id in s.unit.port;
    if id in s.unit.done {
      DoneIsAbsent(s.unit, id);
    }
    PerformAnswers(popped, id, env);
    assert AnswerKept(popped, ServeOne(s.unit, env), x);
  }

  lemma ClosedReadKept(d: Unit, handle: nat, x: Id)
    ensures SameRead(Of(d.reqs, x), Of(RemoveOpener(d, handle).reqs, x))
  {
    var k := OpenerAt(d.openers, handle);
    if k < |d.openers| {
      AbortEachAt(d.reqs, d.openers[k].rxQueue, x);
    }
  }

  lemma OpenRequestsKept(s: Device, handle: nat, unitNumber: nat, mine: bool, prom: bool, o: Setting)
    ensures var s' := OpenDevice(s, handle, unitNumber, mine, prom, o).0;
            s'.unit.reqs == s.unit.reqs && s'.submitted == s.submitted && s.handles <= s'.handles
  {
    OpenOutcome(s, handle, unitNumber, mine, prom, o);
  }

  lemma ReadKeptStep(s: Device, e: Event, x: Id)
    requires Inv(s) && Enabled(s, e) && x in s.submitted
    ensures SameRead(Of(s.unit.reqs, x), Of(Next(s, e).unit.reqs, x)) && x in Next(s, e).submitted
  {
    hide BeginIO, ServeOne, PacketReceived, AbortIO, OpenDevice;
    match e
    case Begin(id, r, env) =>
      BegunReadKept(s, id, r, env, x);
      SameReadFrom(s.unit.(reqs := s.unit.reqs[id := r]), Next(s, e).unit, x);
    case Serve(env) =>
      ServedReadKept(s, env, x);
      SameReadFrom(s.unit, Next(s, e).unit, x);
    case Receive(frame, size, env) =>
      ShrinksReceive(s.unit, frame, size, env);
      SameReadFrom(s.unit, Next(s, e).unit, x);
    case Abort(id) =>
      ShrinksAbort(s.unit, id);
      SameReadFrom(s.unit, Next(s, e).unit, x);
    case Open(handle, unitNumber, mine, prom, o) => OpenRequestsKept(s, handle, unitNumber, mine, prom, o);
    case Close(handle) => ClosedReadKept(s.unit, handle, x);
  }

  lemma {:induction false} ReadKeptRun(s: Device, run: seq<Event>, x: Id)
    requires Inv(s) && Possible(s, run) && x in s.submitted
    ensures SameRead(Of(s.unit.reqs, x), Of(Exec(s, run).unit.reqs, x))
    decreases |run|
  {
    if run != [] {
      ReadKeptStep(s, run[0], x);
      StepKeeps(s, run[0]);
      ReadKeptRun(Next(s, run[0]), run[1..], x);
    }
  }

  /**
   * Reads are queued with their quick flag untouched, so a read is replied to exactly if it was completed and its
   * client had not asked for quick I/O: a quick read that had to wait is completed without anyone being told.
   */
  lemma QuickReadsGetNoReply(run: seq<Event>, id: Id, r: Request, env: Env, rest: seq<Event>)
    requires Possible(Closed(), run) && Enabled(Exec(Closed(), run), Begin(id, r, env)) && IsRead(r.command)
    requires Possible(Next(Exec(Closed(), run), Begin(id, r, env)), rest)
    ensures var d := Exec(Next(Exec(Closed(), run), Begin(id, r, env)), rest).unit;
            Of(d.reqs, id).replied <==> id in d.done && !r.quick
  {
    var s := Exec(Closed(), run);
    var s1 := Next(s, Begin(id, r, env));
    RunHolds(run);
    StepKeeps(s, Begin(id, r, env));
    RunKeeps(s1, rest);
    ReadKeptRun(s1, rest, id);
    BegunRead(s, id, r, env);
    assert Answered(Exec(s1, rest).unit, id);
  }

  lemma BegunRead(s: Device, id: Id, r: Request, env: Env)
    requires Inv(s) && Enabled(s, Begin(id, r, env)) && IsRead(r.command)
    ensures var r' := Of(Next(s, Begin(id, r, env)).unit.reqs, id); r'.command == r.command && r'.quick == r.quick
  {
    BegunReadKept(s, id, r, env, id);
  }

  // ---- Orphan reads and their openers ----

  /** An orphan read waits whose buffer management entry is no longer there. */
  predicate OutlivesOpener(s: Device, x: Id) {
    x in s.unit.orphans && Of(s.unit.reqs, x).opener !in s.handles
  }

  lemma WaitingOrphan(s: Device, x: Id)
    requires Inv(s) && x in s.unit.orphans
    ensures x in s.submitted && Of(s.unit.reqs, x).command == ReadOrphan && s.present
  {
    assert Tally(s.unit, x) + Occurs(s.abandoned, x) == Occurs(s.submitted, x);
    assert InOrphans(Of(s.unit.reqs, x));
  }

  lemma OrphansAtClose(s: Device, handle: nat)
    requires Inv(s) && handle in s.handles
    ensures CloseDevice(s, handle).unit.orphans == if s.openCnt == 1 then [] else s.unit.orphans
  {
    assert s.openCnt == s.unit.openCnt;
    hide Inv;
  }

  /**
   * A step takes the opener of a waiting orphan read away exactly if it closes that opener while another one keeps the
   * unit: closing aborts an opener's reads, but not its orphan reads.
   */
  lemma OrphanLosesOpener(s: Device, e: Event, x: Id)
    requires Inv(s) && Enabled(s, e) && x in s.unit.orphans && Of(s.unit.reqs, x).opener in s.handles
    ensures OutlivesOpener(Next(s, e), x) <==> e == Close(Of(s.unit.reqs, x).opener) && s.openCnt > 1
  {
    hide BeginIO, ServeOne, PacketReceived, AbortIO, OpenDevice, CloseDevice;
    WaitingOrphan(s, x);
    ReadKeptStep(s, e, x);
    match e
    case Open(handle, unitNumber, mine, prom, o) => OpenRequestsKept(s, handle, unitNumber, mine, prom, o);
    case Close(handle) => HandlesAtClose(s, handle);
    case _ =>
  }

  lemma HandlesAtClose(s: Device, handle: nat)
    requires Inv(s)
    ensures CloseDevice(s, handle).handles == s.handles - {handle}
    ensures handle in s.handles ==>
              s.openCnt >= 1 && CloseDevice(s, handle).unit.orphans == if s.openCnt == 1 then [] else s.unit.orphans
  {
    if handle in s.handles {
      OrphansAtClose(s, handle);
      HandleThere(s.unit.openers, s.handles, handle);
    }
  }
}
