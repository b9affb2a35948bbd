/** The device over whole runs: any sequence of opens, closes, requests, received packets and aborts. */
module Sana2Runs {
  import opened Words
  import opened Frames
  import opened Sana2Requests
  import opened Sana2Accounts
  import opened Sana2Invariants
  import opened Sana2Replies
  import opened Sana2Device

  /** Begin: a client hands in a request; Serve: the unit process takes one off its port. */
  datatype Event = Begin(id: Id, request: Request, env: Env) | Serve(env: Env)
                 | Receive(frame: Frame, size: U16, env: Env) | Abort(id: Id)
                 | Open(handle: nat, unitNumber: nat, mine: bool, prom: bool, setting: Setting) | Close(handle: nat)

  /** Requests come from clients that have the device open, and each arrival has its own name. */
  predicate Enabled(s: Device, e: Event) {
    match e
    case Begin(id, r, env) => s.present && id !in s.submitted && !r.replied
    case Serve(env) => s.present && s.unit.port != []
    case Receive(frame, size, env) => s.present
    case Abort(id) => s.present
    case Open(handle, unitNumber, mine, prom, o) => handle != 0 && handle !in s.handles
    case Close(handle) => true
  }

  function Next(s: Device, e: Event): (s': Device)
    requires Enabled(s, e)
  {
    match e
    case Begin(id, r, env) =>
      s.(unit := BeginIO(s.unit.(reqs := s.unit.reqs[id := r]), id, env), submitted := s.submitted + [id])
    case Serve(env) => s.(unit := ServeOne(s.unit, env))
    case Receive(frame, size, env) => s.(unit := PacketReceived(s.unit, frame, size, env))
    case Abort(id) => s.(unit := AbortIO(s.unit, id))
    case Open(handle, unitNumber, mine, prom, o) => OpenDevice(s, handle, unitNumber, mine, prom, o).0
    case Close(handle) => CloseDevice(s, handle)
  }

  predicate Possible(s: Device, run: seq<Event>)
    decreases |run|
  {
    run == [] || (Enabled(s, run[0]) && Possible(Next(s, run[0]), run[1..]))
  }

  function Exec(s: Device, run: seq<Event>): (s': Device)
    requires Possible(s, run)
    decreases |run|
  {
    if run == [] then s else Exec(Next(s, run[0]), run[1..])
  }

  // ---- The invariant ----

  /** Each request that arrived is in exactly one place: a list of the unit, the completed ones, or left behind. */
  ghost predicate Ledger(s: Device) {
    forall x :: Tally(s.unit, x) + Occurs(s.abandoned, x) == Occurs(s.submitted, x) && Occurs(s.submitted, x) <= 1
  }

  ghost predicate AllAnswered(d: Unit) {
    forall x :: Answered(d, x)
  }

  /** The open counts are the number of buffer management entries, one for each valid handle. */
  ghost predicate OpenCounts(s: Device) {
    && s.openCnt == s.unit.openCnt == |s.unit.openers|
    && HandlesMatch(s.unit.openers, s.handles) && DistinctIds(s.unit.openers) && 0 !in s.handles
  }

  ghost predicate HandlesMatch(openers: seq<Opener>, handles: set<nat>) {
    forall h :: h in handles <==> exists k :: 0 <= k < |openers| && openers[k].id == h
  }

  predicate DistinctIds(openers: seq<Opener>) {
    forall j, k :: 0 <= j < k < |openers| ==> openers[j].id != openers[k].id
  }

  /** Without a unit nobody has the device open and nothing waits. */
  predicate Vacant(s: Device) {
    !s.present ==> s.unit.openers == [] && s.unit.port == [] && s.unit.orphans == [] && s.unit.events == [] && !s.unit.online
  }

  ghost predicate Inv(s: Device) {
    Ledger(s) && Good(s.unit) && AllAnswered(s.unit) && OpenCounts(s) && Vacant(s)
  }

  lemma OnceByLedger(s: Device)
    requires Ledger(s)
    ensures Once(s.unit)
  {
    forall x ensures Tally(s.unit, x) <= 1 {
      assert Tally(s.unit, x) + Occurs(s.abandoned, x) == Occurs(s.submitted, x);
    }
  }

  lemma AnsweredKept(d: Unit, d': Unit)
    requires AllAnswered(d) && AnswersKept(d, d')
    ensures AllAnswered(d')
  {
    forall x ensures Answered(d', x) {
      assert AnswerKept(d, d', x) && Answered(d, x);
    }
  }

  lemma AnsweredSame(d: Unit, d': Unit)
    requires AllAnswered(d) && d'.reqs == d.reqs && d'.done == d.done
    ensures AllAnswered(d')
  {
    forall x ensures Answered(d', x) {
      assert Answered(d, x);
    }
  }

  lemma LedgerKept(s: Device, s': Device)
    requires Ledger(s) && s'.abandoned == s.abandoned && s'.submitted == s.submitted
    requires forall x :: Tally(s'.unit, x) == Tally(s.unit, x)
    ensures Ledger(s')
  {
    forall x ensures Tally(s'.unit, x) + Occurs(s'.abandoned, x) == Occurs(s'.submitted, x) && Occurs(s'.submitted, x) <= 1 {
      assert Tally(s.unit, x) + Occurs(s.abandoned, x) == Occurs(s.submitted, x);
    }
  }

  lemma OpenCountsKept(s: Device, s': Device)
    requires OpenCounts(s) && SameOpeners(s.unit, s'.unit) && s'.openCnt == s.openCnt && s'.handles == s.handles
    ensures OpenCounts(s')
  {
    HandlesSame(s.unit.openers, s'.unit.openers, s.handles);
  }

  lemma HandlesSame(openers: seq<Opener>, openers': seq<Opener>, handles: set<nat>)
    requires HandlesMatch(openers, handles) && |openers'| == |openers|
    requires forall k :: 0 <= k < |openers| ==> openers'[k].id == openers[k].id
    ensures HandlesMatch(openers', handles)
  {
    forall h | h in handles ensures exists k :: 0 <= k < |openers'| && openers'[k].id == h {
      var k :| 0 <= k < |openers| && openers[k].id == h;
      assert openers'[k].id == h;
    }
  }

  /** Requests, packets and aborts keep the invariant if they keep the unit's. */
  lemma UnitStep(s: Device, s': Device)
    requires Inv(s) && s.present && s' == s.(unit := s'.unit)
    requires Good(s'.unit) && AnswersKept(s.unit, s'.unit) && SameOpeners(s.unit, s'.unit)
    requires forall x :: Tally(s'.unit, x) == Tally(s.unit, x)
    ensures Inv(s')
  {
    LedgerKept(s, s');
    AnsweredKept(s.unit, s'.unit);
    OpenCountsKept(s, s');
  }

  lemma ServeKeeps(s: Device, env: Env)
    requires Inv(s) && Enabled(s, Serve(env))
    ensures Inv(Next(s, Serve(env)))
  {
    var s' := Next(s, Serve(env));
    OnceByLedger(s);
    ServeGood(s.unit, env);
    forall x ensures Tally(s'.unit, x) == Tally(s.unit, x) {
      CountServe(s.unit, env, x);
    }
    var popped, id := s.unit.(port := s.unit.port[1..]), s.unit.port[0];
    assert id in s.unit.port;
    if id in s.unit.done {
      DoneIsAbsent(s.unit, id);
    }
    PerformAnswers(popped, id, env);
    AnswersFrom(s.unit, popped, s'.unit);
    PerformMode(popped, id, env);
    UnitStep(s, s');
  }

  lemma ReceiveKeeps(s: Device, frame: Frame, size: U16, env: Env)
    requires Inv(s) && s.present
    ensures Inv(Next(s, Receive(frame, size, env)))
  {
    var s' := Next(s, Receive(frame, size, env));
    OnceByLedger(s);
    ReceiveGood(s.unit, frame, size, env);
    forall x ensures Tally(s'.unit, x) == Tally(s.unit, x) {
      CountReceive(s.unit, frame, size, env, x);
    }
    ShrinksReceive(s.unit, frame, size, env);
    UnitStep(s, s');
  }

  lemma AbortKeeps(s: Device, id: Id)
    requires Inv(s) && s.present
    ensures Inv(Next(s, Abort(id)))
  {
    var s' := Next(s, Abort(id));
    OnceByLedger(s);
    AbortGood(s.unit, id);
    forall x ensures Tally(s'.unit, x) == Tally(s.unit, x) {
      CountAbort(s.unit, id, x);
    }
    ShrinksAbort(s.unit, id);
    UnitStep(s, s');
  }

  lemma BeginLedger(s: Device, id: Id, r: Request, env: Env)
    requires Inv(s) && Enabled(s, Begin(id, r, env))
    ensures Ledger(Next(s, Begin(id, r, env)))
    ensures Room(s.unit.(reqs := s.unit.reqs[id := r]), id)
  {
    var s', given := Next(s, Begin(id, r, env)), s.unit.(reqs := s.unit.reqs[id := r]);
    forall x
      ensures Tally(given, x) + One(id, x) <= 1
      ensures Tally(s'.unit, x) + Occurs(s'.abandoned, x) == Occurs(s'.submitted, x) && Occurs(s'.submitted, x) <= 1
    {
      CountBegin(given, id, env, x);
      OccursConcat(s.submitted, [id], x);
      assert Tally(s.unit, x) + Occurs(s.abandoned, x) == Occurs(s.submitted, x) && Occurs(s.submitted, x) <= 1;
    }
  }

  lemma GivenAnswered(d: Unit, id: Id, r: Request, env: Env)
    requires AllAnswered(d) && d.tx == [] && id !in d.done && !r.replied
    ensures AllAnswered(BeginIO(d.(reqs := d.reqs[id := r]), id, env))
  {
    var given := d.(reqs := d.reqs[id := r]);
    BeginAnswers(given, id, env);
    forall x ensures Answered(given, x) {
      assert Answered(d, x);
    }
    AnsweredKept(given, BeginIO(given, id, env));
  }

  lemma BeginKeeps(s: Device, id: Id, r: Request, env: Env)
    requires Inv(s) && Enabled(s, Begin(id, r, env))
    ensures Inv(Next(s, Begin(id, r, env)))
  {
    var s', given := Next(s, Begin(id, r, env)), s.unit.(reqs := s.unit.reqs[id := r]);
    BeginLedger(s, id, r, env);
    RoomIsAbsent(given, id);
    RecordGood(s.unit, id, r);
    BeginGood(given, id, env);
    GivenAnswered(s.unit, id, r, env);
    BeginMode(given, id, env);
    OpenCountsKept(s, s');
  }

  // ---- Opening ----

  predicate SameButFlags(s: Device, s': Device) {
    s' == s.(exclusive := s'.exclusive, promiscuous := s'.promiscuous)
  }

  lemma FlagsKeep(s: Device, s': Device)
    requires Inv(s) && SameButFlags(s, s')
    ensures Inv(s')
  {
    LedgerKept(s, s');
  }

  lemma InitKeeps(s: Device, o: Setting)
    requires Inv(s)
    ensures Inv(InitUnitProcess(s, o))
  {
    var s' := InitUnitProcess(s, o);
    if !s.present && o.process {
      assert s'.unit == s.unit.(config := false, station := o.address);
      LedgerKept(s, s');
      AnsweredSame(s.unit, s'.unit);
    }
  }

  lemma AddedGood(d: Unit, handle: nat)
    requires Good(d)
    ensures Good(WithOpener(d, handle)) && Reads(WithOpener(d, handle).openers) == Reads(d.openers)
  {
    var d', n := WithOpener(d, handle), |d.openers|;
    assert d'.openers[..n] == d.openers && d'.openers[n].rxQueue == [];
    forall k, x | 0 <= k < |d'.openers| && x in d'.openers[k].rxQueue
      ensures InRxQueue(Of(d'.reqs, x), d'.openers[k].id)
    {
      assert k < n && d'.openers[k] == d.openers[k];
    }
  }

  lemma AddedHandle(openers: seq<Opener>, handles: set<nat>, handle: nat)
    requires HandlesMatch(openers, handles) && DistinctIds(openers) && handle !in handles
    ensures var after := openers + [Opener(handle, [])];
            HandlesMatch(after, handles + {handle}) && DistinctIds(after)
  {
    var after, n := openers + [Opener(handle, [])], |openers|;
    assert after[n].id == handle;
    forall h | h in handles ensures exists k :: 0 <= k < |after| && after[k].id == h {
      var k :| 0 <= k < n && openers[k].id == h;
      assert after[k].id == h;
    }
    forall k | 0 <= k < n ensures after[k] == openers[k] && after[k].id in handles {
    }
  }

  lemma AddedLedger(s: Device, handle: nat)
    requires Ledger(s) && Reads(WithOpener(s.unit, handle).openers) == Reads(s.unit.openers)
    ensures Ledger(AddOpener(s, handle))
  {
    LedgerKept(s, AddOpener(s, handle));
  }

  lemma AddOpenerKeeps(s: Device, handle: nat)
    requires Inv(s) && s.present && handle != 0 && handle !in s.handles
    ensures Inv(AddOpener(s, handle))
  {
    hide Good, Ledger, AllAnswered, HandlesMatch, DistinctIds;
    AddedGood(s.unit, handle);
    AddedHandle(s.unit.openers, s.handles, handle);
    AddedLedger(s, handle);
    AnsweredSame(s.unit, WithOpener(s.unit, handle));
  }

  lemma AdmitOutcome(s: Device, handle: nat, mine: bool, prom: bool, o: Setting)
    ensures var (s', ok) := Admitted(s, handle, mine, prom, o);
            var s1 := s.(exclusive := s'.exclusive, promiscuous := s'.promiscuous);
            var s2 := InitUnitProcess(s1, o);
            if ok then s2.present && s' == AddOpener(s2, handle) else s' == s1 || s' == s2
  {
    assert SameButFlags(s, Flagged(s, mine, prom).0);
  }

  lemma CountAside(s: Device, handle: nat, o: Setting)
    ensures var counted := s.(openCnt := s.openCnt + 1);
            && InitUnitProcess(counted, o) == InitUnitProcess(s, o).(openCnt := s.openCnt + 1)
            && AddOpener(counted, handle) == AddOpener(s, handle).(openCnt := s.openCnt + 2)
  {
  }

  /** What an open leaves: flags set, perhaps a unit brought up, and on success one opener more. */
  lemma OpenOutcome(s: Device, handle: nat, unitNumber: nat, mine: bool, prom: bool, o: Setting)
    ensures var (s', ok) := OpenDevice(s, handle, unitNumber, mine, prom, o);
            var s1 := s.(exclusive := s'.exclusive, promiscuous := s'.promiscuous);
            var s2 := InitUnitProcess(s1, o);
            if ok then s2.present && s' == AddOpener(s2, handle) else s' == s1 || s' == s2
  {
    if o.stack && unitNumber < ED_MAXUNITS {
      var counted := s.(openCnt := s.openCnt + 1);
      AdmitOutcome(counted, handle, mine, prom, o);
      var a := Admitted(counted, handle, mine, prom, o).0;
      var s1 := s.(exclusive := a.exclusive, promiscuous := a.promiscuous);
      CountAside(s1, handle, o);
      CountAside(InitUnitProcess(s1, o), handle, o);
    }
  }

  lemma OpenKeeps(s: Device, handle: nat, unitNumber: nat, mine: bool, prom: bool, o: Setting)
    requires Inv(s) && handle != 0 && handle !in s.handles
    ensures Inv(OpenDevice(s, handle, unitNumber, mine, prom, o).0)
  {
    OpenOutcome(s, handle, unitNumber, mine, prom, o);
    var s' := OpenDevice(s, handle, unitNumber, mine, prom, o).0;
    var s1 := s.(exclusive := s'.exclusive, promiscuous := s'.promiscuous);
    FlagsKeep(s, s1);
    InitKeeps(s1, o);
    if InitUnitProcess(s1, o).present {
      AddOpenerKeeps(InitUnitProcess(s1, o), handle);
    }
  }

  // ---- Closing ----

  lemma DroppedLast(openers: seq<Opener>, k: nat)
    requires k < |openers| - 1
    ensures var n, rest := |openers| - 1, Dropped(openers, k);
            |rest| == n && rest[..n - 1] == Dropped(openers[..n], k) && rest[n - 1] == openers[n] && openers[..n][k] == openers[k]
  {
  }

  lemma {:induction false} ReadsDropped(openers: seq<Opener>, k: nat, x: Id)
    requires k < |openers|
    ensures Occurs(Reads(Dropped(openers, k)), x) + Occurs(openers[k].rxQueue, x) == Occurs(Reads(openers), x)
    decreases |openers|
  {
    var n := |openers| - 1;
    var init, last := openers[..n], openers[n].rxQueue;
    OccursConcat(Reads(init), last, x);
    if k == n {
      assert Dropped(openers, k) == init;
    } else {
      DroppedLast(openers, k);
      ReadsLast(Dropped(openers, k), Dropped(init, k), openers[n]);
      OccursConcat(Reads(Dropped(init, k)), last, x);
      ReadsDropped(init, k, x);
    }
  }

  lemma ReadsLast(openers: seq<Opener>, init: seq<Opener>, last: Opener)
    requires openers != [] && openers[..|openers| - 1] == init && openers[|openers| - 1] == last
    ensures Reads(openers) == Reads(init) + last.rxQueue
  {
  }

  lemma CountRemoved(d: Unit, handle: nat, x: Id)
    ensures Tally(RemoveOpener(d, handle), x) == Tally(d, x)
  {
    var k := OpenerAt(d.openers, handle);
    if k < |d.openers| {
      ReadsDropped(d.openers, k, x);
      OccursConcat(d.done, d.openers[k].rxQueue, x);
    }
  }

  lemma RemovedAnswers(d: Unit, handle: nat)
    requires AllAnswered(d)
    ensures AllAnswered(RemoveOpener(d, handle))
  {
    var k, d' := OpenerAt(d.openers, handle), RemoveOpener(d, handle);
    if k < |d.openers| {
      forall x ensures Answered(d', x) {
        AbortEachAt(d.reqs, d.openers[k].rxQueue, x);
        assert Answered(d, x);
      }
    }
  }

  lemma RemovedGood(d: Unit, handle: nat)
    requires Good(d) && Once(d)
    ensures Good(RemoveOpener(d, handle))
  {
    var k, d' := OpenerAt(d.openers, handle), RemoveOpener(d, handle);
    if k < |d.openers| {
      assert Once(d') by {
        forall x ensures Tally(d', x) <= 1 {
          CountRemoved(d, handle, x);
          assert Tally(d, x) <= 1;
        }
      }
      forall x | !Absent(d', x) ensures Of(d'.reqs, x) == Of(d.reqs, x) {
        AbortEachAt(d.reqs, d.openers[k].rxQueue, x);
        if x in d'.done {
          DoneIsAbsent(d', x);
        }
      }
      forall j, x | 0 <= j < |d'.openers| && x in d'.openers[j].rxQueue
        ensures InRxQueue(Of(d'.reqs, x), d'.openers[j].id)
      {
        var i := if j < k then j else j + 1;
        assert d'.openers[j] == d.openers[i] && x in d.openers[i].rxQueue && !Absent(d', x);
      }
    }
  }

  lemma DroppedAt(openers: seq<Opener>, k: nat, j: nat)
    requires k < |openers| && j < |openers| - 1
    ensures Dropped(openers, k)[j] == openers[if j < k then j else j + 1]
  {
  }

  lemma HandleThere(openers: seq<Opener>, handles: set<nat>, handle: nat)
    requires HandlesMatch(openers, handles) && handle in handles
    ensures OpenerAt(openers, handle) < |openers|
  {
    var k :| 0 <= k < |openers| && openers[k].id == handle;
  }

  lemma DroppedHandle(openers: seq<Opener>, handles: set<nat>, handle: nat, k: nat)
    requires HandlesMatch(openers, handles) && DistinctIds(openers) && k < |openers| && openers[k].id == handle
    ensures HandlesMatch(Dropped(openers, k), handles - {handle}) && DistinctIds(Dropped(openers, k))
  {
    var after := Dropped(openers, k);
    forall j | 0 <= j < |after| ensures after[j] == openers[if j < k then j else j + 1] {
      DroppedAt(openers, k, j);
    }
    forall h | h in handles - {handle} ensures exists j :: 0 <= j < |after| && after[j].id == h {
      var i :| 0 <= i < |openers| && openers[i].id == h;
      assert after[if i < k then i else i - 1].id == h;
    }
  }

  lemma ExpungeKeeps(s: Device)
    requires Inv(s) && s.unit.openCnt == 0
    ensures Inv(ExpungeUnit(s))
  {
    var s' := ExpungeUnit(s);
    if s.present {
      forall x ensures Tally(s'.unit, x) + Occurs(s'.abandoned, x) == Occurs(s'.submitted, x) && Occurs(s'.submitted, x) <= 1 {
        OccursConcat(s.abandoned, LeftBehind(s.unit), x);
        OccursConcat(s.unit.port + s.unit.tx + s.unit.orphans, s.unit.events, x);
        OccursConcat(s.unit.port + s.unit.tx, s.unit.orphans, x);
        OccursConcat(s.unit.port, s.unit.tx, x);
        assert Tally(s.unit, x) + Occurs(s.abandoned, x) == Occurs(s.submitted, x);
      }
      AnsweredSame(s.unit, s'.unit);
    }
  }

  lemma DetachKeeps(s: Device, handle: nat)
    requires Inv(s) && handle in s.handles
    ensures Inv(Detached(s, handle).(openCnt := s.openCnt - 1))
  {
    var d, s' := RemoveOpener(s.unit, handle), Detached(s, handle).(openCnt := s.openCnt - 1);
    OnceByLedger(s);
    RemovedGood(s.unit, handle);
    RemovedAnswers(s.unit, handle);
    AnsweredSame(d, s'.unit);
    HandleThere(s.unit.openers, s.handles, handle);
    DroppedHandle(s.unit.openers, s.handles, handle, OpenerAt(s.unit.openers, handle));
    forall x ensures Tally(s'.unit, x) == Tally(s.unit, x) {
      CountRemoved(s.unit, handle, x);
    }
    LedgerKept(s, s');
  }

  lemma CloseKeeps(s: Device, handle: nat)
    requires Inv(s)
    ensures Inv(CloseDevice(s, handle))
  {
    if handle in s.handles {
      var s1 := Detached(s, handle).(openCnt := s.openCnt - 1);
      DetachKeeps(s, handle);
      if s1.unit.openCnt == 0 {
        ExpungeKeeps(s1);
      }
    }
  }

  // ---- Whole runs ----

  lemma StepKeeps(s: Device, e: Event)
    requires Inv(s) && Enabled(s, e)
    ensures Inv(Next(s, e))
  {
    match e
    case Begin(id, r, env) => BeginKeeps(s, id, r, env);
    case Serve(env) => ServeKeeps(s, env);
    case Receive(frame, size, env) => ReceiveKeeps(s, frame, size, env);
    case Abort(id) => AbortKeeps(s, id);
    case Open(handle, unitNumber, mine, prom, o) => OpenKeeps(s, handle, unitNumber, mine, prom, o);
    case Close(handle) => CloseKeeps(s, handle);
  }

  lemma {:induction false} RunKeeps(s: Device, run: seq<Event>)
    requires Inv(s) && Possible(s, run)
    ensures Inv(Exec(s, run))
    decreases |run|
  {
    if run != [] {
      StepKeeps(s, run[0]);
      RunKeeps(Next(s, run[0]), run[1..]);
    }
  }
}
