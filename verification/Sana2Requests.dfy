/**
 * The request engine of the SANA-II device as functions on its state: what each command, each received packet and
 * each abort does to the requests and to the lists they wait in.
 */
module Sana2Requests {
  import opened Words
  import opened Frames

  type Id = nat

  const S2ERR_NO_RESOURCES := 1
  const S2ERR_BAD_ARGUMENT := 3
  const S2ERR_BAD_STATE := 4
  const S2ERR_MTU_EXCEEDED := 6
  const S2ERR_NOT_SUPPORTED := 8
  const S2ERR_SOFTWARE := 9
  const S2ERR_OUTOFSERVICE := 10
  const IOERR_ABORTED := -2

  // Event bits, and wire errors by the bits of their codes 0, 1, 3, 6 and 15: both live in the same request field.
  const TX := 1
  const ONLINE := 3
  const OFFLINE := 4
  const BUFF := 5
  const GENERIC_ERROR: set<int> := {}
  const NOT_CONFIGURED: set<int> := {0}
  const UNIT_OFFLINE: set<int> := {0, 1}
  const BUFF_ERROR: set<int> := {1, 2}
  const IS_CONFIGURED: set<int> := {0, 1, 2, 3}

  /** Query stands for the commands that only fill in or look up data; Now marks command codes from 0x4000 on. */
  datatype Command = Write | Read | Broadcast | Multicast | ReadOrphan | Flush | OnEvent | Online | Offline | Configure
                   | Query | QueryNow | Unknown | UnknownNow

  /** opener: the buffer management entry the request names, 0 for none. pending: its node type says NT_MESSAGE. */
  datatype Request = Request(command: Command, raw: bool, quick: bool, pending: bool, replied: bool, error: int,
                             wire: set<int>, packetType: nat, dataLength: nat, opener: nat, dst: seq<Byte>,
                             src: seq<Byte>, broadcast: bool, multicast: bool, data: seq<Byte>)

  const BLANK := Request(Unknown, false, false, false, false, 0, {}, 0, 0, 0, [], [], false, false, [])

  datatype Opener = Opener(id: nat, rxQueue: seq<Id>)

  /** The interrupt side of going online: servers and signals count what was added and not removed. */
  datatype Irq = Irq(installed: bool, servers: int, signals: int)

  /** done: the requests TermIO was called on, in order; sent: those whose packet went to the chip driver. */
  datatype Unit = Unit(reqs: map<Id, Request>, port: seq<Id>, tx: seq<Id>, orphans: seq<Id>, events: seq<Id>,
                       openers: seq<Opener>, done: seq<Id>, sent: seq<Id>, online: bool, config: bool,
                       station: seq<Byte>, irq: Irq, openCnt: int)

  /** What clients and the system answer during a call: which requests their callbacks serve, whether AllocSignal
      succeeds, and the result of a query command. */
  datatype Env = Env(dma: set<Id>, copyFrom: set<Id>, accepts: set<Id>, copyTo: set<Id>, signal: bool, error: int,
                     wire: set<int>)

  function Of(reqs: map<Id, Request>, id: Id): (r: Request) {
    if id in reqs then reqs[id] else BLANK
  }

  // ---- Completion ----

  /** TermIO: a request is replied to, and stops being pending, unless it is marked quick. */
  function Terminated(r: Request): (t: Request) {
    r.(pending := r.pending && r.quick, replied := r.replied || !r.quick)
  }

  function Finish(d: Unit, id: Id, r: Request): (d': Unit) {
    d.(reqs := d.reqs[id := Terminated(r)], done := d.done + [id])
  }

  function Fail(d: Unit, id: Id, error: int, wire: set<int>): (d': Unit) {
    Finish(d, id, Of(d.reqs, id).(error := error, wire := wire))
  }

  function Aborted(r: Request): (t: Request) {
    Terminated(r.(error := IOERR_ABORTED))
  }

  function AbortOne(d: Unit, id: Id): (d': Unit) {
    Finish(d, id, Of(d.reqs, id).(error := IOERR_ABORTED))
  }

  function AbortEach(reqs: map<Id, Request>, ids: seq<Id>): (after: map<Id, Request>)
    decreases |ids|
  {
    if ids == [] then reqs
    else
      var n, before := |ids| - 1, AbortEach(reqs, ids[..|ids| - 1]);
      before[ids[n] := Aborted(Of(before, ids[n]))]
  }

  function AbortAll(d: Unit, ids: seq<Id>): (d': Unit) {
    d.(reqs := AbortEach(d.reqs, ids), done := d.done + ids)
  }

  lemma {:induction false} AbortEachAt(reqs: map<Id, Request>, ids: seq<Id>, x: Id)
    ensures Of(AbortEach(reqs, ids), x) == if x in ids then Aborted(Of(reqs, x)) else Of(reqs, x)
    decreases |ids|
  {
    if ids != [] {
      var n := |ids| - 1;
      AbortEachAt(reqs, ids[..n], x);
      assert ids == ids[..n] + [ids[n]];
    }
  }

  lemma {:induction false} AbortEachConcat(reqs: map<Id, Request>, a: seq<Id>, b: seq<Id>)
    ensures AbortEach(AbortEach(reqs, a), b) == AbortEach(reqs, a + b)
    decreases |b|
  {
    if b == [] {
      assert a + b == a;
    } else {
      var n := |b| - 1;
      var init := b[..n];
      AbortEachConcat(reqs, a, init);
      assert (a + b)[..|a + b| - 1] == a + init && (a + b)[|a + b| - 1] == b[n];
    }
  }

  // ---- Events ----

  predicate WaitsFor(reqs: map<Id, Request>, id: Id, event: int) {
    event in Of(reqs, id).wire
  }

  function Hits(reqs: map<Id, Request>, ids: seq<Id>, event: int): (hits: seq<Id>)
    decreases |ids|
  {
    if ids == [] then []
    else
      var n := |ids| - 1;
      Hits(reqs, ids[..n], event) + if WaitsFor(reqs, ids[n], event) then [ids[n]] else []
  }

  function Rest(reqs: map<Id, Request>, ids: seq<Id>, event: int): (rest: seq<Id>)
    decreases |ids|
  {
    if ids == [] then []
    else
      var n := |ids| - 1;
      Rest(reqs, ids[..n], event) + if WaitsFor(reqs, ids[n], event) then [] else [ids[n]]
  }

  function Fired(r: Request, event: int): (t: Request) {
    Terminated(r.(error := 0, wire := {event}))
  }

  function FireEach(reqs: map<Id, Request>, ids: seq<Id>, event: int): (after: map<Id, Request>)
    decreases |ids|
  {
    if ids == [] then reqs
    else
      var n, before := |ids| - 1, FireEach(reqs, ids[..|ids| - 1], event);
      before[ids[n] := Fired(Of(before, ids[n]), event)]
  }

  /** DoEvent: completes the waiters of an event, in their order, and keeps the others in theirs. */
  function DoEvent(d: Unit, event: int): (d': Unit) {
    var hits := Hits(d.reqs, d.events, event);
    d.(events := Rest(d.reqs, d.events, event), done := d.done + hits, reqs := FireEach(d.reqs, hits, event))
  }

  lemma {:induction false} FireEachAt(reqs: map<Id, Request>, ids: seq<Id>, event: int, x: Id)
    ensures Of(FireEach(reqs, ids, event), x) == if x in ids then Fired(Of(reqs, x), event) else Of(reqs, x)
    decreases |ids|
  {
    if ids != [] {
      var n := |ids| - 1;
      FireEachAt(reqs, ids[..n], event, x);
      assert ids == ids[..n] + [ids[n]];
    }
  }

  /** The waiters of an event are exactly the queued requests whose mask has it, and the rest the others. */
  lemma {:induction false} HitsAndRest(reqs: map<Id, Request>, ids: seq<Id>, event: int, x: Id)
    ensures x in Hits(reqs, ids, event) <==> x in ids && WaitsFor(reqs, x, event)
    ensures x in Rest(reqs, ids, event) <==> x in ids && !WaitsFor(reqs, x, event)
    decreases |ids|
  {
    if ids != [] {
      var n := |ids| - 1;
      HitsAndRest(reqs, ids[..n], event, x);
      assert ids == ids[..n] + [ids[n]];
    }
  }

  lemma AppendOne(ids: seq<Id>, y: Id, x: Id)
    ensures multiset(ids + [y])[x] == multiset(ids)[x] + if y == x then 1 else 0
  {
    assert multiset(ids + [y]) == multiset(ids) + multiset{y};
  }

  lemma SplitStep(reqs: map<Id, Request>, ids: seq<Id>, y: Id, event: int)
    ensures var hits, rest, waits := Hits(reqs, ids, event), Rest(reqs, ids, event), WaitsFor(reqs, y, event);
            && Hits(reqs, ids + [y], event) == (if waits then hits + [y] else hits)
            && Rest(reqs, ids + [y], event) == (if waits then rest else rest + [y])
  {
    assert (ids + [y])[..|ids|] == ids;
  }

  lemma {:induction false} HitsPlusRest(reqs: map<Id, Request>, ids: seq<Id>, event: int, x: Id)
    ensures multiset(Hits(reqs, ids, event))[x] + multiset(Rest(reqs, ids, event))[x] == multiset(ids)[x]
    decreases |ids|
  {
    if ids != [] {
      var init, y := ids[..|ids| - 1], ids[|ids| - 1];
      HitsPlusRest(reqs, init, event, x);
      assert ids == init + [y];
      SplitStep(reqs, init, y, event);
      AppendOne(init, y, x);
      AppendOne(Hits(reqs, init, event), y, x);
      AppendOne(Rest(reqs, init, event), y, x);
    }
  }

  // ---- Sending ----

  datatype Verdict = Handed | Refused(error: int)

  /** What sendAllPackets makes of one request. */
  function Judge(r: Request, id: Id, env: Env): (v: Verdict) {
    if r.raw then
      if r.dataLength <= ETH_HEADER_SIZE then Refused(S2ERR_MTU_EXCEEDED)
      else if id in env.copyFrom then Handed else Refused(S2ERR_NO_RESOURCES)
    else if r.dataLength > ETHERNET_MTU then Refused(S2ERR_MTU_EXCEEDED)
    else if id in env.dma || id in env.copyFrom then Handed else Refused(S2ERR_NO_RESOURCES)
  }

  function Noted(d: Unit, id: Id, env: Env): (d': Unit)
    ensures d'.tx == d.tx && d'.port == d.port
  {
    var r := Of(d.reqs, id);
    match Judge(r, id, env)
    case Handed => d.(sent := d.sent + [id])
    case Refused(error) => d.(reqs := d.reqs[id := r.(error := error, wire := BUFF_ERROR)])
  }

  /** A wire error in the request, even one its client left there, is reported as a buffer error. */
  function Reported(d: Unit, id: Id): (d': Unit)
    ensures d'.tx == d.tx && d'.port == d.port
  {
    var told := if Of(d.reqs, id).wire != {} then DoEvent(d, BUFF) else d;
    Finish(told, id, Of(told.reqs, id))
  }

  function SendOne(d: Unit, id: Id, env: Env): (d': Unit)
    ensures d'.tx == d.tx && d'.port == d.port
  {
    Reported(Noted(d, id, env), id)
  }

  function SendAll(d: Unit, env: Env): (d': Unit)
    ensures d'.tx == [] && d'.port == d.port
    decreases |d.tx|
  {
    if d.tx == [] then d else SendAll(SendOne(d.(tx := d.tx[1..]), d.tx[0], env), env)
  }

  function WritePacket(d: Unit, id: Id, env: Env): (d': Unit) {
    var r := Of(d.reqs, id);
    if !d.online then Fail(d, id, S2ERR_OUTOFSERVICE, UNIT_OFFLINE)
    else if r.dataLength <= ETHERNET_MTU then
      SendAll(d.(reqs := d.reqs[id := r.(quick := false, pending := true)], tx := d.tx + [id]), env)
    else DoEvent(Fail(d, id, S2ERR_MTU_EXCEEDED, GENERIC_ERROR), TX)
  }

  // ---- Queuing ----

  /** Position of an opener in the list, the length of the list when it is not there. */
  function OpenerAt(openers: seq<Opener>, opener: nat): (k: nat)
    ensures k <= |openers| && (k < |openers| ==> openers[k].id == opener)
    ensures forall j :: 0 <= j < k ==> openers[j].id != opener
  {
    if openers == [] || openers[0].id == opener then 0 else 1 + OpenerAt(openers[1..], opener)
  }

  function Pending(d: Unit, id: Id): (d': Unit) {
    d.(reqs := d.reqs[id := Of(d.reqs, id).(pending := true)])
  }

  function QueueRead(openers: seq<Opener>, k: nat, id: Id): (after: seq<Opener>)
    requires k < |openers|
  {
    openers[k := openers[k].(rxQueue := openers[k].rxQueue + [id])]
  }

  function ReadPacket(d: Unit, id: Id): (d': Unit) {
    var k := OpenerAt(d.openers, Of(d.reqs, id).opener);
    if !d.online then Fail(d, id, S2ERR_OUTOFSERVICE, UNIT_OFFLINE)
    else if k == |d.openers| then Fail(d, id, S2ERR_BAD_ARGUMENT, GENERIC_ERROR)
    else Pending(d, id).(openers := QueueRead(d.openers, k, id))
  }

  function ReadOrphanPacket(d: Unit, id: Id): (d': Unit) {
    if !d.online then Fail(d, id, S2ERR_OUTOFSERVICE, UNIT_OFFLINE) else Pending(d, id).(orphans := d.orphans + [id])
  }

  /** The state a waiter asks for is there already. */
  predicate Satisfied(d: Unit, wire: set<int>) {
    (ONLINE in wire && d.online) || (OFFLINE in wire && !d.online)
  }

  function AwaitEvent(d: Unit, id: Id): (d': Unit) {
    var wire := Of(d.reqs, id).wire;
    if Satisfied(d, wire) then Fail(d, id, 0, wire * {ONLINE, OFFLINE}) else d.(events := d.events + [id])
  }

  // ---- State changes ----

  function Install(irq: Irq, signal: bool): (irq': Irq) {
    if irq.installed || !signal then irq else Irq(true, irq.servers + 1, irq.signals + 1)
  }

  function Uninstall(irq: Irq): (irq': Irq) {
    if irq.installed then Irq(false, irq.servers - 1, irq.signals - 1) else irq
  }

  /** The effect of going online, before the request is completed. */
  function RaiseUnit(d: Unit, env: Env): (d': Unit) {
    if d.online then d else DoEvent(d.(irq := Install(d.irq, env.signal), online := true), ONLINE)
  }

  function GoOnline(d: Unit, id: Id, env: Env): (d': Unit) {
    if !d.config then Fail(d, id, S2ERR_BAD_STATE, NOT_CONFIGURED)
    else var up := RaiseUnit(d, env); Finish(up, id, Of(up.reqs, id))
  }

  function ConfigureUnit(d: Unit, id: Id, env: Env): (d': Unit) {
    if d.config then Fail(d, id, S2ERR_BAD_STATE, IS_CONFIGURED)
    else GoOnline(d.(station := Of(d.reqs, id).src, config := true), id, env)
  }

  function Emptied(openers: seq<Opener>): (after: seq<Opener>)
    ensures |after| == |openers|
    ensures forall k :: 0 <= k < |openers| ==> after[k] == Opener(openers[k].id, [])
  {
    seq(|openers|, k requires 0 <= k < |openers| => Opener(openers[k].id, []))
  }

  function Reads(openers: seq<Opener>): (ids: seq<Id>)
    decreases |openers|
  {
    if openers == [] then [] else Reads(openers[..|openers| - 1]) + openers[|openers| - 1].rxQueue
  }

  /** Aborts every read, write and event request; orphan reads stay. */
  function FlushUnit(d: Unit): (d': Unit) {
    AbortAll(d.(openers := Emptied(d.openers), tx := [], events := []), Reads(d.openers) + d.tx + d.events)
  }

  function Lowered(d: Unit): (d': Unit) {
    FlushUnit(DoEvent(d.(online := false), OFFLINE))
  }

  function DropUnit(d: Unit): (d': Unit) {
    if !d.online then d else Lowered(d).(irq := Uninstall(d.irq))
  }

  function GoOffline(d: Unit, id: Id): (d': Unit) {
    var down := DropUnit(d);
    Finish(down, id, Of(down.reqs, id))
  }

  function FlushCommand(d: Unit, id: Id): (d': Unit) {
    var flushed := FlushUnit(d);
    Finish(flushed, id, Of(flushed.reqs, id))
  }

  function AnswerQuery(d: Unit, id: Id, env: Env): (d': Unit) {
    if env.error == 0 then Finish(d, id, Of(d.reqs, id)) else Fail(d, id, env.error, env.wire)
  }

  /** What a new unit starts from: the request records, completions and interrupt state are not part of it. */
  function FreshUnit(d: Unit, address: seq<Byte>): (d': Unit) {
    Unit(d.reqs, [], [], [], [], [], d.done, d.sent, false, false, address, d.irq, 0)
  }

  /** The requests a unit that shuts down does not complete. */
  function LeftBehind(d: Unit): (ids: seq<Id>) {
    d.port + d.tx + d.orphans + d.events
  }

  function ShutDown(d: Unit): (d': Unit) {
    d.(port := [], tx := [], orphans := [], events := [], online := false, config := false, irq := Uninstall(d.irq))
  }

  // ---- Dispatch ----

  function Cleared(d: Unit, id: Id): (d': Unit) {
    d.(reqs := d.reqs[id := Of(d.reqs, id).(error := 0)])
  }

  function ToAll(d: Unit, id: Id): (d': Unit) {
    d.(reqs := d.reqs[id := Of(d.reqs, id).(dst := [255, 255, 255, 255, 255, 255])])
  }

  function Execute(d: Unit, id: Id, env: Env): (d': Unit)
    ensures d'.port == d.port
  {
    match Of(d.reqs, id).command
    case Write => WritePacket(d, id, env)
    case Multicast => WritePacket(d, id, env)
    case Broadcast => WritePacket(ToAll(d, id), id, env)
    case Read => ReadPacket(d, id)
    case ReadOrphan => ReadOrphanPacket(d, id)
    case Flush => FlushCommand(d, id)
    case OnEvent => AwaitEvent(d, id)
    case Online => GoOnline(d, id, env)
    case Offline => GoOffline(d, id)
    case Configure => ConfigureUnit(d, id, env)
    case Query => AnswerQuery(d, id, env)
    case QueryNow => AnswerQuery(d, id, env)
    case Unknown => Fail(d, id, S2ERR_NOT_SUPPORTED, GENERIC_ERROR)
    case UnknownNow => Fail(d, id, S2ERR_NOT_SUPPORTED, GENERIC_ERROR)
  }

  function PerformIO(d: Unit, id: Id, env: Env): (d': Unit) {
    Execute(Cleared(d, id), id, env)
  }

  predicate AtOnce(command: Command) {
    || command == Write || command == Read || command == Broadcast || command == ReadOrphan || command == Multicast
    || command == QueryNow || command == UnknownNow
  }

  /** A request enters: performed in the caller's context, or queued for the unit process. */
  function BeginIO(d: Unit, id: Id, env: Env): (d': Unit) {
    var r := Of(d.reqs, id);
    if AtOnce(r.command) then PerformIO(d, id, env)
    else d.(reqs := d.reqs[id := r.(pending := true, quick := false)], port := d.port + [id])
  }

  /** One turn of the unit process's message loop. */
  function ServeOne(d: Unit, env: Env): (d': Unit)
    requires d.port != []
  {
    PerformIO(d.(port := d.port[1..]), d.port[0], env)
  }

  function ServeAll(d: Unit, env: Env): (d': Unit)
    decreases |d.port|
  {
    if d.port == [] then d else ServeAll(ServeOne(d, env), env)
  }

  // ---- Abort ----

  function IndexOf(ids: seq<Id>, x: Id): (i: nat)
    ensures i <= |ids| && (i < |ids| ==> ids[i] == x)
    ensures forall j :: 0 <= j < i ==> ids[j] != x
  {
    if ids == [] || ids[0] == x then 0 else 1 + IndexOf(ids[1..], x)
  }

  function Without(ids: seq<Id>, i: nat): (rest: seq<Id>)
    requires i < |ids|
  {
    ids[..i] + ids[i + 1..]
  }

  lemma WithoutOne(ids: seq<Id>, i: nat)
    requires i < |ids|
    ensures multiset(Without(ids, i)) + multiset{ids[i]} == multiset(ids)
  {
    assert ids == ids[..i] + [ids[i]] + ids[i + 1..];
  }

  function Unlinked(ids: seq<Id>, x: Id): (rest: seq<Id>) {
    var i := IndexOf(ids, x);
    if i < |ids| then Without(ids, i) else ids
  }

  /** The list AbortIO searches for a request, by the request's command. */
  datatype Place = RxQueue(k: nat) | TxPort | Events | Orphans | Nowhere

  function PlaceOf(d: Unit, id: Id): (p: Place) {
    match Of(d.reqs, id).command
    case Read => var k := OpenerAt(d.openers, Of(d.reqs, id).opener); if k < |d.openers| then RxQueue(k) else Nowhere
    case Write => TxPort
    case Broadcast => TxPort
    case OnEvent => Events
    case ReadOrphan => Orphans
    case _ => Nowhere
  }

  function ListAt(d: Unit, p: Place): (ids: seq<Id>) {
    match p
    case RxQueue(k) => if k < |d.openers| then d.openers[k].rxQueue else []
    case TxPort => d.tx
    case Events => d.events
    case Orphans => d.orphans
    case Nowhere => []
  }

  function WithList(d: Unit, p: Place, ids: seq<Id>): (d': Unit)
    ensures |d'.openers| == |d.openers|
  {
    match p
    case RxQueue(k) => if k < |d.openers| then d.(openers := d.openers[k := Opener(d.openers[k].id, ids)]) else d
    case TxPort => d.(tx := ids)
    case Events => d.(events := ids)
    case Orphans => d.(orphans := ids)
    case Nowhere => d
  }

  function UnlinkAt(d: Unit, p: Place, id: Id): (d': Unit)
    ensures |d'.openers| == |d.openers|
  {
    WithList(d, p, Unlinked(ListAt(d, p), id))
  }

  predicate Abortable(command: Command) {
    command == Read || command == Write || command == Broadcast || command == OnEvent || command == ReadOrphan
  }

  predicate AbortFinds(d: Unit, id: Id) {
    Of(d.reqs, id).pending && id in ListAt(d, PlaceOf(d, id))
  }

  function AbortIO(d: Unit, id: Id): (d': Unit) {
    if AbortFinds(d, id) then AbortOne(UnlinkAt(d, PlaceOf(d, id), id), id) else d
  }

  function AbortResult(d: Unit, id: Id): (result: int) {
    var r := Of(d.reqs, id);
    if !r.pending then 0
    else if !Abortable(r.command) then S2ERR_SOFTWARE
    else if id in ListAt(d, PlaceOf(d, id)) then IOERR_ABORTED else S2ERR_BAD_ARGUMENT
  }

  // ---- Reception ----

  predicate SameType(a: nat, b: nat) {
    a == b || (a <= ETHERNET_MTU && b <= ETHERNET_MTU)
  }

  /** The first read of a queue whose type fits the packet's; the length of the queue when there is none. */
  function FirstMatch(reqs: map<Id, Request>, ids: seq<Id>, packetType: nat): (i: nat)
    ensures i <= |ids| && (i < |ids| ==> SameType(Of(reqs, ids[i]).packetType, packetType))
    ensures forall j :: 0 <= j < i ==> !SameType(Of(reqs, ids[j]).packetType, packetType)
  {
    if ids == [] || SameType(Of(reqs, ids[0]).packetType, packetType) then 0
    else 1 + FirstMatch(reqs, ids[1..], packetType)
  }

  datatype Outcome = Rejected | Delivered | Failed

  function OutcomeOf(r: Request, id: Id, env: Env): (o: Outcome) {
    if r.opener == 0 || id !in env.accepts then Rejected else if id in env.copyTo then Delivered else Failed
  }

  /** A received packet: the memory from its first byte on, and its length. */
  type Frame = f: seq<Byte> | |f| >= ETH_MAX_FRAME_SIZE witness seq(ETH_MAX_FRAME_SIZE, i => 0)

  function TypeOf(frame: Frame): (t: U16) {
    WordOf(true, frame[12], frame[13])
  }

  predicate IsBroadcast(address: seq<Byte>) {
    address == [255, 255, 255, 255, 255, 255]
  }

  /** The request fields set before the client's filter is asked. */
  function Addressed(r: Request, frame: Frame, size: U16): (h: Request) {
    var p := Fulfil(r.raw, frame, size);
    var group := p.dst[0] % 2 == 1;
    r.(dst := p.dst, src := p.src, packetType := p.packetType, dataLength := |p.data|,
       broadcast := r.broadcast || (group && IsBroadcast(p.dst)),
       multicast := r.multicast || (group && !IsBroadcast(p.dst)))
  }

  /** A read whose fields were set to those of h, by what its client's filter and copy functions made of the data. */
  function Settled(d: Unit, id: Id, o: Outcome, h: Request, data: seq<Byte>): (d': Unit)
    ensures d'.openers == d.openers && d'.orphans == d.orphans && d'.port == d.port && d'.tx == d.tx
  {
    match o
    case Rejected => d.(reqs := d.reqs[id := h])
    case Delivered => Finish(d, id, h.(data := data))
    case Failed =>
      var failed := d.(reqs := d.reqs[id := h.(error := S2ERR_NO_RESOURCES, wire := BUFF_ERROR)]);
      var told := DoEvent(failed, BUFF);
      Finish(told, id, Of(told.reqs, id))
  }

  /** Everything fulfilling a read does except unlinking the request. */
  function Offer(d: Unit, id: Id, frame: Frame, size: U16, env: Env): (d': Unit)
    ensures d'.openers == d.openers && d'.orphans == d.orphans && d'.port == d.port && d'.tx == d.tx
  {
    var r := Of(d.reqs, id);
    if r.opener == 0 then d
    else Settled(d, id, OutcomeOf(r, id, env), Addressed(r, frame, size), Fulfil(r.raw, frame, size).data)
  }

  /** fulfillReadIORequest on a request of the list at p. */
  function FulfilRead(d: Unit, p: Place, id: Id, frame: Frame, size: U16, env: Env): (d': Unit)
    ensures |d'.openers| == |d.openers|
  {
    var offered := Offer(d, id, frame, size, env);
    if OutcomeOf(Of(d.reqs, id), id, env).Rejected? then offered else UnlinkAt(offered, p, id)
  }

  /** One opener's turn. The flag says whether the last read a packet was offered to got it. */
  function OfferToOne(d: Unit, k: nat, delivered: bool, frame: Frame, size: U16, env: Env): (r: (Unit, bool))
    requires k < |d.openers|
    ensures |r.0.openers| == |d.openers|
  {
    var queue := d.openers[k].rxQueue;
    var i := FirstMatch(d.reqs, queue, TypeOf(frame));
    if i == |queue| then (d, delivered)
    else (FulfilRead(d, RxQueue(k), queue[i], frame, size, env),
          OutcomeOf(Of(d.reqs, queue[i]), queue[i], env).Delivered?)
  }

  /** The loop over the openers from the k-th on. */
  function OfferToOpeners(d: Unit, k: nat, delivered: bool, frame: Frame, size: U16, env: Env): (r: (Unit, bool))
    requires k <= |d.openers|
    decreases |d.openers| - k
  {
    if k == |d.openers| then (d, delivered)
    else
      var (d', delivered') := OfferToOne(d, k, delivered, frame, size, env);
      OfferToOpeners(d', k + 1, delivered', frame, size, env)
  }

  function OfferToOrphan(d: Unit, delivered: bool, frame: Frame, size: U16, env: Env): (d': Unit) {
    if delivered || d.orphans == [] then d else FulfilRead(d, Orphans, d.orphans[0], frame, size, env)
  }

  function PacketReceived(d: Unit, frame: Frame, size: U16, env: Env): (d': Unit) {
    var (offered, delivered) := OfferToOpeners(d, 0, false, frame, size, env);
    OfferToOrphan(offered, delivered, frame, size, env)
  }
}
