/**
 * The chip, the interrupt server and the unit task's event handler as one transition system. A step is one chip
 * register access (or one wait, signal or interrupt-window edge); chip activity may fall between any two steps.
 * The server runs only while the task is outside Disable, and the task never runs while the server does.
 * A 16-bit register is the set of its bit numbers.
 */
module InterruptProtocol {
  type Reg = set<int>

  const LC := 15
  const TX := 14
  const RX := 13
  const RXO := 11
  const LD := 3

  /** The causes the server and the handler know how to deal with. */
  const HANDLED: Reg := {LC, TX, RX, RXO, LD}
  /** The causes enabled when the interface goes online. */
  const SOURCES: Reg := {LC, RX, RXO}

  /** Bit 15 of a frame status word marks a valid frame; these mark an error frame. */
  const FRAME_VALID := 15
  const FRAME_ERRORS: Reg := {0, 1, 2, 4, 10, 11, 12, 13}
  const MAX_LENGTH := 1522
  const MAX_FRAMES := 255

  /** A queued frame by its two header registers: status word and byte count. */
  datatype Frame = Frame(status: Reg, length: nat)

  /** Progress of the interrupt server: what it has read, and which access comes next. */
  datatype Server =
    | Idle
    | AtReadIer(seen: Reg)
    | AtMaskAll(seen: Reg, saved: Reg)
    | AtAckTx(seen: Reg, saved: Reg)
    | AtAckLinkUp(seen: Reg, saved: Reg)
    | AtRestore(seen: Reg, saved: Reg)
    | AtSignal(claimed: bool)

  /** Progress of the unit task: status and mask are the handler's locals, left its frame counter. */
  datatype Task =
    | Waiting
    | Awake
    | AtReadIsr
    | AtAckLink(status: Reg)
    | AtReadPhy(status: Reg)
    | AtAckRx(status: Reg, mask: Reg)
    | AtReadCount(status: Reg, mask: Reg)
    | AtFrame(status: Reg, mask: Reg, left: nat)
    | Delivering(status: Reg, mask: Reg, left: nat)
    | AtOverrunRead(status: Reg, mask: Reg)
    | AtOverrunWrite(status: Reg, mask: Reg, value: Reg)
    | AtIerRead(mask: Reg)
    | AtIerWrite(mask: Reg, value: Reg)
    | AtEnable

  /** delivered: the frames handed to the upper layer so far; raised: the causes raised since the server last started. */
  datatype State = State(isr: Reg, ier: Reg, rxq: seq<Frame>, signal: bool, server: Server, task: Task,
                         delivered: seq<Frame>, raised: Reg)

  datatype Event =
    | Raise(causes: Reg)
    | Arrive(frame: Frame)
    | ServerStart
    | ServerStep
    | Wake
    | TaskStep(phy: Reg)

  /** After ksz8851Online: causes cleared, the three sources enabled, nothing received. */
  const ONLINE := State({}, SOURCES, [], false, Idle, Waiting, [], {})

  predicate InDisable(t: Task) {
    !t.Waiting? && !t.Awake? && !t.Delivering?
  }

  predicate Enabled(s: State, e: Event) {
    match e
    case Raise(_) => true
    case Arrive(_) => |s.rxq| < MAX_FRAMES
    case ServerStart => s.server.Idle? && !InDisable(s.task)
    case ServerStep => !s.server.Idle?
    case Wake => s.server.Idle? && s.task.Waiting? && s.signal
    case TaskStep(_) => s.server.Idle? && !s.task.Waiting?
  }

  function ServerNext(s: State): (s': State)
    requires !s.server.Idle?
  {
    match s.server
    case AtReadIer(seen) =>
      s.(server := if seen * s.ier == {} then Idle else AtMaskAll(seen, s.ier))
    case AtMaskAll(seen, saved) =>
      s.(ier := {}, server := AtAckTx(seen, saved))
    case AtAckTx(seen, saved) =>
      s.(isr := if TX in seen then s.isr - {TX} else s.isr, server := AtAckLinkUp(seen, saved))
    case AtAckLinkUp(seen, saved) =>
      s.(isr := if LD in seen then s.isr - {LD} else s.isr, server := AtRestore(seen, saved))
    case AtRestore(seen, saved) =>
      s.(ier := saved - seen * HANDLED, server := AtSignal(seen * HANDLED != {}))
    case AtSignal(claimed) =>
      s.(signal := s.signal || claimed, server := Idle)
  }

  predicate Releasable(frame: Frame) {
    FRAME_VALID in frame.status || frame.status * FRAME_ERRORS != {}
  }

  predicate Deliverable(frame: Frame) {
    FRAME_VALID in frame.status && 0 < frame.length <= MAX_LENGTH
  }

  /** The tests that follow the receive branch; ISR and IER share bit numbers. */
  function LateMask(status: Reg, mask: Reg): (m: Reg) {
    mask + status * {LD, TX}
  }

  function TaskNext(s: State, phy: Reg): (s': State)
    requires !s.task.Waiting?
  {
    match s.task
    case Awake => s.(task := AtReadIsr)
    case AtReadIsr =>
      s.(task := if LC in s.isr then AtAckLink(s.isr) else AtAckRx(s.isr, {}))
    case AtAckLink(status) =>
      s.(isr := s.isr - {LC}, task := AtReadPhy(status))
    case AtReadPhy(_) =>
      s.(task := AtAckRx(phy, {LC}))  // the status local now holds the PHY register
    case AtAckRx(status, mask) =>
      if RX in status
      then s.(isr := s.isr - {RX}, task := AtReadCount(status, mask))
      else s.(task := AtOverrunRead(status, mask))
    case AtReadCount(status, mask) =>
      s.(task := AtFrame(status, mask, |s.rxq|))
    case AtFrame(status, mask, left) =>
      if left == 0 then s.(task := AtOverrunRead(status, mask + {RX}))
      else if s.rxq == [] || !Releasable(s.rxq[0]) then s.(task := AtFrame(status, mask, left - 1))
      else if Deliverable(s.rxq[0])
      then s.(rxq := s.rxq[1..], delivered := s.delivered + [s.rxq[0]], task := Delivering(status, mask, left - 1))
      else s.(rxq := s.rxq[1..], task := AtFrame(status, mask, left - 1))
    case Delivering(status, mask, left) =>
      s.(task := AtFrame(status, mask, left))
    case AtOverrunRead(status, mask) =>
      s.(task := if RXO in status then AtOverrunWrite(status, mask, s.isr) else AtIerRead(LateMask(status, mask)))
    case AtOverrunWrite(status, mask, value) =>
      s.(isr := s.isr - (value + {RXO}), task := AtIerRead(LateMask(status, mask + {RXO})))
    case AtIerRead(mask) =>
      s.(task := AtIerWrite(mask, s.ier))
    case AtIerWrite(mask, value) =>
      s.(ier := value + mask, task := AtEnable)
    case AtEnable =>
      s.(task := Waiting)
  }

  function Next(s: State, e: Event): (s': State)
    requires Enabled(s, e)
  {
    match e
    case Raise(causes) => s.(isr := s.isr + causes, raised := s.raised + causes)
    case Arrive(frame) => s.(isr := s.isr + {RX}, rxq := s.rxq + [frame], raised := s.raised + {RX})
    case ServerStart => s.(server := AtReadIer(s.isr), raised := {})
    case ServerStep => ServerNext(s)
    case Wake => s.(signal := false, task := Awake)
    case TaskStep(phy) => TaskNext(s, phy)
  }

  // ---- The invariant ----

  /** What IER will hold once a claimed server run has restored it. */
  function RestoredIer(s: State): (m: Reg) {
    match s.server
    case AtAckTx(seen, saved) => saved - seen * HANDLED
    case AtAckLinkUp(seen, saved) => saved - seen * HANDLED
    case AtRestore(seen, saved) => saved - seen * HANDLED
    case _ => s.ier
  }

  /** A task signal is pending, or a server run has claimed the interrupt and is about to signal. */
  predicate WillSignal(s: State) {
    s.signal || s.server.AtMaskAll? || s.server.AtAckTx? || s.server.AtAckLinkUp? || s.server.AtRestore?
    || (s.server.AtSignal? && s.server.claimed)
  }

  /** The running handler holds cause x in its locals and will put it back into IER. */
  predicate Captured(t: Task, x: int) {
    match t
    case AtAckLink(status) => x in status
    case AtReadPhy(status) => x in status
    case AtAckRx(status, mask) => x in mask || (x != LC && x in status)
    case AtReadCount(status, mask) => x in mask || x == RX || (x == RXO && x in status)
    case AtFrame(status, mask, _) => x in mask || x == RX || (x == RXO && x in status)
    case Delivering(status, mask, _) => x in mask || x == RX || (x == RXO && x in status)
    case AtOverrunRead(status, mask) => x in mask || (x == RXO && x in status)
    case AtOverrunWrite(status, mask, _) => x in mask || x == RXO
    case AtIerRead(mask) => x in mask
    case AtIerWrite(mask, _) => x in mask
    case _ => false
  }

  /** A masked cause is held by the handler, or still pending in ISR with a wakeup on its way. */
  predicate Awaited(s: State, x: int) {
    x in RestoredIer(s)
    || Captured(s.task, x)
    || (x in s.isr && (WillSignal(s) || s.task.Awake? || s.task.AtReadIsr?))
  }

  predicate NoLostWakeup(s: State) {
    Awaited(s, LC) && Awaited(s, RX) && Awaited(s, RXO)
  }

  /** Frames the handler has not counted leave the receive cause set. */
  predicate FramesFlagged(s: State) {
    match s.task
    case AtReadCount(_, _) => true
    case AtFrame(_, _, left) => |s.rxq| > left ==> RX in s.isr
    case Delivering(_, _, left) => |s.rxq| > left ==> RX in s.isr
    case _ => s.rxq != [] ==> RX in s.isr
  }

  /** Kept by every step without exception. */
  predicate Bookkeeping(s: State) {
    && s.ier <= HANDLED
    && |s.rxq| <= MAX_FRAMES
    && (!s.server.Idle? ==> !InDisable(s.task))
    && (match s.server
        case Idle => true
        case AtReadIer(seen) => seen <= s.isr <= seen + s.raised
        case AtMaskAll(seen, saved) =>
          saved == s.ier && seen * saved != {} && seen <= s.isr <= seen + s.raised
        case AtAckTx(seen, saved) => ServerHolds(s, seen, saved) && seen <= s.isr <= seen + s.raised
        case AtAckLinkUp(seen, saved) => ServerHolds(s, seen, saved)
        case AtRestore(seen, saved) => ServerHolds(s, seen, saved)
        case AtSignal(claimed) => claimed && s.isr * s.ier <= s.raised)
    && (match s.task
        case AtAckLink(status) => LC in status && status <= s.isr
        case AtReadPhy(status) => LC in status && status - {LC} <= s.isr
        case AtAckRx(status, mask) => mask <= {LC} && (mask == {} ==> status <= s.isr)
        case AtReadCount(_, mask) => mask <= {LC}
        case AtFrame(_, mask, left) => mask <= {LC} && left <= |s.rxq|
        case Delivering(_, mask, left) => mask <= {LC} && left <= |s.rxq|
        case AtOverrunRead(_, mask) => mask <= {LC, RX}
        case AtOverrunWrite(_, mask, value) => mask <= {LC, RX} && value <= s.isr
        case AtIerRead(mask) => mask <= HANDLED
        case AtIerWrite(mask, value) => mask <= HANDLED && value == s.ier
        case _ => true)
  }

  predicate ServerHolds(s: State, seen: Reg, saved: Reg) {
    && s.ier == {} && saved <= HANDLED && seen * saved != {}
    && seen * SOURCES <= s.isr <= seen + s.raised
  }

  predicate Inv(s: State) {
    Bookkeeping(s) && NoLostWakeup(s) && FramesFlagged(s)
  }

  /**
   * The guard under which a step keeps the invariant. Only three accesses can break it: the PHY read that
   * replaces status, the skip of a frame that is neither valid nor flagged, and the read-modify-write that
   * acknowledges an overrun together with every other cause pending at the read.
   */
  predicate Safe(s: State, e: Event)
    requires Enabled(s, e)
  {
    SafeForWakeup(s, e) && SafeForFrames(s, e)
  }

  predicate SafeForWakeup(s: State, e: Event)
    requires Enabled(s, e)
  {
    e.TaskStep? ==>
      match s.task
      case AtReadPhy(_) => s.signal || {RX, RXO} - s.ier <= e.phy
      case AtOverrunWrite(_, mask, value) =>
        (LC in value ==> LC in s.ier + mask) && (RX in value ==> RX in s.ier + mask)
      case _ => true
  }

  predicate SafeForFrames(s: State, e: Event)
    requires Enabled(s, e)
  {
    e.TaskStep? ==>
      match s.task
      case AtFrame(_, _, left) => left > 0 && s.rxq != [] ==> Releasable(s.rxq[0]) || RX in s.isr
      case AtOverrunWrite(_, _, value) => RX in value ==> s.rxq == []
      case _ => true
  }

  lemma BookkeepingKept(s: State, e: Event)
    requires Bookkeeping(s) && Enabled(s, e)
    ensures Bookkeeping(Next(s, e))
  {
  }

  /** The central result: a step keeps the invariant exactly when its guard holds. */
  lemma StepKeepsInvariant(s: State, e: Event)
    requires Inv(s) && Enabled(s, e)
    ensures Inv(Next(s, e)) <==> Safe(s, e)
  {
    BookkeepingKept(s, e);
    WakeupKept(s, e);
    FlagsKept(s, e);
  }

  lemma WakeupKept(s: State, e: Event)
    requires Inv(s) && Enabled(s, e)
    ensures NoLostWakeup(Next(s, e)) <==> SafeForWakeup(s, e)
  {
    if e.TaskStep? {
      WakeupKeptByTask(s, e.phy);
    }
  }

  lemma WakeupKeptByTask(s: State, phy: Reg)
    requires Inv(s) && s.server.Idle? && !s.task.Waiting?
    ensures NoLostWakeup(TaskNext(s, phy)) <==> SafeForWakeup(s, TaskStep(phy))
  {
  }

  lemma FlagsKept(s: State, e: Event)
    requires Inv(s) && Enabled(s, e)
    ensures FramesFlagged(Next(s, e)) <==> SafeForFrames(s, e)
  {
  }

  lemma OnlineHolds()
    ensures Inv(ONLINE)
  {
  }

  // ---- Runs ----

  predicate Possible(s: State, run: seq<Event>)
    decreases |run|
  {
    run != [] ==> Enabled(s, run[0]) && Possible(Next(s, run[0]), run[1..])
  }

  function Exec(s: State, run: seq<Event>): (s': State)
    requires Possible(s, run)
    decreases |run|
  {
    if run == [] then s else Exec(Next(s, run[0]), run[1..])
  }

  predicate SafeRun(s: State, run: seq<Event>)
    requires Possible(s, run)
    decreases |run|
  {
    run != [] ==> Safe(s, run[0]) && SafeRun(Next(s, run[0]), run[1..])
  }

  /** No wakeup is lost and no frame goes unflagged anywhere in a run of guarded steps, for every interleaving. */
  lemma {:induction false} SafeRunsKeepInvariant(s: State, run: seq<Event>)
    requires Inv(s) && Possible(s, run) && SafeRun(s, run)
    ensures Inv(Exec(s, run))
    decreases |run|
  {
    if run != [] {
      StepKeepsInvariant(s, run[0]);
      SafeRunsKeepInvariant(Next(s, run[0]), run[1..]);
    }
  }

  /** The run up to its k-th event is a run, and starts with the first event of the whole. */
  lemma {:induction false} PrefixPossible(s: State, run: seq<Event>, k: nat)
    requires Possible(s, run) && k <= |run|
    ensures Possible(s, run[..k])
    ensures k > 0 ==> Possible(Next(s, run[0]), run[1..][..k - 1])
                      && Exec(s, run[..k]) == Exec(Next(s, run[0]), run[1..][..k - 1])
    decreases |run|
  {
    if k > 0 {
      PrefixPossible(Next(s, run[0]), run[1..], k - 1);
      assert run[..k][1..] == run[1..][..k - 1];
    }
  }

  ghost predicate InvAt(s: State, run: seq<Event>, k: nat) {
    k <= |run| && Possible(s, run[..k]) && Inv(Exec(s, run[..k]))
  }

  /** Over whole runs: the invariant holds at every point of a run if and only if every step of it is guarded. */
  lemma {:induction false} InvariantThroughoutExactly(s: State, run: seq<Event>)
    requires Inv(s) && Possible(s, run)
    ensures SafeRun(s, run) <==> forall k :: 0 <= k <= |run| ==> InvAt(s, run, k)
    decreases |run|
  {
    assert run[..0] == [] && InvAt(s, run, 0);
    if run != [] {
      var s1, rest := Next(s, run[0]), run[1..];
      StepKeepsInvariant(s, run[0]);
      forall k | 0 < k <= |run| ensures InvAt(s, run, k) <==> InvAt(s1, rest, k - 1) {
        PrefixPossible(s, run, k);
      }
      if Safe(s, run[0]) {
        InvariantThroughoutExactly(s1, rest);
        if forall k :: 0 <= k <= |run| ==> InvAt(s, run, k) {
          forall k | 0 <= k <= |rest| ensures InvAt(s1, rest, k) {
            assert InvAt(s, run, k + 1);
          }
        }
      } else {
        assert rest[..0] == [] && !InvAt(s1, rest, 0) && !InvAt(s, run, 1);
      }
    }
  }

  /** The first unguarded step of a run breaks the invariant, so the guards cannot be weakened. */
  lemma UnsafeStepBreaks(run: seq<Event>, e: Event)
    requires Possible(ONLINE, run) && SafeRun(ONLINE, run)
    requires Enabled(Exec(ONLINE, run), e) && !Safe(Exec(ONLINE, run), e)
    ensures !NoLostWakeup(Next(Exec(ONLINE, run), e)) || !FramesFlagged(Next(Exec(ONLINE, run), e))
  {
    OnlineHolds();
    SafeRunsKeepInvariant(ONLINE, run);
    StepKeepsInvariant(Exec(ONLINE, run), e);
    BookkeepingKept(Exec(ONLINE, run), e);
  }

  /** Neither a link change nor an overrun is raised, and every frame is valid or flagged as an error. */
  predicate Quiet(e: Event) {
    match e
    case Raise(causes) => LC !in causes && RXO !in causes
    case Arrive(frame) => Releasable(frame)
    case _ => true
  }

  /** What runs of quiet events reach. */
  ghost predicate QuietState(s: State) {
    && LC !in s.isr && RXO !in s.isr
    && (forall i :: 0 <= i < |s.rxq| ==> Releasable(s.rxq[i]))
    && (match s.task
        case AtAckLink(_) => false
        case AtReadPhy(_) => false
        case AtAckRx(status, mask) => RXO !in status && mask == {}
        case AtReadCount(status, _) => RXO !in status
        case AtFrame(status, _, _) => RXO !in status
        case Delivering(status, _, _) => RXO !in status
        case AtOverrunRead(status, _) => RXO !in status
        case AtOverrunWrite(_, _, _) => false
        case _ => true)
  }

  lemma QuietKept(s: State, e: Event)
    requires QuietState(s) && Enabled(s, e) && Quiet(e)
    ensures Safe(s, e) && QuietState(Next(s, e))
  {
  }

  /** Quiet runs need no guard: from going online on, no wakeup is ever lost and every frame stays flagged. */
  lemma QuietRunsLoseNothing(run: seq<Event>)
    requires Possible(ONLINE, run) && forall i :: 0 <= i < |run| ==> Quiet(run[i])
    ensures Inv(Exec(ONLINE, run)) && QuietState(Exec(ONLINE, run))
  {
    OnlineHolds();
    QuietRun(ONLINE, run);
    SafeRunsKeepInvariant(ONLINE, run);
  }

  lemma {:induction false} QuietRun(s: State, run: seq<Event>)
    requires QuietState(s) && Possible(s, run) && forall i :: 0 <= i < |run| ==> Quiet(run[i])
    ensures SafeRun(s, run) && QuietState(Exec(s, run))
    decreases |run|
  {
    if run != [] {
      QuietKept(s, run[0]);
      QuietRun(Next(s, run[0]), run[1..]);
    }
  }

  /** Nothing but the chip can act: the task waits without a signal and the interrupt line is released. */
  predicate Quiescent(s: State) {
    s.task.Waiting? && !s.signal && s.server.Idle? && s.isr * s.ier == {}
  }

  /** When everything has come to rest, every source is enabled again and no frame is left behind. */
  lemma RestMeansDrained(s: State)
    requires Inv(s) && Quiescent(s)
    ensures SOURCES <= s.ier && s.rxq == []
  {
    assert RX in s.isr ==> RX in s.isr * s.ier;
  }

  // ---- Progress: when the chip pauses, the software comes to rest ----

  /** The next software event: the server when it is running or called for, else the task. */
  function Choice(s: State): (e: Event)
    requires !Quiescent(s)
    ensures Enabled(s, e) && Quiet(e)
  {
    if !s.server.Idle? then ServerStep
    else if s.isr * s.ier != {} && !InDisable(s.task) then ServerStart
    else if !s.task.Waiting? then TaskStep({})
    else Wake
  }

  predicate Claiming(server: Server) {
    server.AtMaskAll? || server.AtAckTx? || server.AtAckLinkUp? || server.AtRestore?
  }

  /** Causes still to be acknowledged, not counting those a claimed server run is about to acknowledge. */
  function Pending(s: State): (n: nat) {
    (if RX in s.isr then 1 else 0) + PendingAck(s, TX) + PendingAck(s, LD)
  }

  function PendingAck(s: State, x: int): (n: nat) {
    var toAck := s.server.AtMaskAll? || s.server.AtAckTx? || (x == LD && s.server.AtAckLinkUp?);
    if x in s.isr && !(toAck && x in s.server.seen) then 1 else 0
  }

  /** What IER will hold once the running server is done. */
  function ServedIer(s: State): (ier: Reg) {
    if Claiming(s.server) then s.server.saved - s.server.seen * HANDLED else s.ier
  }

  /** Whether the server can still take a receive interrupt, now or after the handler has enabled it again. */
  function Receivable(s: State): (n: nat) {
    (if RX in ServedIer(s) then 1 else 0) +
    (match s.task
     case AtReadCount(_, _) => 2
     case AtFrame(_, _, _) => 2
     case Delivering(_, _, _) => 2
     case AtOverrunRead(_, mask) => if RX in mask then 2 else 0
     case AtIerRead(mask) => if RX in mask then 2 else 0
     case AtIerWrite(mask, _) => if RX in mask then 2 else 0
     case _ => 0)
  }

  function Position(s: State): (n: nat) {
    match s.task
    case Waiting => 0
    case AtEnable => 1
    case AtIerWrite(_, _) => 2
    case AtIerRead(_) => 3
    case AtOverrunWrite(_, _, _) => 4
    case AtOverrunRead(_, _) => 5
    case AtFrame(_, _, left) => 6 + 2 * left
    case Delivering(_, _, left) => 7 + 2 * left
    case AtReadCount(_, _) => 7 + 2 * |s.rxq|
    case AtAckRx(_, _) => 8 + 2 * |s.rxq|
    case AtReadPhy(_) => 9 + 2 * |s.rxq|
    case AtAckLink(_) => 10 + 2 * |s.rxq|
    case AtReadIsr => 11 + 2 * |s.rxq|
    case Awake => 12 + 2 * |s.rxq|
  }

  function ServerPosition(s: State): (n: nat) {
    (match s.server
     case Idle => 0
     case AtReadIer(seen) => if seen * s.ier == {} then 8 else 6
     case AtMaskAll(_, _) => 5
     case AtAckTx(_, _) => 4
     case AtAckLinkUp(_, _) => 3
     case AtRestore(_, _) => 2
     case AtSignal(_) => 1) +
    (if s.isr * ServedIer(s) != {} && !(s.server.AtReadIer? && s.server.seen * s.ier != {}) then 7 else 0)
  }

  predicate SoftwareOnly(run: seq<Event>, longer: seq<Event>) {
    && run <= longer
    && forall i :: |run| <= i < |longer| ==> !longer[i].Raise? && !longer[i].Arrive?
  }

  /** Each software step decreases this tuple, so the software cannot run for ever on a silent chip. */
  function Settle(s: State): (s': State)
    requires Inv(s) && QuietState(s)
    ensures Inv(s') && QuietState(s') && Quiescent(s')
    decreases Pending(s), Receivable(s), WillSignal(s), Position(s), ServerPosition(s)
  {
    if Quiescent(s) then s
    else
      QuietKept(s, Choice(s));
      StepKeepsInvariant(s, Choice(s));
      SettleDecreases(s);
      Settle(Next(s, Choice(s)))
  }

  lemma SettleDecreases(s: State)
    requires Inv(s) && QuietState(s) && !Quiescent(s)
    ensures var s' := Next(s, Choice(s));
            (Pending(s), Receivable(s), WillSignal(s), Position(s), ServerPosition(s)
             decreases to Pending(s'), Receivable(s'), WillSignal(s'), Position(s'), ServerPosition(s'))
  {
    if !s.server.Idle? {
      ServerDecreases(s);
    } else if !s.task.Waiting? {
      TaskDecreases(s);
    }
  }

  lemma ServerDecreases(s: State)
    requires Inv(s) && QuietState(s) && !s.server.Idle?
    ensures var s' := ServerNext(s);
            (Pending(s), Receivable(s), WillSignal(s), Position(s), ServerPosition(s)
             decreases to Pending(s'), Receivable(s'), WillSignal(s'), Position(s'), ServerPosition(s'))
  {
    if s.server.AtReadIer? && s.server.seen * s.ier != {} {
      var x :| x in s.server.seen * s.ier;
      assert x in {RX, TX, LD};
    }
  }

  lemma TaskDecreases(s: State)
    requires Inv(s) && QuietState(s) && s.server.Idle? && !s.task.Waiting?
    ensures var s' := TaskNext(s, {});
            (Pending(s), Receivable(s), WillSignal(s), Position(s), ServerPosition(s)
             decreases to Pending(s'), Receivable(s'), WillSignal(s'), Position(s'), ServerPosition(s'))
  {
  }

  /** Settle is a run of the software alone. */
  lemma {:induction false} SettleIsRun(s: State) returns (run: seq<Event>)
    requires Inv(s) && QuietState(s)
    ensures Possible(s, run) && Exec(s, run) == Settle(s) && SoftwareOnly([], run)
    decreases Pending(s), Receivable(s), WillSignal(s), Position(s), ServerPosition(s)
  {
    if Quiescent(s) {
      run := [];
    } else {
      QuietKept(s, Choice(s));
      StepKeepsInvariant(s, Choice(s));
      SettleDecreases(s);
      var rest := SettleIsRun(Next(s, Choice(s)));
      run := [Choice(s)] + rest;
      assert run[1..] == rest;
    }
  }

  // ---- Frames are handed up once each and in order ----

  function Good(frames: seq<Frame>): (r: seq<Frame>) {
    if frames == [] then []
    else (if Deliverable(frames[0]) then [frames[0]] else []) + Good(frames[1..])
  }

  function Arrivals(run: seq<Event>): (r: seq<Frame>) {
    if run == [] then []
    else (if run[0].Arrive? then [run[0].frame] else []) + Arrivals(run[1..])
  }

  lemma {:induction false} GoodConcat(a: seq<Frame>, b: seq<Frame>)
    ensures Good(a + b) == Good(a) + Good(b)
  {
    if a == [] {
      assert a + b == b;
    } else {
      var head := if Deliverable(a[0]) then [a[0]] else [];
      assert (a + b)[1..] == a[1..] + b;
      GoodConcat(a[1..], b);
      assert head + (Good(a[1..]) + Good(b)) == (head + Good(a[1..])) + Good(b);
    }
  }

  lemma StepConserves(s: State, e: Event)
    requires Enabled(s, e)
    ensures var s' := Next(s, e);
            s'.delivered + Good(s'.rxq) == s.delivered + Good(s.rxq) + Good(Arrivals([e]))
  {
    assert Arrivals([e]) == (if e.Arrive? then [e.frame] else []) + Arrivals([]);
    if e.Arrive? {
      GoodConcat(s.rxq, [e.frame]);
    } else if e.TaskStep? {
      HandlerConserves(s, e.phy);
    }
  }

  lemma HandlerConserves(s: State, phy: Reg)
    requires !s.task.Waiting?
    ensures var s' := TaskNext(s, phy);
            s'.delivered + Good(s'.rxq) == s.delivered + Good(s.rxq)
  {
    if s.task.AtFrame? && s.rxq != [] {
      var head, rest := if Deliverable(s.rxq[0]) then [s.rxq[0]] else [], Good(s.rxq[1..]);
      assert s.delivered + (head + rest) == (s.delivered + head) + rest;
    }
  }

  /** In every run, guarded or not, no good frame is lost, repeated or overtaken between the chip and the upper layer. */
  lemma {:induction false} DeliveryConserved(s: State, run: seq<Event>)
    requires Possible(s, run)
    ensures var s' := Exec(s, run);
            s'.delivered + Good(s'.rxq) == s.delivered + Good(s.rxq) + Good(Arrivals(run))
    decreases |run|
  {
    if run != [] {
      var s1, one, rest := Next(s, run[0]), Arrivals([run[0]]), Arrivals(run[1..]);
      StepConserves(s, run[0]);
      DeliveryConserved(s1, run[1..]);
      assert Arrivals(run) == one + rest by {
        assert [run[0]][1..] == [];
      }
      GoodConcat(one, rest);
      var s' := Exec(s1, run[1..]);
      assert s'.delivered + Good(s'.rxq) == (s.delivered + Good(s.rxq) + Good(one)) + Good(rest);
    }
  }

  lemma {:induction false} NoArrivals(run: seq<Event>)
    requires SoftwareOnly([], run)
    ensures Arrivals(run) == []
  {
    if run != [] {
      assert !run[0].Arrive?;
      assert forall i :: 0 <= i < |run[1..]| ==> run[1..][i] == run[i + 1];
      NoArrivals(run[1..]);
    }
  }

  /**
   * After any quiet run, with the server and the handler wherever they are, the software left alone reaches rest
   * with every source enabled and every good frame that ever arrived handed up, once each and in order.
   */
  lemma PauseDrains(run: seq<Event>) returns (rest: seq<Event>)
    requires Possible(ONLINE, run) && forall i :: 0 <= i < |run| ==> Quiet(run[i])
    ensures SoftwareOnly([], rest) && Possible(Exec(ONLINE, run), rest)
    ensures var s := Exec(Exec(ONLINE, run), rest);
            Quiescent(s) && SOURCES <= s.ier && s.rxq == [] && s.delivered == Good(Arrivals(run))
  {
    QuietRunsLoseNothing(run);
    var s := Exec(ONLINE, run);
    rest := SettleIsRun(s);
    RestMeansDrained(Settle(s));
    DeliveryConserved(ONLINE, run);
    DeliveryConserved(s, rest);
    NoArrivals(rest);
    var s' := Exec(s, rest);
    assert s'.delivered == s'.delivered + Good(s'.rxq) == s.delivered + Good(s.rxq) + [] == s.delivered + Good(s.rxq);
    assert [] + [] + Good(Arrivals(run)) == Good(Arrivals(run));
  }

  // ---- The interrupt line ----

  /** In every run, guarded or not, the registers keep their bookkeeping. */
  lemma {:induction false} BookkeepingInEveryRun(s: State, run: seq<Event>)
    requires Bookkeeping(s) && Possible(s, run)
    ensures Bookkeeping(Exec(s, run))
    decreases |run|
  {
    if run != [] {
      BookkeepingKept(s, run[0]);
      BookkeepingInEveryRun(Next(s, run[0]), run[1..]);
    }
  }

  /**
   * The server takes the interrupt exactly when a pending cause is enabled; a run that takes it always signals the
   * task, and leaves asserted only causes raised while it ran. IER never leaves the five handled causes.
   */
  lemma LineReleased(run: seq<Event>)
    requires Possible(ONLINE, run)
    ensures var s := Exec(ONLINE, run);
            && s.ier <= HANDLED
            && (s.server.AtReadIer? ==> (Next(s, ServerStep).server.Idle? <==> s.server.seen * s.ier == {}))
            && (s.server.AtSignal? ==> Next(s, ServerStep).signal && s.isr * s.ier <= s.raised)
  {
    BookkeepingInEveryRun(ONLINE, run);
  }

  // ---- What goes wrong outside the guards ----

  /** A frame is queued, its cause is masked, and the task sleeps with no signal and no asserted line. */
  predicate Stranded(s: State) {
    && s.task.Waiting? && !s.signal
    && RX !in s.ier && s.rxq != []
    && s.isr * s.ier == {}
    && (s.server.Idle? || (s.server.AtReadIer? && s.server.seen <= s.isr))
  }

  /** Once stranded, frames are received for nothing until some other enabled cause is raised. */
  lemma StrandedStays(s: State, e: Event)
    requires Stranded(s) && Enabled(s, e)
    requires e.Raise? ==> e.causes * s.ier == {}
    ensures Stranded(Next(s, e))
  {
  }

  lemma {:induction false} ExecOneMore(s: State, run: seq<Event>, e: Event)
    requires Possible(s, run) && Enabled(Exec(s, run), e)
    ensures Possible(s, run + [e]) && Exec(s, run + [e]) == Next(Exec(s, run), e)
    decreases |run|
  {
    if run == [] {
      assert Exec(Next(s, e), []) == Next(s, e);
    } else {
      assert (run + [e])[1..] == run[1..] + [e];
      ExecOneMore(Next(s, run[0]), run[1..], e);
    }
  }

  lemma Then(run: seq<Event>, s: State, e: Event, s': State) returns (run': seq<Event>)
    requires Possible(ONLINE, run) && Exec(ONLINE, run) == s && Enabled(s, e) && Next(s, e) == s'
    ensures Possible(ONLINE, run') && Exec(ONLINE, run') == s' && run' == run + [e]
  {
    ExecOneMore(ONLINE, run, e);
    run' := run + [e];
  }

  /** The server takes an interrupt whose pending causes are all online sources. */
  lemma Taken(run: seq<Event>, s: State) returns (run': seq<Event>, s': State)
    requires Possible(ONLINE, run) && Exec(ONLINE, run) == s
    requires s.server.Idle? && s.task.Waiting? && s.isr * s.ier != {} && s.isr <= SOURCES
    ensures Possible(ONLINE, run') && Exec(ONLINE, run') == s' && SoftwareOnly(run, run')
    ensures s' == s.(ier := s.ier - s.isr, signal := true, raised := {})
  {
    var c, t := s.isr, s.(raised := {});
    run' := Then(run, s, ServerStart, t.(server := AtReadIer(c)));
    run' := Then(run', t.(server := AtReadIer(c)), ServerStep, t.(server := AtMaskAll(c, s.ier)));
    var u := t.(ier := {});
    run' := Then(run', t.(server := AtMaskAll(c, s.ier)), ServerStep, u.(server := AtAckTx(c, s.ier)));
    run', s' := Claimed(run', u.(server := AtAckTx(c, s.ier)), c, s.ier);
  }

  lemma Claimed(run: seq<Event>, s: State, c: Reg, saved: Reg) returns (run': seq<Event>, s': State)
    requires Possible(ONLINE, run) && Exec(ONLINE, run) == s
    requires s.server == AtAckTx(c, saved) && c <= SOURCES && c != {}
    ensures Possible(ONLINE, run') && Exec(ONLINE, run') == s' && SoftwareOnly(run, run')
    ensures s' == s.(ier := saved - c, signal := true, server := Idle)
  {
    assert c * HANDLED == c;
    run' := Then(run, s, ServerStep, s.(server := AtAckLinkUp(c, saved)));
    run' := Then(run', s.(server := AtAckLinkUp(c, saved)), ServerStep, s.(server := AtRestore(c, saved)));
    var t := s.(ier := saved - c);
    run' := Then(run', s.(server := AtRestore(c, saved)), ServerStep, t.(server := AtSignal(true)));
    s' := t.(signal := true, server := Idle);
    run' := Then(run', t.(server := AtSignal(true)), ServerStep, s');
  }

  /** The signalled task wakes up and is about to read ISR. */
  lemma Woken(run: seq<Event>, s: State) returns (run': seq<Event>, s': State)
    requires Possible(ONLINE, run) && Exec(ONLINE, run) == s
    requires s.server.Idle? && s.task.Waiting? && s.signal
    ensures Possible(ONLINE, run') && Exec(ONLINE, run') == s' && SoftwareOnly(run, run')
    ensures s' == s.(signal := false, task := AtReadIsr)
  {
    run' := Then(run, s, Wake, s.(signal := false, task := Awake));
    s' := s.(signal := false, task := AtReadIsr);
    run' := Then(run', s'.(task := Awake), TaskStep({}), s');
  }

  /** The handler's last accesses. */
  lemma Finished(run: seq<Event>, s: State, mask: Reg) returns (run': seq<Event>, s': State)
    requires Possible(ONLINE, run) && Exec(ONLINE, run) == s && s.server.Idle? && s.task == AtIerRead(mask)
    ensures Possible(ONLINE, run') && Exec(ONLINE, run') == s' && SoftwareOnly(run, run')
    ensures s' == s.(ier := s.ier + mask, task := Waiting)
  {
    var e := TaskStep({});
    run' := Then(run, s, e, s.(task := AtIerWrite(mask, s.ier)));
    run' := Then(run', s.(task := AtIerWrite(mask, s.ier)), e, s.(ier := s.ier + mask, task := AtEnable));
    s' := s.(ier := s.ier + mask, task := Waiting);
    run' := Then(run', s'.(task := AtEnable), e, s');
  }

  /** Only good frames arrive, and only the given causes are raised. */
  ghost predicate Only(run: seq<Event>, causes: Reg) {
    forall i :: 0 <= i < |run| ==> match run[i]
                                   case Raise(c) => c <= causes
                                   case Arrive(frame) => Deliverable(frame)
                                   case _ => true
  }

  /**
   * One good frame and one link change suffice. The handler replaces its copy of ISR by the PHY status word; unless
   * that word happens to have bit 13 or 11 set, it forgets the receive cause it was woken for and never enables it
   * again.
   */
  lemma LinkChangeStrandsFrame(frame: Frame, phy: Reg) returns (run: seq<Event>)
    requires Deliverable(frame) && RX !in phy && RXO !in phy
    ensures Possible(ONLINE, run) && Only(run, {LC}) && Stranded(Exec(ONLINE, run))
  {
    var both, e := {LC, RX}, TaskStep(phy);
    var s := ONLINE.(isr := {RX}, rxq := [frame], raised := {RX});
    assert Next(ONLINE, Arrive(frame)) == s;
    run := Then([], ONLINE, Arrive(frame), s);
    assert {RX} + {LC} == both;
    run := Then(run, s, Raise({LC}), s.(isr := both, raised := both));
    run, s := Taken(run, s.(isr := both, raised := both));
    run, s := Woken(run, s);
    run := Then(run, s, e, s.(task := AtAckLink(both)));
    run, s := LinkHandled(run, s.(task := AtAckLink(both)), both, phy);
    run, s := Finished(run, s, LateMask(phy, {LC}));
  }

  lemma LinkHandled(run: seq<Event>, s: State, status: Reg, phy: Reg) returns (run': seq<Event>, s': State)
    requires Possible(ONLINE, run) && Exec(ONLINE, run) == s && s.server.Idle? && s.task == AtAckLink(status)
    requires RX !in phy && RXO !in phy
    ensures Possible(ONLINE, run') && Exec(ONLINE, run') == s' && SoftwareOnly(run, run')
    ensures s' == s.(isr := s.isr - {LC}, task := AtIerRead(LateMask(phy, {LC})))
  {
    var e, t := TaskStep(phy), s.(isr := s.isr - {LC});
    run' := Then(run, s, e, t.(task := AtReadPhy(status)));
    run' := Then(run', t.(task := AtReadPhy(status)), e, t.(task := AtAckRx(phy, {LC})));
    run' := Then(run', t.(task := AtAckRx(phy, {LC})), e, t.(task := AtOverrunRead(phy, {LC})));
    s' := t.(task := AtIerRead(LateMask(phy, {LC})));
    run' := Then(run', t.(task := AtOverrunRead(phy, {LC})), e, s');
  }

  /** A frame that arrives just before the overrun is acknowledged loses its cause and waits for the next frame. */
  lemma OverrunForgetsFrame(frame: Frame) returns (run: seq<Event>)
    requires Deliverable(frame)
    ensures Possible(ONLINE, run) && Only(run, {RXO})
    ensures Quiescent(Exec(ONLINE, run)) && Exec(ONLINE, run).rxq == [frame]
  {
    var over, e := {RXO}, TaskStep({});
    var s := ONLINE.(isr := over, raised := over);
    assert Next(ONLINE, Raise(over)) == s;
    run := Then([], ONLINE, Raise(over), s);
    run, s := Taken(run, s);
    run, s := Woken(run, s);
    run := Then(run, s, e, s.(task := AtAckRx(over, {})));
    run := Then(run, s.(task := AtAckRx(over, {})), e, s.(task := AtOverrunRead(over, {})));
    run, s := OverrunRace(run, s.(task := AtOverrunRead(over, {})), over, frame);
    run, s := Finished(run, s, LateMask(over, {RXO}));
  }

  lemma OverrunRace(run: seq<Event>, s: State, over: Reg, frame: Frame) returns (run': seq<Event>, s': State)
    requires Possible(ONLINE, run) && Exec(ONLINE, run) == s && s.server.Idle? && s.task == AtOverrunRead(over, {})
    requires over == {RXO} == s.isr && s.rxq == [] && Deliverable(frame)
    ensures Possible(ONLINE, run') && Exec(ONLINE, run') == s' && run <= run'
    ensures forall i :: |run| <= i < |run'| ==> !run'[i].Raise? && (run'[i].Arrive? ==> run'[i].frame == frame)
    ensures s' == s.(isr := {}, rxq := [frame], raised := s.raised + {RX}, task := AtIerRead(LateMask(over, {RXO})))
  {
    var e, both := TaskStep({}), over + {RX};
    var t := s.(isr := both, rxq := [frame], raised := s.raised + {RX});
    run' := Then(run, s, Arrive(frame), t);
    run' := Then(run', t, e, t.(task := AtOverrunWrite(over, {}, both)));
    assert {} + {RXO} == {RXO};
    s' := t.(isr := {}, task := AtIerRead(LateMask(over, {RXO})));
    run' := Then(run', t.(task := AtOverrunWrite(over, {}, both)), e, s');
  }
}
