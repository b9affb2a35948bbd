/** Room and frame ids in the chip's transmit queue, over whole runs of sends and transmissions. */
module TransmitQueue {
  import opened Words
  import opened Frames

  /**
   * free: the free byte count of TXMIR, negative once more was written than there was room for; stored: bytes each
   * queued frame occupies; ids: the 6-bit id of every frame accepted so far.
   */
  datatype Queue = Queue(free: int, frameId: U16, stored: seq<nat>, ids: seq<nat>)

  datatype Event = Raw(length: nat) | Cooked(payloadLength: nat) | Transmitted

  function RawBytes(length: nat): (b: nat) {
    4 + Dword(length)
  }

  function CookedBytes(n: nat): (b: nat) {
    4 + ETH_HEADER_SIZE + Even(Padded(n))
  }

  predicate RawAccepted(q: Queue, length: nat) {
    MIN_PAYLOAD <= length <= ETH_MAX_FRAME_SIZE && length + 8 <= q.free
  }

  /** The check as it stands: the 14 header bytes are not in it. */
  predicate CookedAccepted(q: Queue, n: nat) {
    Padded(n) + 8 <= q.free
  }

  function Store(q: Queue, bytes: nat): (q': Queue) {
    Queue(q.free - bytes, (q.frameId + 1) % 0x10000, q.stored + [bytes], q.ids + [q.frameId % 64])
  }

  function Next(q: Queue, e: Event): (q': Queue) {
    match e
    case Raw(length) => if RawAccepted(q, length) then Store(q, RawBytes(length)) else q
    case Cooked(n) => if CookedAccepted(q, n) then Store(q, CookedBytes(n)) else q
    case Transmitted =>
      if q.stored == [] then q else q.(free := q.free + q.stored[0], stored := q.stored[1..])
  }

  function Exec(q: Queue, run: seq<Event>): (q': Queue)
    decreases |run|
  {
    if run == [] then q else Exec(Next(q, run[0]), run[1..])
  }

  function Sum(s: seq<nat>): (n: nat) {
    if s == [] then 0 else s[0] + Sum(s[1..])
  }

  lemma {:induction false} SumAppend(s: seq<nat>, x: nat)
    ensures Sum(s + [x]) == Sum(s) + x
  {
    if s == [] {
      assert s + [x] == [x];
      assert Sum([x]) == x + Sum([]);
    } else {
      assert (s + [x])[1..] == s[1..] + [x];
      SumAppend(s[1..], x);
    }
  }

  /** Nothing is gained or lost, and ids count up modulo 64 from the first frame's. */
  ghost predicate Inv(q: Queue, capacity: int, first: U16) {
    && q.free + Sum(q.stored) == capacity
    && q.frameId == (first + |q.ids|) % 0x10000
    && forall i :: 0 <= i < |q.ids| ==> q.ids[i] == (first + i) % 64
  }

  /** The 16-bit counter wraps at a multiple of 64. */
  lemma WrapKeepsId(x: nat)
    ensures x % 0x10000 % 64 == x % 64
  {
    var q, r := x / 0x10000, x % 0x10000;
    assert x == 64 * (1024 * q) + r;
    MultipleVanishes(1024 * q, r);
  }

  lemma MultipleVanishes(q: nat, r: nat)
    ensures (64 * q + r) % 64 == r % 64
  {
    assert r == 64 * (r / 64) + r % 64;
    assert 64 * q + r == 64 * (q + r / 64) + r % 64;
  }

  lemma StoreKeeps(q: Queue, bytes: nat, capacity: int, first: U16)
    requires Inv(q, capacity, first)
    ensures Inv(Store(q, bytes), capacity, first)
  {
    var n := |q.ids|;
    SumAppend(q.stored, bytes);
    WrapKeepsId(first + n);
    assert ((first + n) % 0x10000 + 1) % 0x10000 == (first + n + 1) % 0x10000;
  }

  lemma StepKeeps(q: Queue, e: Event, capacity: int, first: U16)
    requires Inv(q, capacity, first)
    ensures Inv(Next(q, e), capacity, first)
  {
    match e
    case Raw(length) => StoreKeeps(q, RawBytes(length), capacity, first);
    case Cooked(n) => StoreKeeps(q, CookedBytes(n), capacity, first);
    case Transmitted =>
  }

  lemma {:induction false} RunKeeps(q: Queue, run: seq<Event>, capacity: int, first: U16)
    requires Inv(q, capacity, first)
    ensures Inv(Exec(q, run), capacity, first)
    decreases |run|
  {
    if run != [] {
      StepKeeps(q, run[0], capacity, first);
      RunKeeps(Next(q, run[0]), run[1..], capacity, first);
    }
  }

  /** In every run, any 64 consecutive accepted frames carry different ids, also where the 16-bit counter wraps. */
  lemma IdsDistinct(free: nat, first: U16, run: seq<Event>, i: nat, j: nat)
    requires i < j < i + 64 && j < |Exec(Queue(free, first, [], []), run).ids|
    ensures var ids := Exec(Queue(free, first, [], []), run).ids;
            ids[i] == (first + i) % 64 && ids[i] != ids[j]
  {
    var q := Queue(free, first, [], []);
    RunKeeps(q, run, free, first);
    assert Exec(q, run).ids[j] == (first + j) % 64;
    var a, b := first + i, first + j;
    assert a == 64 * (a / 64) + a % 64 && b == 64 * (b / 64) + b % 64;
  }

  /**
   * One send overfills the queue exactly when it is a cooked one whose payload passes the check while header,
   * Ethernet header and word padding do not fit. For a raw send that never happens.
   */
  predicate Overfills(q: Queue, e: Event) {
    e.Cooked? && Padded(e.payloadLength) + 8 <= q.free < CookedBytes(e.payloadLength)
  }

  lemma OverfillsExactly(q: Queue, e: Event)
    requires q.free >= 0
    ensures Next(q, e).free >= 0 <==> !Overfills(q, e)
  {
  }

  /** Cooked sends of payloads the driver lets through, with no frame transmitted in between. */
  predicate CookedSends(run: seq<Event>) {
    forall i :: 0 <= i < |run| ==> run[i].Cooked? && run[i].payloadLength <= ETHERNET_MTU
  }

  function OverfillingRun(free: nat): (run: seq<Event>)
    requires free >= MIN_PAYLOAD + 8
    ensures CookedSends(run)
  {
    if free <= ETHERNET_MTU + 8 then [Cooked(free - 8)]
    else if free < ETHERNET_MTU + 8 + 64 then [Cooked(MIN_PAYLOAD)] + OverfillingRun(free - 64)
    else [Cooked(ETHERNET_MTU)] + OverfillingRun(free - 1518)
  }

  lemma {:induction false} Overfilling(q: Queue)
    requires q.free >= MIN_PAYLOAD + 8
    ensures Exec(q, OverfillingRun(q.free)).free < 0
    decreases q.free
  {
    var run := OverfillingRun(q.free);
    var q' := Next(q, run[0]);
    assert Exec(q, run) == Exec(q', run[1..]);
    if q.free > ETHERNET_MTU + 8 {
      assert run[1..] == OverfillingRun(q'.free);
      Overfilling(q');
    }
  }

  lemma {:induction false} NoRoomNoSend(q: Queue, run: seq<Event>)
    requires q.free < MIN_PAYLOAD + 8 && CookedSends(run)
    ensures Exec(q, run) == q
    decreases |run|
  {
    if run != [] {
      NoRoomNoSend(q, run[1..]);
    }
  }

  /** Permitted cooked sends overfill the queue from every room that lets one of them through at all. */
  lemma OverfillReachable(q: Queue)
    requires q.free >= 0
    ensures q.free >= MIN_PAYLOAD + 8 <==> exists run :: CookedSends(run) && Exec(q, run).free < 0
  {
    if q.free >= MIN_PAYLOAD + 8 {
      Overfilling(q);
    } else {
      forall run | CookedSends(run) ensures Exec(q, run).free >= 0 {
        NoRoomNoSend(q, run);
      }
    }
  }

  predicate NeverOverfills(q: Queue, run: seq<Event>)
    decreases |run|
  {
    run != [] ==> !Overfills(q, run[0]) && NeverOverfills(Next(q, run[0]), run[1..])
  }

  /** The queue is never overfull at any point of a run exactly as long as no single send overfills it. */
  lemma {:induction false} QueueBound(q: Queue, run: seq<Event>)
    requires q.free >= 0
    ensures NeverOverfills(q, run) <==> forall k :: 0 <= k <= |run| ==> Exec(q, run[..k]).free >= 0
    decreases |run|
  {
    assert run[..0] == [];
    if run != [] {
      OverfillsExactly(q, run[0]);
      assert Exec(q, run[..1]) == Next(q, run[0]) by {
        assert run[..1][1..] == [];
      }
      forall k | 0 < k <= |run| ensures Exec(q, run[..k]) == Exec(Next(q, run[0]), run[1..][..k - 1]) {
        assert run[..k][1..] == run[1..][..k - 1];
      }
      if Next(q, run[0]).free >= 0 {
        QueueBound(Next(q, run[0]), run[1..]);
        if forall k :: 0 <= k <= |run| ==> Exec(q, run[..k]).free >= 0 {
          forall k | 0 <= k <= |run[1..]| ensures Exec(Next(q, run[0]), run[1..][..k]).free >= 0 {
            assert Exec(q, run[..k + 1]).free >= 0;
          }
        }
      } else {
        assert Exec(q, run[..1]).free < 0;
      }
    }
  }

  /** Runs of raw sends and transmissions respect the bound with no condition at all. */
  lemma {:induction false} RawRunsFit(q: Queue, run: seq<Event>)
    requires q.free >= 0 && forall i :: 0 <= i < |run| ==> !run[i].Cooked?
    ensures NeverOverfills(q, run) && Exec(q, run).free >= 0
    decreases |run|
  {
    if run != [] {
      OverfillsExactly(q, run[0]);
      RawRunsFit(Next(q, run[0]), run[1..]);
    }
  }
}
