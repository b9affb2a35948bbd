/** Opening and closing the device: who has it open, and when its unit comes and goes. */
module Sana2Device {
  import opened Words
  import opened Sana2Requests
  import opened Sana2Unit

  const ED_MAXUNITS := 1

  /**
   * present: ed_Units[0] is set. handles: the opened requests that are still valid, each by the buffer management entry
   * it names. abandoned: requests a dissolved unit left behind. submitted: every request that ever arrived.
   */
  datatype Device = Device(unit: Unit, present: bool, openCnt: int, exclusive: bool, promiscuous: bool,
                           handles: set<nat>, abandoned: seq<Id>, submitted: seq<Id>)

  /** How the system answers an open: the stack check, the probe for the chip, and the two allocations. */
  datatype Setting = Setting(stack: bool, probe: bool, process: bool, memory: bool, address: seq<Byte>)

  function InitUnitProcess(s: Device, o: Setting): (s': Device) {
    if s.present || !o.process then s else s.(unit := FreshUnit(s.unit, o.address), present := true)
  }

  function WithOpener(d: Unit, handle: nat): (d': Unit) {
    d.(openers := d.openers + [Opener(handle, [])], openCnt := d.openCnt + 1)
  }

  function AddOpener(s: Device, handle: nat): (s': Device) {
    s.(unit := WithOpener(s.unit, handle), openCnt := s.openCnt + 1, handles := s.handles + {handle})
  }

  /** The checks in their order, with the caller already counted; the flags stay set when a later one fails. */
  function Flagged(s: Device, mine: bool, prom: bool): (r: (Device, bool)) {
    if mine && s.openCnt > 1 then (s, false)
    else
      var s1 := if mine then s.(exclusive := true) else s;
      if prom && !mine then (s1, false) else (if prom then s1.(promiscuous := true) else s1, true)
  }

  function Admitted(s: Device, handle: nat, mine: bool, prom: bool, o: Setting): (r: (Device, bool)) {
    var (s1, ok) := Flagged(s, mine, prom);
    if !ok || !o.probe then (s1, false)
    else
      var s2 := InitUnitProcess(s1, o);
      if s2.present && o.memory then (AddOpener(s2, handle), true) else (s2, false)
  }

  /** The caller is counted while its open is under way. */
  function OpenCounted(s: Device, handle: nat, unitNumber: nat, mine: bool, prom: bool, o: Setting): (r: (Device, bool)) {
    var counted := s.(openCnt := s.openCnt + 1);
    if o.stack && unitNumber < ED_MAXUNITS then Admitted(counted, handle, mine, prom, o) else (counted, false)
  }

  function OpenDevice(s: Device, handle: nat, unitNumber: nat, mine: bool, prom: bool, o: Setting): (r: (Device, bool)) {
    var (s', ok) := OpenCounted(s, handle, unitNumber, mine, prom, o);
    (s'.(openCnt := s'.openCnt - 1), ok)
  }

  function Dropped(openers: seq<Opener>, k: nat): (rest: seq<Opener>)
    requires k < |openers|
  {
    openers[..k] + openers[k + 1..]
  }

  /** Aborts the caller's reads and takes its buffer management entry off the list. */
  function RemoveOpener(d: Unit, handle: nat): (d': Unit) {
    var k := OpenerAt(d.openers, handle);
    if k == |d.openers| then d else AbortAll(d.(openers := Dropped(d.openers, k)), d.openers[k].rxQueue)
  }

  /** The unit process leaves its loop, takes the chip offline and the unit is freed, with whatever it still held. */
  function ExpungeUnit(s: Device): (s': Device) {
    if !s.present then s
    else
      s.(present := false, abandoned := s.abandoned + LeftBehind(s.unit), unit := ShutDown(s.unit))
  }

  /** One client less: flags reset, handle invalid, unit count down. */
  function Detached(s: Device, handle: nat): (s': Device) {
    var d := RemoveOpener(s.unit, handle);
    s.(unit := d.(openCnt := d.openCnt - 1), exclusive := false, promiscuous := false, handles := s.handles - {handle})
  }

  function CloseDevice(s: Device, handle: nat): (s': Device) {
    if handle !in s.handles then s
    else
      var s1 := Detached(s, handle);
      var s2 := if s1.unit.openCnt == 0 then ExpungeUnit(s1) else s1;
      s2.(openCnt := s2.openCnt - 1)
  }

  class EtherDevice {
    const unit: DeviceUnit
    var present: bool
    var openCnt: int
    var exclusive: bool
    var promiscuous: bool
    var handles: set<nat>
    var abandoned: seq<Id>
    var submitted: seq<Id>

    function State(): (s: Device)
      reads this, unit
    {
      Device(unit.State(), present, openCnt, exclusive, promiscuous, handles, abandoned, submitted)
    }

    constructor ()
      ensures State() == Closed()
    {
      unit := new DeviceUnit();
      present, openCnt, exclusive, promiscuous := false, 0, false, false;
      handles, abandoned, submitted := {}, [], [];
    }

    /** Returns whether the unit is there afterwards. */
    method InitUnit(o: Setting) returns (there: bool)
      modifies this`present, unit
      ensures State() == InitUnitProcess(old(State()), o) && there == present
    {
      if !present {
        if o.process {
          unit.Reset(o.address);
          present := true;
        }
      }
      return present;
    }

    method SetFlags(mine: bool, prom: bool) returns (ok: bool)
      modifies `exclusive, `promiscuous
      ensures (State(), ok) == Flagged(old(State()), mine, prom)
    {
      if mine {
        if openCnt > 1 {
          return false;
        }
        exclusive := true;
      }
      if prom {
        if !mine {
          return false;
        }
        promiscuous := true;
      }
      return true;
    }

    method AddClient(handle: nat)
      modifies this, unit
      ensures State() == AddOpener(old(State()), handle)
    {
      unit.openers := unit.openers + [Opener(handle, [])];
      openCnt := openCnt + 1;
      unit.openCnt := unit.openCnt + 1;
      handles := handles + {handle};
    }

    method Admit(handle: nat, mine: bool, prom: bool, o: Setting) returns (success: bool)
      modifies this, unit
      ensures (State(), success) == Admitted(old(State()), handle, mine, prom, o)
    {
      success := SetFlags(mine, prom);
      if !success || !o.probe {
        return false;
      }
      var there := InitUnit(o);
      if !there || !o.memory {
        return false;
      }
      AddClient(handle);
    }

    method TryOpen(handle: nat, unitNumber: nat, mine: bool, prom: bool, o: Setting) returns (success: bool)
      modifies this, unit
      ensures (State(), success) == OpenCounted(old(State()), handle, unitNumber, mine, prom, o)
    {
      openCnt := openCnt + 1;
      if !o.stack {
        return false;
      }
      if unitNumber >= ED_MAXUNITS {
        return false;
      }
      success := Admit(handle, mine, prom, o);
    }

    method Open(handle: nat, unitNumber: nat, mine: bool, prom: bool, o: Setting) returns (success: bool)
      modifies this, unit
      ensures (State(), success) == OpenDevice(old(State()), handle, unitNumber, mine, prom, o)
    {
      success := TryOpen(handle, unitNumber, mine, prom, o);
      openCnt := openCnt - 1;
    }

    method FreeOpener(handle: nat)
      modifies unit
      ensures unit.State() == RemoveOpener(old(unit.State()), handle)
    {
      var k := 0;
      while k < |unit.openers| && unit.openers[k].id != handle
        invariant k <= |unit.openers| && forall j :: 0 <= j < k ==> unit.openers[j].id != handle
      {
        k := k + 1;
      }
      if k < |unit.openers| {
        var left := unit.AbortReqList(unit.openers[k].rxQueue);
        unit.openers := unit.openers[..k] + unit.openers[k + 1..];
      }
    }

    method Expunge()
      modifies this`present, this`abandoned, unit
      ensures State() == ExpungeUnit(old(State()))
    {
      if present {
        var left := unit.Stop();
        abandoned := abandoned + left;
        present := false;
      }
    }

    method Detach(handle: nat)
      modifies `exclusive, `promiscuous, `handles, unit
      ensures State() == Detached(old(State()), handle)
    {
      FreeOpener(handle);
      exclusive, promiscuous := false, false;
      handles := handles - {handle};
      unit.openCnt := unit.openCnt - 1;
    }

    method Close(handle: nat)
      modifies this, unit
      ensures State() == CloseDevice(old(State()), handle)
    {
      if handle in handles {
        Detach(handle);
        if unit.openCnt == 0 {
          Expunge();
        }
        openCnt := openCnt - 1;
      }
    }
  }

  /** The device as it is loaded. */
  function Closed(): (s: Device) {
    Device(Unit(map[], [], [], [], [], [], [], [], false, false, [], Irq(false, 0, 0), 0), false, 0, false, false, {},
           [], [])
  }
}
