/** The input device table, its entries in the poll table, and controller ids
    (src/input/evdev.c, with src/loop.c).

    Devices come and go while the program runs.  Each has a slot in the poll table; both tables
    are edited by moving the last entry into a hole.  A device gets a controller id the first
    time it reports gamepad input, and the mask of assigned ids goes to the host. */
module EvdevDevices {
  import opened Bits
  import opened PollLoop

  /** The handler evdev_handle; other handlers have other numbers. */
  const EVDEV_HANDLE: Handler := 0

  /** The fields of struct input_device the tables and ids depend on. */
  datatype Device = Device(fd: int, controllerId: int, gamepadModified: bool)

  /** Both tables, the mask, and which descriptors the process has open. */
  datatype Core = Core(devices: seq<Device>, mask: nat, table: Table, nextReg: nat, open: set<int>)

  datatype Event =
    | Plug(fd: int, ignored: bool, leftover: int)        // evdev_create; accelerometers are ignored
    | Modify(k: nat)                                     // an event sets gamepadModified
    | Sync(k: nat)                                       // EV_SYN
    | Unplug(k: nat)                                     // evdev_remove
    | Register(fd: int, handler: Handler, leftover: int) // another part of the program adds a descriptor
    | Unregister(fd: int)                                // and takes it out and closes it

  /** What the operating system and the rest of the program guarantee: a new descriptor is not
      one already open, and only descriptors that are registered are unregistered. */
  predicate Possible(s: Core, e: Event)
  {
    match e
    case Plug(fd, _, _) => fd !in s.open
    case Modify(k) => k < |s.devices|
    case Sync(k) => k < |s.devices|
    case Unplug(k) => k < |s.devices| && s.table != []
    case Register(fd, handler, _) => fd !in s.open && handler != EVDEV_HANDLE
    case Unregister(fd) => exists j :: 0 <= j < |s.table| && s.table[j].fd == fd && s.table[j].handler != EVDEV_HANDLE
  }

  /** The lowest id from `i` on whose bit is clear, or -1. */
  function LowestFree(mask: nat, i: nat): (r: int)
    ensures -1 <= r < MAX_GAMEPADS
    ensures r >= 0 ==> i <= r && !HasBit(mask, r) && forall j :: i <= j < r ==> HasBit(mask, j)
    ensures r < 0 ==> forall j :: i <= j < MAX_GAMEPADS ==> HasBit(mask, j)
    decreases MAX_GAMEPADS - i
  {
    if i >= MAX_GAMEPADS then -1
    else if !HasBit(mask, i) then i
    else LowestFree(mask, i + 1)
  }

  function RemoveDevice(ds: seq<Device>, k: nat): seq<Device>
    requires k < |ds|
  {
    ds[k := ds[|ds| - 1]][..|ds| - 1]
  }

  function Step(s: Core, e: Event): Core
    requires Possible(s, e)
  {
    match e
    case Plug(fd, ignored, leftover) =>
      if fd <= 0 || ignored then s
      else s.(devices := s.devices + [Device(fd, -1, false)],
              table := s.table + [Slot(fd, EVDEV_HANDLE, leftover, s.nextReg)],
              nextReg := s.nextReg + 1,
              open := s.open + {fd})
    case Modify(k) => s.(devices := s.devices[k := s.devices[k].(gamepadModified := true)])
    case Sync(k) =>
      var d := s.devices[k];
      if !d.gamepadModified then s
      else if d.controllerId >= 0 then s.(devices := s.devices[k := d.(gamepadModified := false)])
      else
        var id := LowestFree(s.mask, 0);
        if id < 0 then s.(devices := s.devices[k := Device(d.fd, 0, false)])
        else s.(devices := s.devices[k := Device(d.fd, id, false)], mask := SetBit(s.mask, id))
    case Unplug(k) =>
      var d := s.devices[k];
      s.(devices := RemoveDevice(s.devices, k),
         mask := if d.controllerId >= 0 then ClearBit(s.mask, d.controllerId) else s.mask,
         table := Remove(s.table, d.fd),
         open := s.open - {d.fd})
    case Register(fd, handler, leftover) =>
      s.(table := s.table + [Slot(fd, handler, leftover, s.nextReg)], nextReg := s.nextReg + 1, open := s.open + {fd})
    case Unregister(fd) =>
      s.(table := Remove(s.table, fd), open := s.open - {fd})
  }

  function Initial(open: set<int>): Core { Core([], 0, [], 0, open) }

  /** A sequence of events the environment can produce from `s`. */
  predicate PossibleRun(s: Core, es: seq<Event>)
    decreases |es|
  {
    es == [] || (Possible(s, es[0]) && PossibleRun(Step(s, es[0]), es[1..]))
  }

  function After(s: Core, es: seq<Event>): Core
    requires PossibleRun(s, es)
    decreases |es|
  {
    if es == [] then s else After(Step(s, es[0]), es[1..])
  }

  // ---------------------------------------------------------------------------------------
  // Devices and poll table agree

  ghost predicate DistinctDeviceFds(ds: seq<Device>)
  {
    forall j, k :: 0 <= j < k < |ds| ==> ds[j].fd != ds[k].fd
  }

  ghost predicate DistinctSlotFds(t: Table)
  {
    forall j, k :: 0 <= j < k < |t| ==> t[j].fd != t[k].fd
  }

  ghost predicate Polled(t: Table, fd: int)
  {
    exists j :: 0 <= j < |t| && t[j].fd == fd && t[j].handler == EVDEV_HANDLE
  }

  ghost predicate HasDevice(ds: seq<Device>, fd: int)
  {
    exists k :: 0 <= k < |ds| && ds[k].fd == fd
  }

  ghost predicate SameFds(ds: seq<Device>, t: Table)
  {
    forall fd :: HasDevice(ds, fd) <==> Polled(t, fd)
  }

  ghost predicate AllOpen(t: Table, open: set<int>)
  {
    forall j :: 0 <= j < |t| ==> t[j].fd in open
  }

  /** Descriptors are distinct in both tables, a descriptor is polled for evdev exactly when it
      is a device's, and everything polled is open. */
  ghost predicate Agreement(s: Core)
  {
    && DistinctDeviceFds(s.devices)
    && DistinctSlotFds(s.table)
    && SameFds(s.devices, s.table)
    && AllOpen(s.table, s.open)
    && WellNumbered(s.table, s.nextReg)
  }

  lemma PolledAfterRemove(t: Table, j: nat, fd: int)
    requires DistinctSlotFds(t) && j < |t|
    ensures Polled(RemoveAt(t, j), fd) <==> Polled(t, fd) && fd != t[j].fd
  {
    var u := RemoveAt(t, j);
    var n := |t| - 1;
    if Polled(t, fd) && fd != t[j].fd {
      var i :| 0 <= i < |t| && t[i].fd == fd && t[i].handler == EVDEV_HANDLE;
      assert u[if i == n then j else i] == t[i];
    }
    if Polled(u, fd) {
      var i :| 0 <= i < |u| && u[i].fd == fd && u[i].handler == EVDEV_HANDLE;
      assert u[i] == t[if i == j then n else i];
    }
  }

  /** With distinct descriptors, taking a polled one out of the table takes out its only slot. */
  lemma RemovePolled(t: Table, j: nat)
    requires DistinctSlotFds(t) && j < |t|
    ensures IndexOf(t, t[j].fd) == j
    ensures Remove(t, t[j].fd) == RemoveAt(t, j)
    ensures DistinctSlotFds(RemoveAt(t, j))
    ensures forall fd :: Polled(RemoveAt(t, j), fd) <==> Polled(t, fd) && fd != t[j].fd
  {
    FirstIndex(t, t[j].fd, j);
    forall fd ensures Polled(RemoveAt(t, j), fd) <==> Polled(t, fd) && fd != t[j].fd {
      PolledAfterRemove(t, j, fd);
    }
  }

  lemma RemoveDeviceFds(ds: seq<Device>, k: nat)
    requires DistinctDeviceFds(ds) && k < |ds|
    ensures DistinctDeviceFds(RemoveDevice(ds, k))
    ensures forall fd :: HasDevice(RemoveDevice(ds, k), fd) <==> HasDevice(ds, fd) && fd != ds[k].fd
  {
    var u := RemoveDevice(ds, k);
    var n := |ds| - 1;
    forall fd ensures HasDevice(u, fd) <==> HasDevice(ds, fd) && fd != ds[k].fd {
      if HasDevice(ds, fd) && fd != ds[k].fd {
        var i :| 0 <= i < |ds| && ds[i].fd == fd;
        assert u[if i == n then k else i] == ds[i];
      }
      if HasDevice(u, fd) {
        var i :| 0 <= i < |u| && u[i].fd == fd;
        assert u[i] == ds[if i == k then n else i];
      }
    }
  }

  /** Changing other fields of a device changes neither table of descriptors. */
  lemma UpdateDeviceFds(ds: seq<Device>, k: nat, d: Device)
    requires k < |ds| && d.fd == ds[k].fd
    ensures DistinctDeviceFds(ds) ==> DistinctDeviceFds(ds[k := d])
    ensures forall fd :: HasDevice(ds[k := d], fd) <==> HasDevice(ds, fd)
  {
    var u := ds[k := d];
    forall fd ensures HasDevice(u, fd) <==> HasDevice(ds, fd) {
      if HasDevice(ds, fd) {
        var i :| 0 <= i < |ds| && ds[i].fd == fd;
        assert u[i].fd == fd;
      }
      if HasDevice(u, fd) {
        var i :| 0 <= i < |u| && u[i].fd == fd;
        assert ds[i].fd == fd;
      }
    }
  }

  lemma AppendFds(ds: seq<Device>, d: Device)
    ensures forall fd :: HasDevice(ds + [d], fd) <==> HasDevice(ds, fd) || fd == d.fd
  {
    forall fd ensures HasDevice(ds + [d], fd) <==> HasDevice(ds, fd) || fd == d.fd {
      if HasDevice(ds, fd) {
        var i :| 0 <= i < |ds| && ds[i].fd == fd;
        assert (ds + [d])[i].fd == fd;
      }
      assert (ds + [d])[|ds|] == d;
    }
  }

  lemma AppendPolled(t: Table, slot: Slot)
    ensures forall fd :: Polled(t + [slot], fd) <==> Polled(t, fd) || (fd == slot.fd && slot.handler == EVDEV_HANDLE)
  {
    forall fd ensures Polled(t + [slot], fd) <==> Polled(t, fd) || (fd == slot.fd && slot.handler == EVDEV_HANDLE) {
      if Polled(t, fd) {
        var i :| 0 <= i < |t| && t[i].fd == fd && t[i].handler == EVDEV_HANDLE;
        assert (t + [slot])[i] == t[i];
      }
      assert (t + [slot])[|t|] == slot;
    }
  }

  lemma PlugKeepsAgreement(s: Core, e: Event)
    requires Agreement(s) && Possible(s, e) && (e.Plug? || e.Register?)
    ensures Agreement(Step(s, e))
  {
    var t := Step(s, e);
    if e.Plug? && e.fd > 0 && !e.ignored {
      AppendFds(s.devices, Device(e.fd, -1, false));
      assert !HasDevice(s.devices, e.fd);
    }
    if e.Register? || (e.fd > 0 && !e.ignored) {
      AppendPolled(s.table, t.table[|s.table|]);
    }
  }

  lemma UnplugKeepsAgreement(s: Core, k: nat)
    requires Agreement(s) && Possible(s, Unplug(k))
    ensures Agreement(Step(s, Unplug(k)))
  {
    var fd := s.devices[k].fd;
    assert HasDevice(s.devices, fd);
    var j :| 0 <= j < |s.table| && s.table[j].fd == fd && s.table[j].handler == EVDEV_HANDLE;
    RemovePolled(s.table, j);
    RemoveKeepsOpen(s.table, j, s.open);
    RemoveDeviceFds(s.devices, k);
    var t := Step(s, Unplug(k));
    assert t.table == RemoveAt(s.table, j) && t.devices == RemoveDevice(s.devices, k);
  }

  lemma RemoveKeepsOpen(t: Table, j: nat, open: set<int>)
    requires DistinctSlotFds(t) && AllOpen(t, open) && j < |t|
    ensures AllOpen(RemoveAt(t, j), open - {t[j].fd})
  {
    var n := |t| - 1;
    assert forall k :: 0 <= k < n ==> RemoveAt(t, j)[k] == t[if k == j then n else k];
  }

  lemma UnregisterKeepsAgreement(s: Core, fd: int)
    requires Agreement(s) && Possible(s, Unregister(fd))
    ensures Agreement(Step(s, Unregister(fd)))
  {
    var j :| 0 <= j < |s.table| && s.table[j].fd == fd && s.table[j].handler != EVDEV_HANDLE;
    RemovePolled(s.table, j);
    RemoveKeepsOpen(s.table, j, s.open);
    assert !Polled(s.table, fd);
    assert Step(s, Unregister(fd)).table == RemoveAt(s.table, j);
  }

  lemma StepKeepsAgreement(s: Core, e: Event)
    requires Agreement(s) && Possible(s, e)
    ensures Agreement(Step(s, e))
  {
    match e
    case Plug(_, _, _) => PlugKeepsAgreement(s, e);
    case Register(_, _, _) => PlugKeepsAgreement(s, e);
    case Modify(k) => UpdateDeviceFds(s.devices, k, Step(s, e).devices[k]);
    case Sync(k) => UpdateDeviceFds(s.devices, k, Step(s, e).devices[k]);
    case Unplug(k) => UnplugKeepsAgreement(s, k);
    case Unregister(fd) => UnregisterKeepsAgreement(s, fd);
  }

  /** In every run of hotplug, input and unplug, devices and poll table agree. */
  lemma {:induction false} RunKeepsAgreement(s: Core, es: seq<Event>)
    requires Agreement(s) && PossibleRun(s, es)
    ensures Agreement(After(s, es))
    decreases |es|
  {
    if es != [] {
      StepKeepsAgreement(s, es[0]);
      RunKeepsAgreement(Step(s, es[0]), es[1..]);
    }
  }

  /** The only slot polling the device's descriptor is its own, and taking it out leaves every
      other registration and device exactly as it was. */
  ghost predicate UnplugIsLocal(s: Core, k: nat)
  {
    && Possible(s, Unplug(k))
    && var own := s.table[IndexOf(s.table, s.devices[k].fd)];
       && own.fd == s.devices[k].fd && own.handler == EVDEV_HANDLE
       && (forall j :: 0 <= j < |s.table| && s.table[j].fd == own.fd ==> s.table[j] == own)
       && multiset(Step(s, Unplug(k)).table) == multiset(s.table) - multiset{own}
       && multiset(Step(s, Unplug(k)).devices) == multiset(s.devices) - multiset{s.devices[k]}
  }

  lemma RemoveDeviceTakesOne(ds: seq<Device>, k: nat)
    requires k < |ds|
    ensures multiset(RemoveDevice(ds, k)) == multiset(ds) - multiset{ds[k]}
  {
    var n := |ds| - 1;
    assert ds == ds[..n] + [ds[n]];
    if k < n {
      assert RemoveDevice(ds, k) == ds[..n][k := ds[n]];
    }
  }

  lemma PolledSlotIsUnique(t: Table, fd: int)
    requires DistinctSlotFds(t) && Polled(t, fd)
    ensures t != []
    ensures var own := t[IndexOf(t, fd)];
            && own.fd == fd && own.handler == EVDEV_HANDLE
            && forall j :: 0 <= j < |t| && t[j].fd == fd ==> t[j] == own
  {
    var j :| 0 <= j < |t| && t[j].fd == fd && t[j].handler == EVDEV_HANDLE;
    FirstIndex(t, fd, j);
  }

  lemma AgreementMakesUnplugLocal(s: Core, k: nat)
    requires Agreement(s) && k < |s.devices|
    ensures UnplugIsLocal(s, k)
  {
    var fd := s.devices[k].fd;
    assert HasDevice(s.devices, fd);
    PolledSlotIsUnique(s.table, fd);
    RemoveTakesOne(s.table, fd);
    RemoveDeviceTakesOne(s.devices, k);
  }

  /** So in every run the descriptor evdev_remove hands to loop_remove_fd is in the table, once,
      with evdev's own handler. */
  lemma UnplugRemovesOnlyItsSlot(open: set<int>, es: seq<Event>, k: nat)
    requires PossibleRun(Initial(open), es) && k < |After(Initial(open), es).devices|
    ensures UnplugIsLocal(After(Initial(open), es), k)
  {
    RunKeepsAgreement(Initial(open), es);
    AgreementMakesUnplugLocal(After(Initial(open), es), k);
  }

  // ---------------------------------------------------------------------------------------
  // Controller ids

  ghost predicate Holds(ds: seq<Device>, id: int)
  {
    exists k :: 0 <= k < |ds| && ds[k].controllerId == id
  }

  ghost predicate IdsInRange(ds: seq<Device>)
  {
    forall k :: 0 <= k < |ds| ==> -1 <= ds[k].controllerId < MAX_GAMEPADS
  }

  /** Every id in the mask is some device's. */
  ghost predicate MaskHeld(s: Core)
  {
    IdsInRange(s.devices) && forall id: nat :: HasBit(s.mask, id) ==> Holds(s.devices, id)
  }

  ghost predicate IdsDistinct(s: Core)
  {
    forall j, k :: 0 <= j < k < |s.devices| && s.devices[j].controllerId >= 0 ==>
      s.devices[j].controllerId != s.devices[k].controllerId
  }

  /** The mask is exactly the ids held, and no id is held twice. */
  ghost predicate MaskExact(s: Core)
  {
    && IdsInRange(s.devices)
    && IdsDistinct(s)
    && forall id: nat :: HasBit(s.mask, id) <==> Holds(s.devices, id)
  }

  /** The event gives a device id 0 because all ids are taken. */
  predicate FallsBack(s: Core, e: Event)
    requires Possible(s, e)
  {
    && e.Sync?
    && s.devices[e.k].gamepadModified
    && s.devices[e.k].controllerId < 0
    && LowestFree(s.mask, 0) < 0
  }

  lemma HoldsUpdate(ds: seq<Device>, k: nat, d: Device)
    requires k < |ds|
    ensures forall id :: Holds(ds[k := d], id) ==> Holds(ds, id) || id == d.controllerId
    ensures forall id :: Holds(ds, id) && id != ds[k].controllerId ==> Holds(ds[k := d], id)
    ensures Holds(ds[k := d], d.controllerId)
  {
    var u := ds[k := d];
    assert u[k] == d;
    forall id | Holds(ds, id) && id != ds[k].controllerId ensures Holds(u, id) {
      var i :| 0 <= i < |ds| && ds[i].controllerId == id;
      assert u[i] == ds[i];
    }
  }

  lemma HoldsRemove(ds: seq<Device>, k: nat)
    requires k < |ds|
    ensures forall id :: Holds(RemoveDevice(ds, k), id) ==> Holds(ds, id)
    ensures forall id :: Holds(ds, id) && id != ds[k].controllerId ==> Holds(RemoveDevice(ds, k), id)
  {
    var u := RemoveDevice(ds, k);
    var n := |ds| - 1;
    forall id | Holds(ds, id) && id != ds[k].controllerId ensures Holds(u, id) {
      var i :| 0 <= i < |ds| && ds[i].controllerId == id;
      assert u[if i == n then k else i] == ds[i];
    }
    forall id | Holds(u, id) ensures Holds(ds, id) {
      var i :| 0 <= i < |u| && u[i].controllerId == id;
      assert u[i] == ds[if i == k then n else i];
    }
  }

  lemma HoldsAppend(ds: seq<Device>, d: Device)
    ensures forall id :: Holds(ds + [d], id) <==> Holds(ds, id) || id == d.controllerId
  {
    forall id ensures Holds(ds + [d], id) <==> Holds(ds, id) || id == d.controllerId {
      if Holds(ds, id) {
        var i :| 0 <= i < |ds| && ds[i].controllerId == id;
        assert (ds + [d])[i] == ds[i];
      }
      assert (ds + [d])[|ds|] == d;
    }
  }

  lemma StepKeepsMaskHeld(s: Core, e: Event)
    requires MaskHeld(s) && Possible(s, e)
    ensures MaskHeld(Step(s, e))
  {
    var t := Step(s, e);
    match e
    case Plug(fd, ignored, _) =>
      HoldsAppend(s.devices, Device(fd, -1, false));
    case Modify(k) =>
      HoldsUpdate(s.devices, k, t.devices[k]);
    case Sync(k) =>
      HoldsUpdate(s.devices, k, t.devices[k]);
      forall id: nat | HasBit(t.mask, id) ensures Holds(t.devices, id) {
        if t.mask != s.mask { UpdateBit(s.mask, LowestFree(s.mask, 0), id); }
      }
    case Unplug(k) =>
      HoldsRemove(s.devices, k);
      forall id: nat | HasBit(t.mask, id) ensures Holds(t.devices, id) {
        if s.devices[k].controllerId >= 0 { UpdateBit(s.mask, s.devices[k].controllerId, id); }
      }
    case _ =>
  }

  /** In every run, even one that runs out of ids, each id in the mask is held by some device. */
  lemma {:induction false} RunKeepsMaskHeld(s: Core, es: seq<Event>)
    requires MaskHeld(s) && PossibleRun(s, es)
    ensures MaskHeld(After(s, es))
    decreases |es|
  {
    if es != [] {
      StepKeepsMaskHeld(s, es[0]);
      RunKeepsMaskHeld(Step(s, es[0]), es[1..]);
    }
  }

  lemma SyncKeepsMaskExact(s: Core, k: nat)
    requires MaskExact(s) && Possible(s, Sync(k)) && !FallsBack(s, Sync(k))
    ensures MaskExact(Step(s, Sync(k)))
  {
    var t := Step(s, Sync(k));
    HoldsUpdate(s.devices, k, t.devices[k]);
    if t.mask != s.mask {
      var id := LowestFree(s.mask, 0);
      assert !Holds(s.devices, id);
      forall other: nat ensures HasBit(t.mask, other) <==> HasBit(s.mask, other) || other == id {
        UpdateBit(s.mask, id, other);
      }
    } else if s.devices[k].controllerId < 0 && s.devices[k].gamepadModified {
      UpdateBit(s.mask, LowestFree(s.mask, 0), LowestFree(s.mask, 0));
    }
  }

  lemma UnplugKeepsMaskExact(s: Core, k: nat)
    requires MaskExact(s) && Possible(s, Unplug(k))
    ensures MaskExact(Step(s, Unplug(k)))
  {
    var t := Step(s, Unplug(k));
    HoldsRemove(s.devices, k);
    var c := s.devices[k].controllerId;
    forall id: nat ensures HasBit(t.mask, id) <==> HasBit(s.mask, id) && id != c {
      if c >= 0 { UpdateBit(s.mask, c, id); }
    }
    if c >= 0 { assert !Holds(t.devices, c); }
  }

  lemma StepKeepsMaskExact(s: Core, e: Event)
    requires MaskExact(s) && Possible(s, e) && !FallsBack(s, e)
    ensures MaskExact(Step(s, e))
  {
    match e
    case Plug(fd, ignored, _) => HoldsAppend(s.devices, Device(fd, -1, false));
    case Modify(k) => HoldsUpdate(s.devices, k, Step(s, e).devices[k]);
    case Sync(k) => SyncKeepsMaskExact(s, k);
    case Unplug(k) => UnplugKeepsMaskExact(s, k);
    case _ =>
  }

  /** No event of the run falls back to id 0. */
  predicate NeverFallsBack(s: Core, es: seq<Event>)
    requires PossibleRun(s, es)
    decreases |es|
  {
    es == [] || (!FallsBack(s, es[0]) && NeverFallsBack(Step(s, es[0]), es[1..]))
  }

  /** Ids are distinct at every moment of the run. */
  ghost predicate AlwaysDistinct(s: Core, es: seq<Event>)
    requires PossibleRun(s, es)
    decreases |es|
  {
    IdsDistinct(s) && (es != [] ==> AlwaysDistinct(Step(s, es[0]), es[1..]))
  }

  /** Without a fallback the mask stays exact. */
  lemma {:induction false} RunKeepsMaskExact(s: Core, es: seq<Event>)
    requires MaskExact(s) && PossibleRun(s, es) && NeverFallsBack(s, es)
    ensures MaskExact(After(s, es)) && AlwaysDistinct(s, es)
    decreases |es|
  {
    if es != [] {
      StepKeepsMaskExact(s, es[0]);
      RunKeepsMaskExact(Step(s, es[0]), es[1..]);
    }
  }

  /** The fallback hands out an id that a device already holds. */
  lemma FallbackSharesId(s: Core, e: Event)
    requires MaskExact(s) && Possible(s, e) && FallsBack(s, e)
    ensures !IdsDistinct(Step(s, e))
  {
    assert HasBit(s.mask, 0) && Holds(s.devices, 0);
    var j :| 0 <= j < |s.devices| && s.devices[j].controllerId == 0;
    var t := Step(s, e);
    assert t.devices[e.k].controllerId == 0 && t.devices[j].controllerId == 0 && j != e.k;
  }

  /** Ids are distinct throughout a run exactly when the run never falls back. */
  lemma {:induction false} DistinctIffNoFallback(s: Core, es: seq<Event>)
    requires MaskExact(s) && PossibleRun(s, es)
    ensures AlwaysDistinct(s, es) <==> NeverFallsBack(s, es)
    decreases |es|
  {
    if es != [] {
      if FallsBack(s, es[0]) {
        FallbackSharesId(s, es[0]);
      } else {
        StepKeepsMaskExact(s, es[0]);
        DistinctIffNoFallback(Step(s, es[0]), es[1..]);
      }
    }
  }

  /** From an empty device table: the mask is always held, ids stay distinct exactly while no pad
      falls back to id 0, and until then the mask is exactly the set of ids held. */
  lemma ControllerIdsFromStart(open: set<int>, es: seq<Event>)
    requires PossibleRun(Initial(open), es)
    ensures MaskHeld(After(Initial(open), es))
    ensures AlwaysDistinct(Initial(open), es) <==> NeverFallsBack(Initial(open), es)
    ensures NeverFallsBack(Initial(open), es) ==> MaskExact(After(Initial(open), es))
  {
    forall id: nat ensures !HasBit(0, id) {
      EmptyMask(id);
    }
    var s := Initial(open);
    assert MaskExact(s) && MaskHeld(s);
    RunKeepsMaskHeld(s, es);
    DistinctIffNoFallback(s, es);
    if NeverFallsBack(s, es) {
      RunKeepsMaskExact(s, es);
    }
  }

  /** n pads, plugged in one after the other, each with the id of its position. */
  ghost predicate PadsInOrder(s: Core, n: nat)
  {
    && |s.devices| == n && (forall k :: 0 <= k < n ==> s.devices[k] == Device(k + 1, k, false))
    && (forall fd :: fd in s.open ==> 1 <= fd <= n)
    && forall id: nat :: HasBit(s.mask, id) <==> id < n
  }

  /** Plugging in one pad more, up to the event that gives it an id. */
  lemma NextPad(es: seq<Event>, n: nat) returns (next: seq<Event>)
    requires PossibleRun(Initial({}), es) && PadsInOrder(After(Initial({}), es), n)
    ensures PossibleRun(Initial({}), next)
    ensures var s, t := After(Initial({}), es), After(Initial({}), next);
            && t.devices == s.devices + [Device(n + 1, -1, true)]
            && t.mask == s.mask && t.open == s.open + {n + 1}
  {
    var s := After(Initial({}), es);
    RunSnoc(Initial({}), es, Plug(n + 1, false, 0));
    next := es + [Plug(n + 1, false, 0)];
    var t := After(Initial({}), next);
    assert t.devices == s.devices + [Device(n + 1, -1, false)];
    RunSnoc(Initial({}), next, Modify(n));
    next := next + [Modify(n)];
  }

  lemma {:induction false} PadsRun(n: nat) returns (es: seq<Event>)
    requires n <= MAX_GAMEPADS
    ensures PossibleRun(Initial({}), es) && PadsInOrder(After(Initial({}), es), n)
    decreases n
  {
    if n == 0 {
      es := [];
      forall id: nat ensures !HasBit(0, id) { EmptyMask(id); }
    } else {
      es := PadsRun(n - 1);
      ghost var mask := After(Initial({}), es).mask;
      es := NextPad(es, n - 1);
      var s := After(Initial({}), es);
      RunSnoc(Initial({}), es, Sync(n - 1));
      es := es + [Sync(n - 1)];
      MaskWith(mask, n - 1);
    }
  }

  lemma MaskWith(mask: nat, n: nat)
    requires n <= MAX_GAMEPADS && forall id: nat :: HasBit(mask, id) <==> id < n
    ensures LowestFree(mask, 0) == if n < MAX_GAMEPADS then n else -1
    ensures forall id: nat :: HasBit(SetBit(mask, n), id) <==> id < n + 1
  {
    forall id: nat ensures HasBit(SetBit(mask, n), id) <==> id < n + 1 { UpdateBit(mask, n, id); }
    assert !HasBit(mask, n);
  }

  /** A run that takes the fallback: the seventeenth pad shares id 0 with the first. */
  lemma SeventeenthPadFallsBack() returns (es: seq<Event>)
    ensures PossibleRun(Initial({}), es) && !NeverFallsBack(Initial({}), es)
    ensures var ds := After(Initial({}), es).devices;
            |ds| == MAX_GAMEPADS + 1 && ds[0].controllerId == ds[MAX_GAMEPADS].controllerId == 0
  {
    es := PadsRun(MAX_GAMEPADS);
    es := NextPad(es, MAX_GAMEPADS);
    var s := After(Initial({}), es);
    MaskWith(s.mask, MAX_GAMEPADS);
    RunSnoc(Initial({}), es, Sync(MAX_GAMEPADS));
    es := es + [Sync(MAX_GAMEPADS)];
    var ds := After(Initial({}), es).devices;
    assert ds[0].controllerId == ds[MAX_GAMEPADS].controllerId == 0;
    forall id: nat ensures !HasBit(0, id) { EmptyMask(id); }
    DistinctIffNoFallback(Initial({}), es);
    if AlwaysDistinct(Initial({}), es) { LastDistinct(Initial({}), es); }
  }

  lemma {:induction false} LastDistinct(s: Core, es: seq<Event>)
    requires PossibleRun(s, es) && AlwaysDistinct(s, es)
    ensures IdsDistinct(After(s, es))
    decreases |es|
  {
    if es != [] { LastDistinct(Step(s, es[0]), es[1..]); }
  }

  /** A new pad gets the lowest id no device holds, and keeps its descriptor. */
  lemma NewPadGetsLowestFree(s: Core, k: nat)
    requires MaskExact(s) && k < |s.devices|
    requires s.devices[k].gamepadModified && s.devices[k].controllerId < 0 && !FallsBack(s, Sync(k))
    ensures var d := Step(s, Sync(k)).devices[k];
            && d.fd == s.devices[k].fd && 0 <= d.controllerId < MAX_GAMEPADS
            && !Holds(s.devices, d.controllerId)
            && forall id :: 0 <= id < d.controllerId ==> Holds(s.devices, id)
  {
  }

  // ---------------------------------------------------------------------------------------
  // The program's own state and loops

  datatype Read = Modifies | Synchronises | Quits

  /** The events device k handles, up to the one that ends the program. */
  function ReadEvents(k: nat, inputs: seq<Read>): seq<Event>
  {
    if inputs == [] || inputs[0] == Quits then []
    else [if inputs[0] == Modifies then Modify(k) else Sync(k)] + ReadEvents(k, inputs[1..])
  }

  lemma {:induction false} ReadEventsPossible(s: Core, k: nat, inputs: seq<Read>)
    requires k < |s.devices|
    ensures PossibleRun(s, ReadEvents(k, inputs))
    decreases |inputs|
  {
    if inputs != [] && inputs[0] != Quits {
      var e := if inputs[0] == Modifies then Modify(k) else Sync(k);
      ReadEventsPossible(Step(s, e), k, inputs[1..]);
    }
  }

  function DeviceEvents(k: nat, inputs: seq<Read>, gone: bool): seq<Event>
  {
    ReadEvents(k, inputs) + if gone && Quits !in inputs then [Unplug(k)] else []
  }

  function DeviceIndex(ds: seq<Device>, fd: int): (k: nat)
    ensures k <= |ds|
  {
    if ds == [] || ds[0].fd == fd then 0 else 1 + DeviceIndex(ds[1..], fd)
  }

  lemma {:induction false} FirstDevice(ds: seq<Device>, fd: int, k: nat)
    requires k < |ds| && ds[k].fd == fd && forall j :: 0 <= j < k ==> ds[j].fd != fd
    ensures DeviceIndex(ds, fd) == k && HasDevice(ds, fd)
    decreases k
  {
    if k > 0 {
      FirstDevice(ds[1..], fd, k - 1);
    }
  }

  lemma {:induction false} NoDevice(ds: seq<Device>, fd: int)
    requires forall j :: 0 <= j < |ds| ==> ds[j].fd != fd
    ensures DeviceIndex(ds, fd) == |ds| && !HasDevice(ds, fd)
    decreases |ds|
  {
    if ds != [] {
      NoDevice(ds[1..], fd);
    }
  }

  /** What one call of evdev_handle does, as events. */
  function HandleEvents(ds: seq<Device>, fd: int, inputs: seq<Read>, gone: bool): seq<Event>
  {
    var k := DeviceIndex(ds, fd);
    if k == |ds| then []
    else DeviceEvents(k, inputs, gone)
  }

  lemma {:induction false} RunSnoc(s: Core, es: seq<Event>, e: Event)
    requires PossibleRun(s, es) && Possible(After(s, es), e)
    ensures PossibleRun(s, es + [e]) && After(s, es + [e]) == Step(After(s, es), e)
    decreases |es|
  {
    if es == [] {
      assert [e][1..] == [];
    } else {
      assert (es + [e])[1..] == es[1..] + [e];
      RunSnoc(Step(s, es[0]), es[1..], e);
    }
  }

  /** Moving the last live entry into the hole is the removal. */
  lemma MoveLastDown(ds: seq<Device>, n: nat, k: nat)
    requires k <= n < |ds|
    ensures (if k != n && n > 0 then ds[k := ds[n]] else ds)[..n] == RemoveDevice(ds[..n + 1], k)
  {
  }

  class Evdev {
    const loop: PollTable
    var devices: seq<Device>
    var numDevices: nat
    var assignedControllerIds: nat
    ghost var open: set<int>

    ghost predicate Valid()
      reads this, loop
    {
      numDevices <= |devices| && loop.Valid()
    }

    ghost function State(): Core
      reads this, loop
      requires Valid()
    {
      Core(devices[..numDevices], assignedControllerIds, loop.Slots(), loop.nextReg, open)
    }

    constructor (loop: PollTable, open: set<int>)
      requires loop.Valid() && loop.Slots() == [] && loop.nextReg == 0
      ensures Valid() && State() == Initial(open) && this.loop == loop
    {
      this.loop := loop;
      devices, numDevices, assignedControllerIds := [], 0, 0;
      this.open := open;
    }

    /** evdev_create, from the descriptor open() returned on. */
    method Create(fd: int, accelerometer: bool, leftover: int)
      requires Valid() && Possible(State(), Plug(fd, accelerometer, leftover))
      modifies this, loop
      ensures Valid() && State() == Step(old(State()), Plug(fd, accelerometer, leftover))
    {
      if fd <= 0 {
        return;
      }
      if accelerometer {
        return; // the descriptor is closed again
      }
      open := open + {fd};
      var dev := numDevices;
      numDevices := numDevices + 1;
      devices := devices[..dev] + [Device(fd, -1, false)];
      loop.AddFd(devices[dev].fd, EVDEV_HANDLE, leftover);
    }

    /** evdev_remove */
    method Remove(devindex: nat)
      requires Valid() && Possible(State(), Unplug(devindex))
      modifies this, loop
      ensures Valid() && State() == Step(old(State()), Unplug(devindex)) && numDevices == old(numDevices) - 1
      ensures forall m :: devindex < m < numDevices ==> devices[m] == old(devices[m])
    {
      numDevices := numDevices - 1;
      var d := devices[devindex];
      if d.controllerId >= 0 {
        assignedControllerIds := ClearBit(assignedControllerIds, d.controllerId);
      }
      loop.RemoveFd(d.fd);
      open := open - {d.fd};
      MoveLastDown(devices, numDevices, devindex);
      if devindex != numDevices && numDevices > 0 {
        devices := devices[devindex := devices[numDevices]];
      }
    }

    /** The EV_SYN case of evdev_handle_event, as far as controller ids go. */
    method Synchronise(k: nat)
      requires Valid() && k < numDevices
      modifies this
      ensures Valid() && State() == Step(old(State()), Sync(k)) && numDevices == old(numDevices)
      ensures forall m :: 0 <= m < numDevices ==> devices[m].fd == old(devices[m].fd)
    {
      if devices[k].gamepadModified {
        if devices[k].controllerId < 0 {
          var i := 0;
          while i < MAX_GAMEPADS
            invariant 0 <= i <= MAX_GAMEPADS
            invariant LowestFree(assignedControllerIds, 0) == LowestFree(assignedControllerIds, i)
          {
            if !HasBit(assignedControllerIds, i) {
              break;
            }
            i := i + 1;
          }
          if i < MAX_GAMEPADS {
            assignedControllerIds := SetBit(assignedControllerIds, i);
            devices := devices[k := devices[k].(controllerId := i)];
          }
          // all sixteen ids are taken
          if devices[k].controllerId < 0 {
            devices := devices[k := devices[k].(controllerId := 0)];
          }
        }
        devices := devices[k := devices[k].(gamepadModified := false)];
      }
    }

    method MarkModified(k: nat)
      requires Valid() && k < numDevices
      modifies this
      ensures Valid() && State() == Step(old(State()), Modify(k)) && numDevices == old(numDevices)
      ensures forall m :: 0 <= m < numDevices ==> devices[m].fd == old(devices[m].fd)
    {
      devices := devices[k := devices[k].(gamepadModified := true)];
    }

    /** evdev_handle: `inputs` is what libevdev returns for the descriptor before it would block,
        `gone` whether it then reports that the device is gone. */
    method Handle(fd: int, inputs: seq<Read>, gone: bool) returns (stop: bool)
      requires Valid() && Agreement(State())
      modifies this, loop
      ensures Valid()
      ensures var es := HandleEvents(old(State()).devices, fd, inputs, gone);
              PossibleRun(old(State()), es) && State() == After(old(State()), es)
      ensures stop <==> Quits in inputs && HasDevice(old(State()).devices, fd)
    {
      ghost var s := State();
      ghost var es := HandleEvents(s.devices, fd, inputs, gone);
      ghost var handled := false;
      var i := 0;
      while i < numDevices
        invariant Valid() && 0 <= i
        invariant !handled ==> State() == s && i <= numDevices && forall k :: 0 <= k < i ==> devices[k].fd != fd
        invariant handled ==> PossibleRun(s, es) && State() == After(s, es)
        invariant handled ==> Quits !in inputs && HasDevice(s.devices, fd)
        invariant handled ==> forall k :: i <= k < numDevices ==> devices[k].fd != fd
        decreases numDevices - i
      {
        if devices[i].fd == fd {
          handled := true;
          FirstDevice(s.devices, fd, i);
          assert es == DeviceEvents(i, inputs, gone);
          stop := HandleDevice(i, inputs, gone);
          if stop {
            return;
          }
        }
        i := i + 1;
      }
      if !handled {
        NoDevice(s.devices, fd);
      }
      stop := false;
    }

    /** What evdev_handle does for the device it finds. */
    method HandleDevice(k: nat, inputs: seq<Read>, gone: bool) returns (stop: bool)
      requires Valid() && Agreement(State()) && k < numDevices
      modifies this, loop
      ensures Valid()
      ensures var es := DeviceEvents(k, inputs, gone);
              PossibleRun(old(State()), es) && State() == After(old(State()), es)
      ensures stop <==> Quits in inputs
      ensures !stop ==> numDevices <= old(numDevices)
      ensures !stop ==> forall m :: k < m < numDevices ==> devices[m].fd == old(devices[m].fd)
    {
      ghost var s := State();
      ReadEventsPossible(s, k, inputs);
      stop := ReadInputs(k, inputs);
      if !stop && gone {
        RunKeepsAgreement(s, ReadEvents(k, inputs));
        AgreementMakesUnplugLocal(State(), k);
        RunSnoc(s, ReadEvents(k, inputs), Unplug(k));
        Remove(k);
      } else {
        assert DeviceEvents(k, inputs, gone) == ReadEvents(k, inputs);
      }
    }

    /** The inner loop of evdev_handle on device k. */
    method ReadInputs(k: nat, inputs: seq<Read>) returns (stop: bool)
      requires Valid() && k < numDevices
      requires PossibleRun(State(), ReadEvents(k, inputs))
      modifies this
      ensures Valid() && numDevices == old(numDevices)
      ensures forall m :: 0 <= m < numDevices ==> devices[m].fd == old(devices[m].fd)
      ensures State() == After(old(State()), ReadEvents(k, inputs))
      ensures stop <==> Quits in inputs
    {
      ghost var end := After(State(), ReadEvents(k, inputs));
      assert inputs[0..] == inputs;
      var j := 0;
      while j < |inputs|
        invariant 0 <= j <= |inputs| && Valid() && numDevices == old(numDevices)
        invariant PossibleRun(State(), ReadEvents(k, inputs[j..]))
        invariant After(State(), ReadEvents(k, inputs[j..])) == end
        invariant forall m :: 0 <= m < numDevices ==> devices[m].fd == old(devices[m].fd)
        invariant forall m :: 0 <= m < j ==> inputs[m] != Quits
      {
        assert inputs[j..][1..] == inputs[j + 1..];
        match inputs[j] {
          case Modifies => MarkModified(k);
          case Synchronises => Synchronise(k);
          case Quits => return true;
        }
        j := j + 1;
      }
      stop := false;
    }
  }
}
