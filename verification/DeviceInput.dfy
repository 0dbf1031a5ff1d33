/** What reading the events of a device does to it and to everything else, told by the events as they
    come (src/input/evdev.c). */
module DeviceInput {

  import opened Bits
  import opened EvdevDevices
  import opened PollLoop

  /** The events before the one that ends the program. */
  function UpToQuit(inputs: seq<Read>): (read: seq<Read>)
    ensures Quits !in read && read <= inputs
    ensures |read| < |inputs| ==> inputs[|read|] == Quits
  {
    if inputs == [] || inputs[0] == Quits then [] else [inputs[0]] + UpToQuit(inputs[1..])
  }

  /** Something changed that no synchronisation event has reported since. */
  ghost predicate Pends(before: bool, read: seq<Read>)
  {
    (before && Synchronises !in read) ||
    exists j :: 0 <= j < |read| && read[j] == Modifies && Synchronises !in read[j + 1..]
  }

  /** Some synchronisation event reports a change. */
  ghost predicate Reports(before: bool, read: seq<Read>)
  {
    exists j :: 0 <= j < |read| && read[j] == Synchronises && (before || Modifies in read[..j])
  }

  /** The lowest of sixteen ids that the mask leaves free is taken; with none free the id is 0. */
  ghost predicate TakesId(mask: nat, id: int, after: nat)
  {
    (0 <= id < 16 && !HasBit(mask, id) && (forall j: nat :: j < id ==> HasBit(mask, j)) &&
     forall j: nat :: HasBit(after, j) <==> j == id || HasBit(mask, j)) ||
    (id == 0 && after == mask && forall j: nat :: j < 16 ==> HasBit(mask, j))
  }

  lemma PendsNext(before: bool, e: Read, read: seq<Read>)
    requires e != Quits
    ensures Pends(before, [e] + read) <==> Pends(e == Modifies, read)
  {
    var all := [e] + read;
    assert all[1..] == read;
    forall j | 0 <= j < |read| ensures all[j + 2..] == read[j + 1..] && all[j + 1] == read[j] { }
    if Pends(before, all) {
      if before && Synchronises !in all {
        assert all[0] == e && forall x :: x in read ==> x in all;
        assert e == Modifies && Synchronises !in read;
      } else {
        var j :| 0 <= j < |all| && all[j] == Modifies && Synchronises !in all[j + 1..];
        if j > 0 { assert read[j - 1] == Modifies && Synchronises !in read[j..]; }
      }
    }
    if Pends(e == Modifies, read) {
      if e == Modifies && Synchronises !in read {
        assert all[0] == Modifies && all[0 + 1..] == read;
      } else {
        var j :| 0 <= j < |read| && read[j] == Modifies && Synchronises !in read[j + 1..];
        assert all[j + 1] == Modifies && Synchronises !in all[j + 1 + 1..];
      }
    }
  }

  lemma ReportsNext(before: bool, e: Read, read: seq<Read>)
    requires e != Quits
    ensures Reports(before, [e] + read) <==>
      (e == Synchronises && before) || Reports(before || e == Modifies, read)
  {
    var all := [e] + read;
    if Reports(before, all) {
      var j :| 0 <= j < |all| && all[j] == Synchronises && (before || Modifies in all[..j]);
      if j > 0 {
        assert all[..j] == [e] + read[..j - 1];
        assert read[j - 1] == Synchronises;
      }
    }
    if e == Synchronises && before { assert all[0] == Synchronises; }
    if Reports(before || e == Modifies, read) {
      ReportsLater(before, e, read);
    }
  }

  lemma ReportsLater(before: bool, e: Read, read: seq<Read>)
    requires Reports(before || e == Modifies, read)
    ensures Reports(before, [e] + read)
  {
    var all := [e] + read;
    var j :| 0 <= j < |read| && read[j] == Synchronises && (before || e == Modifies || Modifies in read[..j]);
    assert all[..j + 1] == [e] + read[..j];
    assert all[j + 1] == Synchronises;
  }

  /** What is left of a device's input once it is read: the pending change and its id. */
  ghost predicate ReadInto(s: Core, k: nat, read: seq<Read>, t: Core)
    requires k < |s.devices|
  {
    && |t.devices| == |s.devices|
    && t == s.(devices := s.devices[k := t.devices[k]], mask := t.mask)
    && var d, e := s.devices[k], t.devices[k];
       && e.fd == d.fd
       && (e.gamepadModified <==> Pends(d.gamepadModified, read))
       && if d.controllerId < 0 && Reports(d.gamepadModified, read) then TakesId(s.mask, e.controllerId, t.mask)
          else e.controllerId == d.controllerId && t.mask == s.mask
  }

  function EventOf(k: nat, e: Read): Event { if e == Modifies then Modify(k) else Sync(k) }

  /** One event: it leaves a change pending or not, and gives an id or not. */
  ghost predicate StepInto(s: Core, k: nat, e: Read, t: Core)
    requires k < |s.devices|
  {
    && |t.devices| == |s.devices|
    && t == s.(devices := s.devices[k := t.devices[k]], mask := t.mask)
    && var d, f := s.devices[k], t.devices[k];
       && f.fd == d.fd && f.gamepadModified == (e == Modifies)
       && if e == Synchronises && d.gamepadModified && d.controllerId < 0
          then TakesId(s.mask, f.controllerId, t.mask)
          else f.controllerId == d.controllerId && t.mask == s.mask
  }

  lemma StepEffect(s: Core, k: nat, e: Read)
    requires k < |s.devices| && e != Quits
    ensures StepInto(s, k, e, Step(s, EventOf(k, e)))
  {
    var d := s.devices[k];
    if e == Synchronises && d.gamepadModified && d.controllerId < 0 {
      var id := LowestFree(s.mask, 0);
      if id >= 0 {
        forall j: nat ensures HasBit(SetBit(s.mask, id), j) <==> j == id || HasBit(s.mask, j) {
          UpdateBit(s.mask, id, j);
        }
      }
    }
  }

  lemma StepThenRead(s: Core, k: nat, e: Read, u: Core, read: seq<Read>, t: Core)
    requires k < |s.devices| && e != Quits && StepInto(s, k, e, u) && ReadInto(u, k, read, t)
    ensures ReadInto(s, k, [e] + read, t)
  {
    PendsNext(s.devices[k].gamepadModified, e, read);
    ReportsNext(s.devices[k].gamepadModified, e, read);
    assert u.devices[k := t.devices[k]] == s.devices[k := t.devices[k]];
    if s.devices[k].controllerId < 0 && e == Synchronises && s.devices[k].gamepadModified {
      assert u.devices[k].controllerId >= 0;
    } else if e == Synchronises && !s.devices[k].gamepadModified {
      assert !u.devices[k].gamepadModified;
    }
  }

  /** Reading a device changes that device only.  It ends with a change pending exactly when the
      last change was not reported, and gets an id exactly when it had none and reports one. */
  lemma {:induction false} ReadEffect(s: Core, k: nat, inputs: seq<Read>)
    requires k < |s.devices|
    ensures PossibleRun(s, ReadEvents(k, inputs))
    ensures ReadInto(s, k, UpToQuit(inputs), After(s, ReadEvents(k, inputs)))
    decreases |inputs|
  {
    ReadEventsPossible(s, k, inputs);
    if inputs == [] || inputs[0] == Quits {
      assert s.devices == s.devices[k := s.devices[k]];
    } else {
      var u := Step(s, EventOf(k, inputs[0]));
      StepEffect(s, k, inputs[0]);
      ReadEffect(u, k, inputs[1..]);
      var t := After(u, ReadEvents(k, inputs[1..]));
      StepThenRead(s, k, inputs[0], u, UpToQuit(inputs[1..]), t);
      assert ReadEvents(k, inputs)[1..] == ReadEvents(k, inputs[1..]);
      assert t == After(s, ReadEvents(k, inputs));
    }
  }

  /** The device and its registration are taken out; what stays is as it was. */
  ghost predicate TakenOut(s: Core, fd: int, t: Core)
  {
    && !HasDevice(t.devices, fd) && fd !in t.open && t.open == s.open - {fd} && t.nextReg == s.nextReg
    && (forall j :: 0 <= j < |t.table| ==> t.table[j].fd != fd)
    && (exists d: Device :: d.fd == fd && multiset(s.devices) == multiset(t.devices) + multiset{d})
    && (exists own: Slot ::
          own.fd == fd && own.handler == EVDEV_HANDLE && multiset(s.table) == multiset(t.table) + multiset{own})
  }

  lemma UnplugTakesOut(s: Core, k: nat)
    requires Agreement(s) && k < |s.devices|
    ensures Possible(s, Unplug(k)) && TakenOut(s, s.devices[k].fd, Step(s, Unplug(k)))
  {
    AgreementMakesUnplugLocal(s, k);
    var d := s.devices[k];
    var t := Step(s, Unplug(k));
    var i := IndexOf(s.table, d.fd);
    RemoveDeviceFds(s.devices, k);
    SlotGone(s.table, i);
    GivenBack(s.devices, d, t.devices);
    GivenBack(s.table, s.table[i], t.table);
  }

  lemma SlotGone(t: Table, i: nat)
    requires DistinctSlotFds(t) && i < |t|
    ensures forall j :: 0 <= j < |Remove(t, t[i].fd)| ==> Remove(t, t[i].fd)[j].fd != t[i].fd
  {
    RemovePolled(t, i);
    assert forall j :: 0 <= j < |t| - 1 ==> RemoveAt(t, i)[j] == t[if j == i then |t| - 1 else j];
  }

  lemma GivenBack<T>(all: seq<T>, x: T, rest: seq<T>)
    requires x in all && multiset(rest) == multiset(all) - multiset{x}
    ensures multiset(all) == multiset(rest) + multiset{x}
  {
    assert x in multiset(all);
  }

  /** Device k was read, and taken out when it is gone and no event ended the program. */
  ghost predicate Handled(s: Core, k: nat, inputs: seq<Read>, gone: bool, t: Core)
    requires k < |s.devices|
  {
    exists read: Core ::
      ReadInto(s, k, UpToQuit(inputs), read) &&
      if gone && Quits !in inputs then TakenOut(read, s.devices[k].fd, t) else t == read
  }

  lemma {:induction false} DeviceEffect(s: Core, k: nat, inputs: seq<Read>, gone: bool)
    requires Agreement(s) && k < |s.devices|
    ensures var es := DeviceEvents(k, inputs, gone); PossibleRun(s, es) && Handled(s, k, inputs, gone, After(s, es))
  {
    ReadEffect(s, k, inputs);
    var read := After(s, ReadEvents(k, inputs));
    RunKeepsAgreement(s, ReadEvents(k, inputs));
    if gone && Quits !in inputs {
      UnplugTakesOut(read, k);
      RunSnoc(s, ReadEvents(k, inputs), Unplug(k));
    } else {
      assert DeviceEvents(k, inputs, gone) == ReadEvents(k, inputs);
    }
    assert ReadInto(s, k, UpToQuit(inputs), read);
  }

  /** A call of evdev_handle does this to the device of the descriptor. */
  lemma HandleEffect(s: Core, fd: int, inputs: seq<Read>, gone: bool, k: nat)
    requires Agreement(s) && k < |s.devices| && s.devices[k].fd == fd
    ensures var es := HandleEvents(s.devices, fd, inputs, gone);
            PossibleRun(s, es) && Handled(s, k, inputs, gone, After(s, es))
  {
    FirstDevice(s.devices, fd, k);
    DeviceEffect(s, k, inputs, gone);
  }

  /** Without a device of the descriptor it does nothing. */
  lemma HandleNothing(s: Core, fd: int, inputs: seq<Read>, gone: bool)
    requires !HasDevice(s.devices, fd)
    ensures HandleEvents(s.devices, fd, inputs, gone) == []
  {
    NoDevice(s.devices, fd);
  }

  ghost predicate ChangeReported(read: seq<Read>)
  {
    exists i, j :: 0 <= i < j < |read| && read[i] == Modifies && read[j] == Synchronises
  }

  lemma ReportsAfterChange(read: seq<Read>)
    ensures Reports(false, read) <==> ChangeReported(read)
  {
    if Reports(false, read) {
      var j :| 0 <= j < |read| && read[j] == Synchronises && Modifies in read[..j];
      var i :| 0 <= i < j && read[..j][i] == Modifies;
      assert read[i] == Modifies;
    }
    if i, j :| 0 <= i < j < |read| && read[i] == Modifies && read[j] == Synchronises {
      assert read[..j][i] == Modifies;
    }
  }

  /** A device just plugged in goes last, and after its first reading has an id exactly when it
      changed and then synchronised. */
  lemma NewDeviceId(s: Core, fd: int, leftover: int, inputs: seq<Read>)
    requires Agreement(s) && fd !in s.open && fd > 0
    ensures var t := Step(s, Plug(fd, false, leftover));
            var es := HandleEvents(t.devices, fd, inputs, false);
            PossibleRun(t, es) && |After(t, es).devices| == |s.devices| + 1
            && After(t, es).devices[..|s.devices|] == s.devices
            && After(t, es).devices[|s.devices|].fd == fd
            && (After(t, es).devices[|s.devices|].controllerId >= 0 <==> ChangeReported(UpToQuit(inputs)))
  {
    var t := Step(s, Plug(fd, false, leftover));
    var es := HandleEvents(t.devices, fd, inputs, false);
    StepKeepsAgreement(s, Plug(fd, false, leftover));
    HandleEffect(t, fd, inputs, false, |s.devices|);
    ReportsAfterChange(UpToQuit(inputs));
    assert ReadInto(t, |s.devices|, UpToQuit(inputs), After(t, es));
  }
}
