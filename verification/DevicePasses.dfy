/** Dispatch passes in which handlers plug and unplug devices (src/input/evdev.c on top of
    src/loop.c): the edits made there always name descriptors that are in the poll table. */
module DevicePasses {

  import opened EvdevDevices
  import opened PollLoop

  /** The edit of the poll table that an event makes, if any. */
  function OpsOf(s: Core, e: Event): (ops: seq<Op>)
    requires Possible(s, e)
    ensures |ops| <= 1
  {
    match e
    case Plug(fd, ignored, leftover) => if fd <= 0 || ignored then [] else [Add(fd, EVDEV_HANDLE, leftover)]
    case Register(fd, handler, leftover) => [Add(fd, handler, leftover)]
    case Unplug(k) => [Del(s.devices[k].fd)]
    case Unregister(fd) => [Del(fd)]
    case _ => []
  }

  function RunOps(s: Core, es: seq<Event>): seq<Op>
    requires PossibleRun(s, es)
    decreases |es|
  {
    if es == [] then []
    else OpsOf(s, es[0]) + RunOps(Step(s, es[0]), es[1..])
  }

  /** The pass is at the table of the devices' state. */
  predicate At(p: Pass, s: Core)
  {
    p.table == s.table && p.nextReg == s.nextReg
  }

  lemma StepOps(p: Pass, s: Core, e: Event)
    requires Agreement(s) && Possible(s, e) && At(p, s)
    ensures var o := ApplyOps(p, OpsOf(s, e));
            o.Done? && At(o.p, Step(s, e)) && Named(s.table, s.nextReg, OpsOf(s, e))
  {
    var ops := OpsOf(s, e);
    assert ops != [] ==> ops[1..] == [];
    if e.Unplug? {
      AgreementMakesUnplugLocal(s, e.k);
      var j := IndexOf(s.table, s.devices[e.k].fd);
      assert s.table[j].fd == s.devices[e.k].fd;
    }
  }

  lemma {:induction false} OpsConcat(p: Pass, a: seq<Op>, b: seq<Op>)
    requires ApplyOps(p, a).Done?
    ensures ApplyOps(p, a + b) == ApplyOps(ApplyOps(p, a).p, b)
    decreases |a|
  {
    if a == [] {
      assert a + b == b;
    } else {
      assert (a + b)[1..] == a[1..] + b;
      match a[0]
      case Add(fd, handler, leftover) => OpsConcat(ApplyAdd(p, fd, handler, leftover), a[1..], b);
      case Del(fd) => OpsConcat(ApplyDel(p, fd), a[1..], b);
    }
  }

  /** Whatever devices do, their edits go through and leave the pass at the devices' table. */
  lemma {:induction false} RunOpsApply(p: Pass, s: Core, es: seq<Event>)
    requires Agreement(s) && PossibleRun(s, es) && At(p, s)
    ensures var o := ApplyOps(p, RunOps(s, es));
            o.Done? && At(o.p, After(s, es))
    decreases |es|
  {
    if es != [] {
      StepOps(p, s, es[0]);
      StepKeepsAgreement(s, es[0]);
      var ops := OpsOf(s, es[0]);
      RunOpsApply(ApplyOps(p, ops).p, Step(s, es[0]), es[1..]);
      OpsConcat(p, ops, RunOps(Step(s, es[0]), es[1..]));
    }
  }

  /** And each descriptor they take out is in the table at that moment. */
  lemma {:induction false} RunOpsNamed(s: Core, es: seq<Event>)
    requires Agreement(s) && PossibleRun(s, es)
    ensures Named(s.table, s.nextReg, RunOps(s, es))
    decreases |es|
  {
    if es != [] {
      var p := Begin(s.table, s.nextReg);
      StepOps(p, s, es[0]);
      StepKeepsAgreement(s, es[0]);
      RunOpsNamed(Step(s, es[0]), es[1..]);
      var ops, rest := OpsOf(s, es[0]), RunOps(Step(s, es[0]), es[1..]);
      assert ops == [] ==> ops + rest == rest;
      assert ops != [] ==> (ops + rest)[1..] == rest && ops[1..] == [];
    }
  }

  /** One handler call: what it does to the devices and the other registrations, and whether it
      ends the loop. */
  datatype Call = Call(events: seq<Event>, stop: bool)

  predicate PossibleCalls(s: Core, calls: seq<Call>)
    decreases |calls|
  {
    calls == [] ||
    (PossibleRun(s, calls[0].events) && PossibleCalls(After(s, calls[0].events), calls[1..]))
  }

  function RunsOf(s: Core, calls: seq<Call>): seq<Run>
    requires PossibleCalls(s, calls)
    decreases |calls|
  {
    if calls == [] then []
    else [Run(RunOps(s, calls[0].events), calls[0].stop)] + RunsOf(After(s, calls[0].events), calls[1..])
  }

  lemma {:induction false} CallsCovered(p: Pass, s: Core, calls: seq<Call>)
    requires Agreement(s) && PossibleCalls(s, calls) && At(p, s)
    ensures PassCovered(p, RunsOf(s, calls))
    decreases |calls|, |p.table| - p.i
  {
    if p.i < |p.table| {
      var q := p.(called := p.called + [p.table[p.i]], i := p.i + 1);
      if p.table[p.i].revents <= 0 {
        CallsCovered(p.(i := p.i + 1), s, calls);
      } else if calls != [] {
        var es, runs := calls[0].events, RunsOf(s, calls);
        RunOpsApply(q, s, es);
        OpsDoneIff(q, RunOps(s, es));
        RunKeepsAgreement(s, es);
        assert runs[0] == Run(RunOps(s, es), calls[0].stop) && runs[1..] == RunsOf(After(s, es), calls[1..]);
        CallsCovered(ApplyOps(q, RunOps(s, es)).p, After(s, es), calls[1..]);
      }
    }
  }

  /** The table with the results that poll has written. */
  predicate SameButResults(t: Table, u: Table)
  {
    |t| == |u| && forall k :: 0 <= k < |t| ==> t[k] == u[k].(revents := t[k].revents)
  }

  lemma PollKeepsAgreement(s: Core, t: Table)
    requires Agreement(s) && SameButResults(t, s.table)
    ensures Agreement(s.(table := t))
  {
    assert forall fd :: Polled(t, fd) <==> Polled(s.table, fd);
  }

  /** After any history of hotplug, and whatever poll reports: a pass whose handlers plug and
      unplug devices, and register and unregister other descriptors, stays inside the table. */
  lemma DevicePassStaysInside(open: set<int>, es: seq<Event>, t: Table, calls: seq<Call>)
    requires PossibleRun(Initial(open), es) && SameButResults(t, After(Initial(open), es).table)
    requires PossibleCalls(After(Initial(open), es).(table := t), calls)
    ensures var s := After(Initial(open), es).(table := t);
            && PassCovered(Begin(t, s.nextReg), RunsOf(s, calls))
            && Finish(Begin(t, s.nextReg), RunsOf(s, calls)).Done?
  {
    RunKeepsAgreement(Initial(open), es);
    var s := After(Initial(open), es);
    PollKeepsAgreement(s, t);
    CallsCovered(Begin(t, s.nextReg), s.(table := t), calls);
    PassDoneIff(Begin(t, s.nextReg), RunsOf(s.(table := t), calls));
  }
}
