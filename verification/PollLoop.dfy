/** The poll table and its dispatch loop (src/loop.c).

    Two parallel tables hold, per slot, the descriptor polled and the handler to call.
    Removal moves the last slot into the hole, and handlers may add and remove slots while
    the dispatch loop walks the very same table. */
module PollLoop {

  type Handler = nat

  /** One slot.  `reg` numbers the registration that filled it; the program has no such field,
      it only lets statements tell registrations apart. */
  datatype Slot = Slot(fd: int, handler: Handler, revents: int, reg: nat)

  type Table = seq<Slot>

  // ---------------------------------------------------------------------------------------
  // Adding and removing

  /** The first slot polling `fd`, or the last slot when there is none. */
  function IndexOf(t: Table, fd: int): (i: nat)
    requires t != []
    ensures i < |t|
    ensures forall j :: 0 <= j < i ==> t[j].fd != fd
    ensures t[i].fd == fd || (i == |t| - 1 && forall j :: 0 <= j < |t| ==> t[j].fd != fd)
  {
    if t[0].fd == fd || |t| == 1 then 0 else 1 + IndexOf(t[1..], fd)
  }

  lemma FirstIndex(t: Table, fd: int, i: nat)
    requires i < |t| && forall j :: 0 <= j < i ==> t[j].fd != fd
    requires t[i].fd == fd || i == |t| - 1
    ensures IndexOf(t, fd) == i
  {
  }

  function RemoveAt(t: Table, i: nat): Table
    requires i < |t|
  {
    t[i := t[|t| - 1]][..|t| - 1]
  }

  /** loop_remove_fd */
  function Remove(t: Table, fd: int): Table
    requires t != []
  {
    RemoveAt(t, IndexOf(t, fd))
  }

  /** The program's two arrays.  They keep their full length when slots are removed; only the
      first numFds entries are live. */
  class PollTable {
    var fds: seq<(int, int)>          // fd, revents
    var fdHandlers: seq<Handler>
    var numFds: nat
    ghost var regs: seq<nat>
    ghost var nextReg: nat

    ghost predicate Valid()
      reads this
    {
      && numFds <= |fds| && numFds <= |fdHandlers| && numFds == |regs|
      && forall k :: 0 <= k < numFds ==> regs[k] < nextReg
    }

    ghost function Slots(): (t: Table)
      reads this
      requires Valid()
      ensures |t| == numFds
    {
      seq(numFds, k requires 0 <= k < numFds reads this requires Valid() =>
        Slot(fds[k].0, fdHandlers[k], fds[k].1, regs[k]))
    }

    constructor ()
      ensures Valid() && Slots() == [] && nextReg == 0
    {
      fds, fdHandlers, numFds := [], [], 0;
      regs, nextReg := [], 0;
    }

    /** loop_add_fd: the result field of the new slot is whatever realloc left there. */
    method AddFd(fd: int, handler: Handler, leftover: int)
      requires Valid()
      modifies this
      ensures Valid()
      ensures Slots() == old(Slots()) + [Slot(fd, handler, leftover, old(nextReg))]
      ensures nextReg == old(nextReg) + 1
    {
      var fdindex := numFds;
      numFds := numFds + 1;
      fds := fds[..fdindex] + [(fd, leftover)];
      fdHandlers := fdHandlers[..fdindex] + [handler];
      regs := regs + [nextReg];
      nextReg := nextReg + 1;
    }

    /** loop_remove_fd */
    method RemoveFd(fd: int)
      requires Valid() && numFds > 0
      modifies this
      ensures Valid()
      ensures Slots() == Remove(old(Slots()), fd)
      ensures nextReg == old(nextReg)
    {
      ghost var t := Slots();
      ghost var r := IndexOf(t, fd);
      numFds := numFds - 1;
      var fdindex := numFds;
      var i := 0;
      while i <= numFds
        invariant 0 <= i <= numFds + 1
        invariant forall j :: 0 <= j < i ==> t[j].fd != fd
        invariant fdindex == numFds == |t| - 1
      {
        if fds[i].0 == fd {
          fdindex := i;
          break;
        }
        i := i + 1;
      }
      FirstIndex(t, fd, fdindex);
      if fdindex != numFds && numFds > 0 {
        fds := fds[fdindex := fds[numFds]];
        fdHandlers := fdHandlers[fdindex := fdHandlers[numFds]];
      }
      regs := regs[fdindex := regs[numFds]][..numFds];
    }
  }

  /** Removal of a descriptor that is polled takes out exactly its first slot: the live slots
      are the same, up to order. */
  lemma RemoveTakesOne(t: Table, fd: int)
    requires t != []
    ensures multiset(Remove(t, fd)) == multiset(t) - multiset{t[IndexOf(t, fd)]}
  {
    var i := IndexOf(t, fd);
    RemoveAtTakesOne(t, i);
  }

  lemma RemoveAtTakesOne(t: Table, i: nat)
    requires i < |t|
    ensures multiset(RemoveAt(t, i)) == multiset(t) - multiset{t[i]}
  {
    var n := |t| - 1;
    assert t == t[..n] + [t[n]];
    if i < n {
      assert RemoveAt(t, i) == t[..n][i := t[n]];
    }
  }

  // ---------------------------------------------------------------------------------------
  // A pass of the dispatch loop while handlers edit the table

  datatype Op = Add(fd: int, handler: Handler, leftover: int) | Del(fd: int)

  /** What one handler call does: the edits it makes, and whether it returns LOOP_RETURN. */
  datatype Run = Run(ops: seq<Op>, stop: bool)

  /** Everything a pass is about: the table, the next registration number, the loop index, the
      slots handlers were called for, what was put in and taken out, and what an edit put behind
      the loop before the loop had come to it. */
  datatype Pass = Pass(table: Table, nextReg: nat, i: nat,
                       called: seq<Slot>, added: seq<Slot>, removed: seq<Slot>, behind: seq<Slot>)

  datatype Outcome = Done(p: Pass) | Emptied

  /** A new slot comes at the end, which is behind the loop once the table is shorter than the
      loop index. */
  function ApplyAdd(p: Pass, fd: int, handler: Handler, leftover: int): Pass
  {
    var slot := Slot(fd, handler, leftover, p.nextReg);
    p.(table := p.table + [slot], added := p.added + [slot], nextReg := p.nextReg + 1,
       behind := p.behind + if |p.table| < p.i then [slot] else [])
  }

  /** The last slot falls into the hole, which may be behind the loop with the last slot ahead. */
  function ApplyDel(p: Pass, fd: int): Pass
    requires p.table != []
  {
    var hole, last := IndexOf(p.table, fd), |p.table| - 1;
    p.(table := Remove(p.table, fd), removed := p.removed + [p.table[hole]],
       behind := p.behind + if hole < p.i <= last then [p.table[last]] else [])
  }

  /** The edits of one handler; Emptied if it takes a slot out of an empty table, where the
      program's count would go negative. */
  function ApplyOps(p: Pass, ops: seq<Op>): Outcome
    decreases |ops|
  {
    if ops == [] then Done(p)
    else match ops[0]
      case Add(fd, handler, leftover) => ApplyOps(ApplyAdd(p, fd, handler, leftover), ops[1..])
      case Del(fd) => if p.table == [] then Emptied else ApplyOps(ApplyDel(p, fd), ops[1..])
  }

  function Begin(t: Table, nextReg: nat): Pass { Pass(t, nextReg, 0, [], [], [], []) }

  /** The rest of a pass: `runs` says what the following handler calls do, in order; a handler
      called after those does nothing. */
  function Finish(p: Pass, runs: seq<Run>): Outcome
    decreases |runs|, |p.table| - p.i
  {
    if p.i >= |p.table| then Done(p)
    else if p.table[p.i].revents <= 0 then Finish(p.(i := p.i + 1), runs)
    else
      var q := p.(called := p.called + [p.table[p.i]], i := p.i + 1);
      if runs == [] then Finish(q, runs)
      else
        match ApplyOps(q, runs[0].ops)
        case Emptied => Emptied
        case Done(r) => if runs[0].stop then Done(r) else Finish(r, runs[1..])
  }

  /** No edit takes a slot out of an empty table: at every point the slots there were and the ones
      added are at least as many as the ones removed, whether or not the descriptors are found. */
  predicate Covered(size: nat, ops: seq<Op>)
    decreases |ops|
  {
    ops == [] ||
    if ops[0].Add? then Covered(size + 1, ops[1..]) else size > 0 && Covered(size - 1, ops[1..])
  }

  /** The same for each handler that the rest of a pass runs. */
  predicate PassCovered(p: Pass, runs: seq<Run>)
    decreases |runs|, |p.table| - p.i
  {
    if p.i >= |p.table| then true
    else if p.table[p.i].revents <= 0 then PassCovered(p.(i := p.i + 1), runs)
    else if runs == [] then true
    else
      var q := p.(called := p.called + [p.table[p.i]], i := p.i + 1);
      Covered(|q.table|, runs[0].ops) &&
      (runs[0].stop ||
       var o := ApplyOps(q, runs[0].ops);
       o.Done? && PassCovered(o.p, runs[1..]))
  }

  lemma {:induction false} OpsDoneIff(p: Pass, ops: seq<Op>)
    ensures ApplyOps(p, ops).Done? <==> Covered(|p.table|, ops)
    decreases |ops|
  {
    if ops != [] {
      match ops[0]
      case Add(fd, handler, leftover) => OpsDoneIff(ApplyAdd(p, fd, handler, leftover), ops[1..]);
      case Del(fd) => if p.table != [] { OpsDoneIff(ApplyDel(p, fd), ops[1..]); }
    }
  }

  /** The pass stays inside the table exactly when its handlers' edits are covered. */
  lemma {:induction false} PassDoneIff(p: Pass, runs: seq<Run>)
    ensures Finish(p, runs).Done? <==> PassCovered(p, runs)
    decreases |runs|, |p.table| - p.i
  {
    if p.i < |p.table| {
      var q := p.(called := p.called + [p.table[p.i]], i := p.i + 1);
      if p.table[p.i].revents <= 0 {
        PassDoneIff(p.(i := p.i + 1), runs);
      } else if runs == [] {
        PassDoneIff(q, runs);
        NoRunsCovered(q);
      } else {
        OpsDoneIff(q, runs[0].ops);
        var o := ApplyOps(q, runs[0].ops);
        if o.Done? && !runs[0].stop { PassDoneIff(o.p, runs[1..]); }
      }
    }
  }

  lemma {:induction false} NoRunsCovered(p: Pass)
    ensures PassCovered(p, [])
    decreases |p.table| - p.i
  {
    if p.i < |p.table| && p.table[p.i].revents <= 0 { NoRunsCovered(p.(i := p.i + 1)); }
  }

  /** Every descriptor that is taken out is in the table at that moment. */
  predicate Named(t: Table, nextReg: nat, ops: seq<Op>)
    decreases |ops|
  {
    ops == [] ||
    match ops[0]
    case Add(fd, handler, leftover) => Named(t + [Slot(fd, handler, leftover, nextReg)], nextReg + 1, ops[1..])
    case Del(fd) => (exists k :: 0 <= k < |t| && t[k].fd == fd) && Named(Remove(t, fd), nextReg, ops[1..])
  }

  /** Then the edits are covered, whatever the table. */
  lemma {:induction false} NamedIsCovered(t: Table, nextReg: nat, ops: seq<Op>)
    requires Named(t, nextReg, ops)
    ensures Covered(|t|, ops)
    decreases |ops|
  {
    if ops != [] {
      match ops[0]
      case Add(fd, handler, leftover) =>
        NamedIsCovered(t + [Slot(fd, handler, leftover, nextReg)], nextReg + 1, ops[1..]);
      case Del(fd) => NamedIsCovered(Remove(t, fd), nextReg, ops[1..]);
    }
  }

  /** loop_main between two polls. */
  method Dispatch(loop: PollTable, runs: seq<Run>) returns (stopped: bool, ghost p: Pass)
    requires loop.Valid()
    requires PassCovered(Begin(loop.Slots(), loop.nextReg), runs)
    modifies loop
    ensures loop.Valid()
    ensures Done(p) == Finish(Begin(old(loop.Slots()), old(loop.nextReg)), runs)
    ensures loop.Slots() == p.table && loop.nextReg == p.nextReg
    ensures !stopped ==> p.i >= |p.table|
    ensures stopped <==> 0 < |p.called| <= |runs| && runs[|p.called| - 1].stop
    ensures forall k :: 0 <= k < |p.called| - 1 && k < |runs| ==> !runs[k].stop
  {
    ghost var whole := Finish(Begin(loop.Slots(), loop.nextReg), runs);
    PassDoneIff(Begin(loop.Slots(), loop.nextReg), runs);
    stopped := false;
    p := Begin(loop.Slots(), loop.nextReg);
    var rest, taken := runs, 0;
    var i := 0;
    while i < loop.numFds
      invariant loop.Valid() && loop.Slots() == p.table && loop.nextReg == p.nextReg
      invariant i == p.i && Finish(p, rest) == whole
      invariant taken <= |runs| && rest == runs[taken..]
      invariant taken <= |p.called| && (taken < |p.called| ==> taken == |runs|)
      invariant forall k :: 0 <= k < taken ==> !runs[k].stop
      decreases |rest|, loop.numFds - i
    {
      if loop.fds[i].1 > 0 {
        p := p.(called := p.called + [p.table[i]], i := i + 1);
        if rest != [] {
          p := Perform(loop, rest[0].ops, p);
          if rest[0].stop {
            stopped := true;
            return;
          }
          rest, taken := rest[1..], taken + 1;
        }
      } else {
        p := p.(i := i + 1);
      }
      i := i + 1;
    }
  }

  /** A handler making its edits through loop_add_fd and loop_remove_fd. */
  method Perform(loop: PollTable, ops: seq<Op>, ghost p: Pass) returns (ghost q: Pass)
    requires loop.Valid() && loop.Slots() == p.table && loop.nextReg == p.nextReg
    requires ApplyOps(p, ops).Done?
    modifies loop
    ensures loop.Valid() && Done(q) == ApplyOps(p, ops)
    ensures loop.Slots() == q.table && loop.nextReg == q.nextReg && q.i == p.i && q.called == p.called
  {
    q := p;
    var k := 0;
    while k < |ops|
      invariant 0 <= k <= |ops|
      invariant loop.Valid() && loop.Slots() == q.table && loop.nextReg == q.nextReg
      invariant ApplyOps(q, ops[k..]) == ApplyOps(p, ops) && q.i == p.i && q.called == p.called
    {
      match ops[k] {
        case Add(fd, handler, leftover) =>
          loop.AddFd(fd, handler, leftover);
          q := ApplyAdd(q, fd, handler, leftover);
        case Del(fd) =>
          loop.RemoveFd(fd);
          q := ApplyDel(q, fd);
      }
      k := k + 1;
    }
  }

  // ---------------------------------------------------------------------------------------
  // What every pass keeps

  /** Every live slot is a registration of its own, numbered below the next free number. */
  ghost predicate WellNumbered(t: Table, nextReg: nat)
  {
    && (forall j, k :: 0 <= j < k < |t| ==> t[j].reg != t[k].reg)
    && forall k :: 0 <= k < |t| ==> t[k].reg < nextReg
  }

  /** No registration called so far is still ahead of the loop. */
  ghost predicate NotAhead(p: Pass)
  {
    forall j, k :: 0 <= j < |p.called| && p.i <= k < |p.table| ==> p.called[j].reg != p.table[k].reg
  }

  ghost predicate CalledOnce(p: Pass)
  {
    forall j, k :: 0 <= j < k < |p.called| ==> p.called[j].reg != p.called[k].reg
  }

  /** Every call was for a slot of the starting table or one a handler put in, unchanged, and
      ready. */
  ghost predicate CalledAsRegistered(t: Table, p: Pass)
  {
    forall c :: c in p.called ==> c.revents > 0 && c.reg < p.nextReg && (c in t || c in p.added)
  }

  /** Nothing is lost or invented: live slots and slots taken out are the starting slots and
      the slots put in. */
  ghost predicate Conserved(t: Table, p: Pass)
  {
    multiset(p.table) + multiset(p.removed) == multiset(t) + multiset(p.added)
  }

  ghost predicate Inv(t: Table, p: Pass)
  {
    WellNumbered(p.table, p.nextReg) && NotAhead(p) && CalledOnce(p) && CalledAsRegistered(t, p) && Conserved(t, p)
  }

  lemma AddKeepsInv(t: Table, p: Pass, fd: int, handler: Handler, leftover: int)
    requires Inv(t, p)
    ensures Inv(t, ApplyAdd(p, fd, handler, leftover))
  {
    var q := ApplyAdd(p, fd, handler, leftover);
    forall j, k | 0 <= j < |q.called| && q.i <= k < |q.table| ensures q.called[j].reg != q.table[k].reg {
      assert q.called[j] in p.called;
    }
    var slot := Slot(fd, handler, leftover, p.nextReg);
    assert q.added == p.added + [slot] && q.table == p.table + [slot];
    assert CalledAsRegistered(t, q);
    assert multiset(q.table) == multiset(p.table) + multiset{slot};
    assert multiset(q.added) == multiset(p.added) + multiset{slot};
    assert multiset(q.table) + multiset(q.removed) == multiset(p.table) + multiset(p.removed) + multiset{slot};
  }

  lemma DelKeepsInv(t: Table, p: Pass, fd: int)
    requires Inv(t, p) && p.table != []
    ensures Inv(t, ApplyDel(p, fd))
  {
    RemoveTakesOne(p.table, fd);
  }

  lemma {:induction false} OpsKeepInv(t: Table, p: Pass, ops: seq<Op>)
    requires Inv(t, p)
    ensures var o := ApplyOps(p, ops);
            o.Done? ==> Inv(t, o.p) && o.p.i == p.i && o.p.called == p.called
    decreases |ops|
  {
    if ops != [] {
      match ops[0]
      case Add(fd, handler, leftover) =>
        AddKeepsInv(t, p, fd, handler, leftover);
        OpsKeepInv(t, ApplyAdd(p, fd, handler, leftover), ops[1..]);
      case Del(fd) =>
        if p.table != [] {
          DelKeepsInv(t, p, fd);
          OpsKeepInv(t, ApplyDel(p, fd), ops[1..]);
        }
    }
  }

  lemma CallKeepsInv(t: Table, p: Pass)
    requires Inv(t, p) && p.i < |p.table| && p.table[p.i].revents > 0
    ensures Inv(t, p.(called := p.called + [p.table[p.i]], i := p.i + 1))
  {
    var s := p.table[p.i];
    assert s in multiset(p.table) + multiset(p.removed);
    assert s in multiset(t) + multiset(p.added);
  }

  lemma {:induction false} FinishKeepsInv(t: Table, p: Pass, runs: seq<Run>)
    requires Inv(t, p)
    ensures var o := Finish(p, runs); o.Done? ==> Inv(t, o.p)
    decreases |runs|, |p.table| - p.i
  {
    if p.i < |p.table| {
      if p.table[p.i].revents <= 0 {
        FinishKeepsInv(t, p.(i := p.i + 1), runs);
      } else {
        CallKeepsInv(t, p);
        var q := p.(called := p.called + [p.table[p.i]], i := p.i + 1);
        if runs == [] {
          FinishKeepsInv(t, q, runs);
        } else {
          OpsKeepInv(t, q, runs[0].ops);
          var o := ApplyOps(q, runs[0].ops);
          if o.Done? && !runs[0].stop {
            FinishKeepsInv(t, o.p, runs[1..]);
          }
        }
      }
    }
  }

  /** Whatever the handlers add and remove during a pass: it stays inside the table exactly when
      the edits are covered, and then every call is for a registration as it was made, no
      registration is called twice, and every registration not taken out is in the table for the
      next poll. */
  lemma PassIsSafe(t: Table, nextReg: nat, runs: seq<Run>)
    requires WellNumbered(t, nextReg)
    ensures var o := Finish(Begin(t, nextReg), runs);
            (o.Done? <==> PassCovered(Begin(t, nextReg), runs)) &&
            (o.Done? ==>
              && CalledOnce(o.p) && CalledAsRegistered(t, o.p) && Conserved(t, o.p)
              && WellNumbered(o.p.table, o.p.nextReg)
              && forall s :: s in t && s !in o.p.removed ==> s in o.p.table)
  {
    PassDoneIff(Begin(t, nextReg), runs);
    FinishKeepsInv(t, Begin(t, nextReg), runs);
    var o := Finish(Begin(t, nextReg), runs);
    if o.Done? {
      forall s | s in t && s !in o.p.removed ensures s in o.p.table {
        assert s in multiset(t) + multiset(o.p.added);
      }
    }
  }

  // ---------------------------------------------------------------------------------------
  // Without removals nothing is skipped

  predicate OnlyAdds(runs: seq<Run>) {
    forall k :: 0 <= k < |runs| ==> !runs[k].stop && forall j :: 0 <= j < |runs[k].ops| ==> runs[k].ops[j].Add?
  }

  function Ready(t: Table): Table
  {
    if t == [] then []
    else Ready(t[..|t| - 1]) + if t[|t| - 1].revents > 0 then [t[|t| - 1]] else []
  }

  lemma {:induction false} AddsExtend(p: Pass, ops: seq<Op>)
    requires forall j :: 0 <= j < |ops| ==> ops[j].Add?
    ensures var o := ApplyOps(p, ops);
            && o.Done? && p.table <= o.p.table && o.p.i == p.i && o.p.called == p.called
            && o.p.removed == p.removed
    decreases |ops|
  {
    if ops != [] {
      var q := ApplyAdd(p, ops[0].fd, ops[0].handler, ops[0].leftover);
      AddsExtend(q, ops[1..]);
    }
  }

  /** While nothing is removed the calls are exactly the ready slots walked over, in order. */
  lemma {:induction false} AddsOnlyCallsAll(p: Pass, runs: seq<Run>)
    requires p.i <= |p.table| && p.called == Ready(p.table[..p.i])
    requires OnlyAdds(runs)
    ensures var o := Finish(p, runs);
            o.Done? && p.table <= o.p.table && o.p.i == |o.p.table| && o.p.called == Ready(o.p.table)
    decreases |runs|, |p.table| - p.i
  {
    if p.i < |p.table| {
      assert p.table[..p.i + 1][..p.i] == p.table[..p.i];
      if p.table[p.i].revents <= 0 {
        AddsOnlyCallsAll(p.(i := p.i + 1), runs);
      } else {
        var q := p.(called := p.called + [p.table[p.i]], i := p.i + 1);
        if runs == [] {
          AddsOnlyCallsAll(q, runs);
        } else {
          AddsExtend(q, runs[0].ops);
          var r := ApplyOps(q, runs[0].ops).p;
          assert r.table[..r.i] == q.table[..q.i];
          AddsOnlyCallsAll(r, runs[1..]);
        }
      }
    } else {
      assert p.table[..p.i] == p.table;
    }
  }

  /** A pass in which no handler removes anything or stops the loop calls every ready slot,
      those added on the way included, exactly once and in table order. */
  lemma AddingNeverSkips(t: Table, nextReg: nat, runs: seq<Run>)
    requires OnlyAdds(runs)
    ensures var o := Finish(Begin(t, nextReg), runs);
            o.Done? && t <= o.p.table && o.p.called == Ready(o.p.table)
  {
    AddsOnlyCallsAll(Begin(t, nextReg), runs);
  }

  // ---------------------------------------------------------------------------------------
  // What is skipped

  /** Of the ready slots the loop has passed, it called exactly those that were not put behind it;
      what is still ahead was not put behind. */
  ghost predicate Sorted(p: Pass)
  {
    && (forall k :: 0 <= k < |p.table| && k < p.i && p.table[k].revents > 0 ==>
          (p.table[k] in p.called <==> p.table[k] !in p.behind))
    && (forall k :: p.i <= k < |p.table| ==> p.table[k] !in p.behind)
    && (forall s :: s in p.behind ==> s.reg < p.nextReg)
    && (forall s :: s in p.called ==> s !in p.behind)
  }

  lemma AddKeepsSorted(t: Table, p: Pass, fd: int, handler: Handler, leftover: int)
    requires Inv(t, p) && Sorted(p)
    ensures Sorted(ApplyAdd(p, fd, handler, leftover))
  {
  }

  lemma DelKeepsSorted(t: Table, p: Pass, fd: int)
    requires Inv(t, p) && Sorted(p) && p.table != []
    ensures Sorted(ApplyDel(p, fd))
  {
    var hole, last := IndexOf(p.table, fd), |p.table| - 1;
    var q := ApplyDel(p, fd);
    assert forall k :: 0 <= k < last ==> q.table[k] == if k == hole then p.table[last] else p.table[k];
    assert p.i <= last ==> p.table[last] !in p.called;
  }

  lemma {:induction false} OpsKeepSorted(t: Table, p: Pass, ops: seq<Op>)
    requires Inv(t, p) && Sorted(p)
    ensures ApplyOps(p, ops).Done? ==> Sorted(ApplyOps(p, ops).p)
    decreases |ops|
  {
    if ops != [] {
      match ops[0]
      case Add(fd, handler, leftover) =>
        AddKeepsInv(t, p, fd, handler, leftover);
        AddKeepsSorted(t, p, fd, handler, leftover);
        OpsKeepSorted(t, ApplyAdd(p, fd, handler, leftover), ops[1..]);
      case Del(fd) =>
        if p.table != [] {
          DelKeepsInv(t, p, fd);
          DelKeepsSorted(t, p, fd);
          OpsKeepSorted(t, ApplyDel(p, fd), ops[1..]);
        }
    }
  }

  lemma CallKeepsSorted(t: Table, p: Pass)
    requires Inv(t, p) && Sorted(p) && p.i < |p.table|
    ensures p.table[p.i].revents <= 0 ==> Sorted(p.(i := p.i + 1))
    ensures p.table[p.i].revents > 0 ==> Sorted(p.(called := p.called + [p.table[p.i]], i := p.i + 1))
  {
  }

  lemma {:induction false} FinishKeepsSorted(t: Table, p: Pass, runs: seq<Run>)
    requires Inv(t, p) && Sorted(p)
    ensures Finish(p, runs).Done? ==> Sorted(Finish(p, runs).p)
    decreases |runs|, |p.table| - p.i
  {
    if p.i < |p.table| {
      CallKeepsSorted(t, p);
      if p.table[p.i].revents <= 0 {
        FinishKeepsSorted(t, p.(i := p.i + 1), runs);
      } else {
        CallKeepsInv(t, p);
        var q := p.(called := p.called + [p.table[p.i]], i := p.i + 1);
        if runs == [] {
          FinishKeepsSorted(t, q, runs);
        } else {
          OpsKeepInv(t, q, runs[0].ops);
          OpsKeepSorted(t, q, runs[0].ops);
          var o := ApplyOps(q, runs[0].ops);
          if o.Done? && !runs[0].stop { FinishKeepsSorted(t, o.p, runs[1..]); }
        }
      }
    }
  }

  /** After a pass that ran to its end, a ready slot of the table was not called exactly when some
      edit had put it behind the loop: a removal moved it there from ahead, or it was added to a
      table that had become shorter than the loop index. */
  lemma SkippedIff(t: Table, nextReg: nat, runs: seq<Run>)
    requires WellNumbered(t, nextReg)
    ensures var o := Finish(Begin(t, nextReg), runs);
            o.Done? && o.p.i >= |o.p.table| ==>
              forall s :: s in o.p.table && s.revents > 0 ==> (s !in o.p.called <==> s in o.p.behind)
  {
    FinishKeepsSorted(t, Begin(t, nextReg), runs);
  }

  /** A removal that skips: the last slot falls into the hole left by the running handler's own
      slot, behind the loop.  It stays ready in the table. */
  lemma RemovalCanSkip()
    ensures var t := [Slot(3, 0, 1, 0), Slot(4, 0, 1, 1)];
            Finish(Begin(t, 2), [Run([Del(3)], false)])
            == Done(Pass([t[1]], 2, 1, [t[0]], [], [t[0]], [t[1]]))
  {
    var t := [Slot(3, 0, 1, 0), Slot(4, 0, 1, 1)];
    var runs := [Run([Del(3)], false)];
    assert runs[0].ops[1..] == [];
    var p := Begin(t, 2).(called := [t[0]], i := 1);
    FirstIndex(t, 3, 0);
    assert Remove(t, 3) == [t[1]];
    assert ApplyDel(p, 3) == Pass([t[1]], 2, 1, [t[0]], [], [t[0]], [t[1]]);
    assert ApplyOps(p, runs[0].ops) == Done(ApplyDel(p, 3));
  }

  /** An addition that skips: the only slot's handler removes itself, so that the table is shorter
      than the loop index when a new slot comes whose result field happens to be set. */
  lemma AdditionCanSkip()
    ensures var t, late := [Slot(3, 0, 1, 0)], Slot(4, 0, 1, 1);
            Finish(Begin(t, 1), [Run([Del(3), Add(4, 0, 1)], false)])
            == Done(Pass([late], 2, 1, [t[0]], [late], [t[0]], [late]))
  {
    var t, late := [Slot(3, 0, 1, 0)], Slot(4, 0, 1, 1);
    var ops := [Del(3), Add(4, 0, 1)];
    assert ops[1..] == [Add(4, 0, 1)] && ops[1..][1..] == [];
    var p := Begin(t, 1).(called := [t[0]], i := 1);
    FirstIndex(t, 3, 0);
    assert Remove(t, 3) == [];
    var q := ApplyDel(p, 3);
    assert q == Pass([], 1, 1, [t[0]], [], [t[0]], []);
    assert ApplyAdd(q, 4, 0, 1) == Pass([late], 2, 1, [t[0]], [late], [t[0]], [late]);
    assert ApplyOps(p, ops) == ApplyOps(q, ops[1..]) == Done(ApplyAdd(q, 4, 0, 1));
  }
}
