/** Ownership of the frame buffers between the VPU, the display and two pipes
    (src/video/imx.c).

    The decode thread writes decoded frame numbers to the frame pipe and gives the VPU back what
    it reads from the clear pipe.  The display handler keeps the newest frame of the frame pipe,
    queues it for display and sends the others, and displayed ones, to the clear pipe.  The two
    run concurrently; a single action here is one system call or library call of either. */
module ImxFrames {

  import opened Counting
  import opened Wrappers

  const THRESHOLD := 2

  /** The display handler: idle, draining the frame pipe with the last frame read in hand, about
      to clear the one read before, or holding a buffer the display gave back. */
  datatype Handler = Idle | Draining(held: Option<int>) | Clearing(prev: int, next: int) | Queued | Dequeued(index: int)

  /** The decode thread: draining the clear pipe, about to clear a frame, about to decode, or
      about to write a decoded frame. */
  datatype Decoder = Reading | Cleared(frame: int) | Decoding | Decoded(frame: int)

  datatype State = State(
    vpu: seq<int>, framePipe: seq<int>, display: seq<int>, clearPipe: seq<int>,
    queuedCount: int, handler: Handler, decoder: Decoder)

  datatype Action =
    | Start                 // poll saw the frame pipe readable
    | ReadFrame             // read() in the handler returns a frame
    | WriteSkipped          // the handler writes the frame before to the clear pipe
    | Queue                 // read() returns nothing more; VIDIOC_QBUF
    | Skip                  // at most THRESHOLD frames queued: the handler returns
    | Dequeue(k: nat)       // VIDIOC_DQBUF returns the k-th queued buffer
    | WriteDequeued
    | ReadClear             // read() in the decode thread returns a frame
    | Clear                 // vpu_clear
    | NothingToClear        // read() returns nothing more
    | Decode(k: nat)        // vpu_decode shows the k-th frame the VPU owns
    | NoFrame               // vpu_decode shows nothing
    | WriteFrame

  predicate Enabled(s: State, a: Action)
  {
    match a
    case Start => s.handler == Idle && s.framePipe != []
    case ReadFrame => s.handler.Draining? && s.framePipe != []
    case WriteSkipped => s.handler.Clearing?
    case Queue => s.handler.Draining? && s.handler.held.Some? && s.framePipe == []
    case Skip => s.handler == Queued && s.queuedCount <= THRESHOLD
    case Dequeue(k) => s.handler == Queued && s.queuedCount > THRESHOLD && k < |s.display|
    case WriteDequeued => s.handler.Dequeued?
    case ReadClear => s.decoder == Reading && s.clearPipe != []
    case Clear => s.decoder.Cleared?
    case NothingToClear => s.decoder == Reading && s.clearPipe == []
    case Decode(k) => s.decoder == Decoding && k < |s.vpu|
    case NoFrame => s.decoder == Decoding
    case WriteFrame => s.decoder.Decoded?
  }

  function Without(q: seq<int>, k: nat): seq<int>
    requires k < |q|
  {
    q[..k] + q[k + 1..]
  }

  function Step(s: State, a: Action): State
    requires Enabled(s, a)
  {
    match a
    case Start => s.(handler := Draining(None))
    case ReadFrame =>
      var frame := s.framePipe[0];
      s.(framePipe := s.framePipe[1..],
         handler := match s.handler.held
                    case None => Draining(Some(frame))
                    case Some(prev) => Clearing(prev, frame))
    case WriteSkipped => s.(clearPipe := s.clearPipe + [s.handler.prev], handler := Draining(Some(s.handler.next)))
    case Queue => s.(display := s.display + [s.handler.held.value], queuedCount := s.queuedCount + 1, handler := Queued)
    case Skip => s.(handler := Idle)
    case Dequeue(k) =>
      s.(display := Without(s.display, k), queuedCount := s.queuedCount - 1, handler := Dequeued(s.display[k]))
    case WriteDequeued => s.(clearPipe := s.clearPipe + [s.handler.index], handler := Idle)
    case ReadClear => s.(clearPipe := s.clearPipe[1..], decoder := Cleared(s.clearPipe[0]))
    case Clear => s.(vpu := s.vpu + [s.decoder.frame], decoder := Reading)
    case NothingToClear => s.(decoder := Decoding)
    case Decode(k) => s.(vpu := Without(s.vpu, k), decoder := Decoded(s.vpu[k]))
    case NoFrame => s.(decoder := Reading)
    case WriteFrame => s.(framePipe := s.framePipe + [s.decoder.frame], decoder := Reading)
  }

  predicate Possible(s: State, actions: seq<Action>)
    decreases |actions|
  {
    actions == [] || (Enabled(s, actions[0]) && Possible(Step(s, actions[0]), actions[1..]))
  }

  function After(s: State, actions: seq<Action>): State
    requires Possible(s, actions)
    decreases |actions|
  {
    if actions == [] then s else After(Step(s, actions[0]), actions[1..])
  }

  // ---------------------------------------------------------------------------------------
  // Ownership

  function HandlerHolds(h: Handler): nat
  {
    match h
    case Draining(Some(_)) => 1
    case Clearing(_, _) => 2
    case Dequeued(_) => 1
    case _ => 0
  }

  function DecoderHolds(d: Decoder): nat { if d.Cleared? || d.Decoded? then 1 else 0 }

  /** In how many places frame f is. */
  function Places(s: State, f: int): nat
  {
    Times(s.vpu, f) + Times(s.framePipe, f) + Times(s.display, f) + Times(s.clearPipe, f)
    + HandlerTimes(s.handler, f) + DecoderTimes(s.decoder, f)
  }

  /** How many frames there are in all places. */
  function Total(s: State): nat
  {
    |s.vpu| + |s.framePipe| + |s.display| + |s.clearPipe| + HandlerHolds(s.handler) + DecoderHolds(s.decoder)
  }

  function Frames(count: nat): seq<int> { seq(count, k => k) }

  function Initial(count: nat): State { State(Frames(count), [], [], [], 0, Idle, Reading) }

  ghost predicate Counted(s: State)
  {
    && s.queuedCount == |s.display|
    && |s.display| <= THRESHOLD + 1
    && (s.handler != Queued ==> |s.display| <= THRESHOLD)
    && (s.handler == Draining(None) ==> s.framePipe != [])
  }

  function One(x: int, f: int): nat { if x == f then 1 else 0 }

  lemma WithoutTakesOne(q: seq<int>, k: nat, f: int)
    requires k < |q|
    ensures Times(Without(q, k), f) + One(q[k], f) == Times(q, f)
  {
    TimesConcat(q[..k], q[k + 1..], f);
    TimesConcat(q[..k + 1], q[k + 1..], f);
    assert q == q[..k + 1] + q[k + 1..] && q[..k + 1][..k] == q[..k];
  }

  lemma HeadTakesOne(q: seq<int>, f: int)
    requires q != []
    ensures Times(q[1..], f) + One(q[0], f) == Times(q, f)
  {
    WithoutTakesOne(q, 0, f);
    assert Without(q, 0) == q[1..];
  }

  lemma AppendAddsOne(q: seq<int>, x: int, f: int)
    ensures Times(q + [x], f) == Times(q, f) + One(x, f)
    ensures Times([x], f) == One(x, f)
  {
    assert (q + [x])[..|q|] == q;
    assert [x][..0] == [];
  }

  /** How many times the handler and the decode thread hold frame f. */
  function HandlerTimes(h: Handler, f: int): nat
  {
    match h
    case Draining(Some(frame)) => One(frame, f)
    case Clearing(prev, next) => One(prev, f) + One(next, f)
    case Dequeued(index) => One(index, f)
    case _ => 0
  }

  function DecoderTimes(d: Decoder, f: int): nat
  {
    match d
    case Cleared(frame) => One(frame, f)
    case Decoded(frame) => One(frame, f)
    case _ => 0
  }

  lemma HandlerConserves(s: State, a: Action, f: int)
    requires Enabled(s, a)
    requires a.Start? || a.ReadFrame? || a.WriteSkipped? || a.Queue? || a.Skip? || a.Dequeue? || a.WriteDequeued?
    ensures Places(Step(s, a), f) == Places(s, f) && Total(Step(s, a)) == Total(s)
  {
    match a
    case ReadFrame =>
      HeadTakesOne(s.framePipe, f);
    case WriteSkipped =>
      AppendAddsOne(s.clearPipe, s.handler.prev, f);
    case Queue => AppendAddsOne(s.display, s.handler.held.value, f);
    case Dequeue(k) => WithoutTakesOne(s.display, k, f);
    case WriteDequeued => AppendAddsOne(s.clearPipe, s.handler.index, f);
    case _ =>
  }

  lemma DecoderConserves(s: State, a: Action, f: int)
    requires Enabled(s, a)
    requires a.ReadClear? || a.Clear? || a.NothingToClear? || a.Decode? || a.NoFrame? || a.WriteFrame?
    ensures Places(Step(s, a), f) == Places(s, f) && Total(Step(s, a)) == Total(s)
  {
    match a
    case ReadClear => HeadTakesOne(s.clearPipe, f);
    case Clear => AppendAddsOne(s.vpu, s.decoder.frame, f);
    case Decode(k) => WithoutTakesOne(s.vpu, k, f);
    case WriteFrame => AppendAddsOne(s.framePipe, s.decoder.frame, f);
    case _ =>
  }

  lemma StepKeepsCount(s: State, a: Action)
    requires Enabled(s, a) && Counted(s)
    ensures Counted(Step(s, a))
  {
  }

  lemma {:induction false} RunConserves(s: State, actions: seq<Action>, f: int)
    requires Possible(s, actions) && Counted(s)
    ensures var t := After(s, actions);
            Places(t, f) == Places(s, f) && Total(t) == Total(s) && Counted(t)
    decreases |actions|
  {
    if actions != [] {
      var a := actions[0];
      if a.ReadClear? || a.Clear? || a.NothingToClear? || a.Decode? || a.NoFrame? || a.WriteFrame? {
        DecoderConserves(s, a, f);
      } else {
        HandlerConserves(s, a, f);
      }
      StepKeepsCount(s, a);
      RunConserves(Step(s, a), actions[1..], f);
    }
  }

  lemma {:induction false} FrameOnce(count: nat, f: int)
    ensures Times(Frames(count), f) == if 0 <= f < count then 1 else 0
  {
    if count > 0 {
      FrameOnce(count - 1, f);
      assert Frames(count)[..count - 1] == Frames(count - 1);
    } else {
      assert Frames(0) == [];
    }
  }

  /** In every interleaving each frame is in exactly one place, so none is lost or duplicated;
      the count is the length of the display queue, which between handler runs holds at most two
      frames; the handler never queues without having read a frame; and a frame on its way back
      to the VPU is not queued for display. */
  lemma EachFrameInOnePlace(count: nat, actions: seq<Action>, f: int)
    requires Possible(Initial(count), actions)
    ensures var s := After(Initial(count), actions);
            && Places(s, f) == (if 0 <= f < count then 1 else 0)
            && s.queuedCount == |s.display| && (s.handler == Idle ==> |s.display| <= 2)
            && (s.handler == Draining(None) ==> s.framePipe != [])
            && (s.decoder == Cleared(f) ==> f !in s.display && f !in s.clearPipe && f !in s.framePipe)
            && (f in s.clearPipe ==> f !in s.display && f !in s.vpu)
  {
    RunConserves(Initial(count), actions, f);
    FrameOnce(count, f);
    var s := After(Initial(count), actions);
    TimesIn(s.display, f);
    TimesIn(s.clearPipe, f);
    TimesIn(s.framePipe, f);
    TimesIn(s.vpu, f);
  }

  /** The pipes never hold more than all the frames, so writes to them never wait for room. */
  lemma PipesStayShort(count: nat, actions: seq<Action>)
    requires Possible(Initial(count), actions)
    ensures var s := After(Initial(count), actions);
            |s.framePipe| + |s.clearPipe| <= count
  {
    RunConserves(Initial(count), actions, 0);
  }

  // ---------------------------------------------------------------------------------------
  // The two functions themselves

  lemma {:induction false} RunSnoc(s: State, actions: seq<Action>, a: Action)
    requires Possible(s, actions) && Enabled(After(s, actions), a)
    ensures Possible(s, actions + [a]) && After(s, actions + [a]) == Step(After(s, actions), a)
    decreases |actions|
  {
    if actions == [] {
      assert [a][1..] == [];
    } else {
      assert (actions + [a])[1..] == actions[1..] + [a];
      RunSnoc(Step(s, actions[0]), actions[1..], a);
    }
  }

  class Imx {
    var vpu: seq<int>
    var framePipe: seq<int>
    var display: seq<int>
    var clearPipe: seq<int>
    var queuedCount: int

    /** The state seen by the handler while the decode thread is at the top of its loop, and by
        the decode thread while the handler is idle. */
    ghost function Shared(handler: Handler, decoder: Decoder): State
      reads this
    {
      State(vpu, framePipe, display, clearPipe, queuedCount, handler, decoder)
    }

    /** frame_handle, run when the pipe is readable.  `which` is the buffer the display gives
        back if it is asked for one.  It keeps the newest frame, and its calls are a run of the
        concurrent model. */
    method FrameHandle(which: nat) returns (ghost run: seq<Action>)
      requires framePipe != [] && Counted(Shared(Idle, Reading)) && which <= |display|
      requires forall k :: 0 <= k < |framePipe| ==> framePipe[k] >= 0
      modifies this
      ensures Possible(old(Shared(Idle, Reading)), run)
      ensures After(old(Shared(Idle, Reading)), run) == Shared(Idle, Reading)
      ensures framePipe == [] && vpu == old(vpu)
      ensures var newest := |old(framePipe)| - 1;
              var queue := old(display) + [old(framePipe)[newest]];
              var cleared := old(clearPipe) + old(framePipe)[..newest];
              if |queue| <= 2 then display == queue && clearPipe == cleared
              else display == Without(queue, which) && clearPipe == cleared + [queue[which]]
    {
      ghost var s := Shared(Idle, Reading);
      var frame;
      frame, run := DrainFrames();
      RunSnoc(s, run, Queue);
      run := run + [Queue];
      display := display + [frame];
      queuedCount := queuedCount + 1;
      if queuedCount > THRESHOLD {
        RunSnoc(s, run, Dequeue(which));
        run := run + [Dequeue(which)];
        var index := display[which];
        display := Without(display, which);
        queuedCount := queuedCount - 1;
        RunSnoc(s, run, WriteDequeued);
        run := run + [WriteDequeued];
        clearPipe := clearPipe + [index];
      } else {
        RunSnoc(s, run, Skip);
        run := run + [Skip];
      }
    }

    /** The read loop of frame_handle: all frames but the last go to the clear pipe. */
    method DrainFrames() returns (frame: int, ghost run: seq<Action>)
      requires framePipe != [] && forall k :: 0 <= k < |framePipe| ==> framePipe[k] >= 0
      modifies this`framePipe, this`clearPipe
      ensures Possible(old(Shared(Idle, Reading)), run)
      ensures After(old(Shared(Idle, Reading)), run) == Shared(Draining(Some(frame)), Reading)
      ensures framePipe == [] && frame == old(framePipe)[|old(framePipe)| - 1]
      ensures clearPipe == old(clearPipe) + old(framePipe)[..|old(framePipe)| - 1]
    {
      ghost var s := Shared(Idle, Reading);
      ghost var n := 0; // frames read
      run := [Start];
      assert [Start][1..] == [];
      var prevframe := -1;
      frame := -1;
      while framePipe != []
        invariant n <= |s.framePipe| && framePipe == s.framePipe[n..]
        invariant prevframe == if n == 0 then -1 else s.framePipe[n - 1]
        invariant n > 0 ==> frame == prevframe
        invariant clearPipe == s.clearPipe + if n == 0 then [] else s.framePipe[..n - 1]
        invariant Possible(s, run)
        invariant After(s, run) == Shared(Draining(if n == 0 then None else Some(frame)), Reading)
        decreases |framePipe|
      {
        RunSnoc(s, run, ReadFrame);
        run := run + [ReadFrame];
        frame := framePipe[0];
        framePipe := framePipe[1..];
        if prevframe >= 0 {
          RunSnoc(s, run, WriteSkipped);
          run := run + [WriteSkipped];
          clearPipe := clearPipe + [prevframe];
        }
        prevframe := frame;
        n := n + 1;
      }
    }

    /** decoder_renderer_submit_decode_unit: everything in the clear pipe goes back to the VPU
        before it decodes; `shown` is the frame it then shows, if any. */
    method SubmitDecodeUnit(shown: Option<nat>) returns (ghost run: seq<Action>)
      requires shown.Some? ==> shown.value < |vpu| + |clearPipe|
      modifies this
      ensures Possible(old(Shared(Idle, Reading)), run)
      ensures After(old(Shared(Idle, Reading)), run) == Shared(Idle, Reading)
      ensures clearPipe == [] && display == old(display) && queuedCount == old(queuedCount)
      ensures var owned := old(vpu) + old(clearPipe);
              match shown
              case None => vpu == owned && framePipe == old(framePipe)
              case Some(k) => vpu == Without(owned, k) && framePipe == old(framePipe) + [owned[k]]
    {
      ghost var s := Shared(Idle, Reading);
      run := DrainClearPipe();
      RunSnoc(s, run, NothingToClear);
      run := run + [NothingToClear];
      match shown {
        case None =>
          RunSnoc(s, run, NoFrame);
          run := run + [NoFrame];
        case Some(k) =>
          RunSnoc(s, run, Decode(k));
          run := run + [Decode(k)];
          var frame := vpu[k];
          vpu := Without(vpu, k);
          RunSnoc(s, run, WriteFrame);
          run := run + [WriteFrame];
          framePipe := framePipe + [frame];
      }
    }

    method DrainClearPipe() returns (ghost run: seq<Action>)
      modifies this`vpu, this`clearPipe
      ensures Possible(old(Shared(Idle, Reading)), run)
      ensures After(old(Shared(Idle, Reading)), run) == Shared(Idle, Reading)
      ensures clearPipe == [] && vpu == old(vpu) + old(clearPipe)
    {
      ghost var s := Shared(Idle, Reading);
      ghost var n := 0; // frames cleared
      run := [];
      while clearPipe != []
        invariant n <= |s.clearPipe| && clearPipe == s.clearPipe[n..] && vpu == s.vpu + s.clearPipe[..n]
        invariant Possible(s, run) && After(s, run) == Shared(Idle, Reading)
        decreases |clearPipe|
      {
        RunSnoc(s, run, ReadClear);
        run := run + [ReadClear];
        var frame := clearPipe[0];
        clearPipe := clearPipe[1..];
        RunSnoc(s, run, Clear);
        run := run + [Clear];
        vpu := vpu + [frame];
        n := n + 1;
      }
    }
  }
}
