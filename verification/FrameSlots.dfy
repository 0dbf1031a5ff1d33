/** Handing decoded frames from the decode thread to the SDL event loop (src/video/ffmpeg.c,
    src/video/sdl.c, src/sdl.c).

    Frames rotate over two slots.  The decode thread fills a slot, counts it and pushes an event
    under a mutex.  The event loop counts the event, skips it when the slot must have been
    reused, and otherwise uploads the slot under the mutex; the test itself is not under it.
    An action here is one such step of either thread, with filling and uploading a slot split in
    two so that a slot can be seen half filled. */
module FrameSlots {

  /** SDL_BUFFER_FRAMES: the number of slots, and the lead at which events are skipped. */
  const BUFFER_FRAMES := 2

  /** A slot holds a decoded frame, by number, or is half filled.  Number 0 is no frame yet. */
  datatype Slot = Slot(frame: nat, whole: bool)

  datatype Producer = Outside | Locked | Receiving | Received | Counted | Leaving

  datatype Consumer =
    | Waiting
    | Taken(slot: nat)               // event taken and counted, test not done
    | Passed(slot: nat, seen: nat)   // test passed, having seen `seen` frames counted
    | Entered(slot: nat, seen: nat)  // mutex locked
    | Uploading(slot: nat, seen: nat, first: Slot)
    | Uploaded

  datatype Owner = Nobody | DecodeThread | EventLoop

  /** One upload: the event's number, the counts of frames at the test and at the upload, and
      what the slot held when the upload began and ended. */
  datatype Upload = Upload(event: nat, seen: nat, counted: nat, first: Slot, last: Slot)

  datatype State = State(
    slots: seq<Slot>, nextFrame: nat,       // dec_frames, next_frame
    decoded: nat,                           // frames received so far
    sdlNextFrame: nat, sdlCurrentFrame: nat,
    events: seq<nat>,                       // slots of the events pushed and not taken
    mutex: Owner, producer: Producer, consumer: Consumer,
    uploads: seq<Upload>)

  datatype Action =
    | Lock | BeginReceive | EndReceive | NoFrame | Count | Push | Unlock
    | Take | Test | LockSlot | BeginUpload | EndUpload | UnlockSlot

  predicate Enabled(s: State, a: Action)
  {
    match a
    case Lock => s.producer == Outside && s.mutex == Nobody
    case BeginReceive => s.producer == Locked
    case EndReceive => s.producer == Receiving
    case NoFrame => s.producer == Locked
    case Count => s.producer == Received
    case Push => s.producer == Counted
    case Unlock => s.producer == Leaving
    case Take => s.consumer == Waiting && s.events != []
    case Test => s.consumer.Taken?
    case LockSlot => s.consumer.Passed? && s.mutex == Nobody
    case BeginUpload => s.consumer.Entered? && s.consumer.slot < |s.slots|
    case EndUpload => s.consumer.Uploading? && s.consumer.slot < |s.slots|
    case UnlockSlot => s.consumer == Uploaded
  }

  function Other(slot: nat): nat { (slot + 1) % BUFFER_FRAMES }

  function Step(s: State, a: Action): (t: State)
    requires Enabled(s, a) && |s.slots| == BUFFER_FRAMES && s.nextFrame < BUFFER_FRAMES
    ensures |t.slots| == BUFFER_FRAMES && t.nextFrame < BUFFER_FRAMES
  {
    match a
    // sdl_submit_decode_unit and ffmpeg_get_frame
    case Lock => s.(mutex := DecodeThread, producer := Locked)
    case BeginReceive =>
      s.(slots := s.slots[s.nextFrame := Slot(s.slots[s.nextFrame].frame, false)], producer := Receiving)
    case EndReceive =>
      s.(slots := s.slots[s.nextFrame := Slot(s.decoded + 1, true)], decoded := s.decoded + 1,
         nextFrame := Other(s.nextFrame), producer := Received)
    case NoFrame => s.(producer := Leaving)
    case Count => s.(sdlNextFrame := s.sdlNextFrame + 1, producer := Counted)
    case Push => s.(events := s.events + [Other(s.nextFrame)], producer := Leaving) // current_frame
    case Unlock => s.(mutex := Nobody, producer := Outside)
    // the frame event in sdl_loop
    case Take => s.(events := s.events[1..], sdlCurrentFrame := s.sdlCurrentFrame + 1, consumer := Taken(s.events[0]))
    case Test =>
      if s.sdlCurrentFrame <= s.sdlNextFrame - BUFFER_FRAMES then s.(consumer := Waiting)
      else s.(consumer := Passed(s.consumer.slot, s.sdlNextFrame))
    case LockSlot => s.(mutex := EventLoop, consumer := Entered(s.consumer.slot, s.consumer.seen))
    case BeginUpload => s.(consumer := Uploading(s.consumer.slot, s.consumer.seen, s.slots[s.consumer.slot]))
    case EndUpload =>
      var last := s.slots[s.consumer.slot];
      s.(uploads := s.uploads + [Upload(s.sdlCurrentFrame, s.consumer.seen, s.sdlNextFrame, s.consumer.first, last)],
         consumer := Uploaded)
    case UnlockSlot => s.(mutex := Nobody, consumer := Waiting)
  }

  const START := State([Slot(0, true), Slot(0, true)], 0, 0, 0, 0, [], Nobody, Outside, Waiting, [])

  // ---------------------------------------------------------------------------------------
  // The invariant

  /** The slot frame number n goes to. */
  function SlotOf(n: nat): nat
    requires n > 0
  {
    (n - 1) % BUFFER_FRAMES
  }

  /** The newest frame up to number n that shares event k's slot. */
  function NewestLike(k: nat, n: nat): nat
    requires k <= n
  {
    if (n - k) % BUFFER_FRAMES == 0 then n else n - 1
  }

  ghost predicate MutexHeld(s: State)
  {
    && (s.mutex == DecodeThread <==> s.producer != Outside)
    && (s.mutex == EventLoop <==> s.consumer.Entered? || s.consumer.Uploading? || s.consumer == Uploaded)
  }

  ghost predicate Counts(s: State)
  {
    && s.decoded == s.sdlNextFrame + (if s.producer == Received then 1 else 0)
    && s.sdlCurrentFrame + |s.events| + (if s.producer == Counted then 1 else 0) == s.sdlNextFrame
    && s.nextFrame == s.decoded % BUFFER_FRAMES
  }

  /** Each slot holds the newest frame that went to it, whole unless it is being filled. */
  ghost predicate SlotsHold(s: State)
  {
    && |s.slots| == BUFFER_FRAMES
    && (s.decoded > 0 ==> s.slots[SlotOf(s.decoded)] == Slot(s.decoded, true))
    && (s.decoded > 1 ==> s.slots[SlotOf(s.decoded - 1)].frame == s.decoded - 1)
    && forall i :: 0 <= i < BUFFER_FRAMES ==> (s.slots[i].whole <==> !(s.producer == Receiving && i == s.nextFrame))
  }

  /** Events carry the slots of their frames, in order. */
  ghost predicate EventsInOrder(s: State)
  {
    && (forall q :: 0 <= q < |s.events| ==> s.events[q] == (s.sdlCurrentFrame + q) % BUFFER_FRAMES)
    && (s.consumer != Waiting ==> s.sdlCurrentFrame > 0)
    && (s.consumer.Taken? || s.consumer.Passed? || s.consumer.Entered? || s.consumer.Uploading? ==>
          s.consumer.slot == SlotOf(s.sdlCurrentFrame))
    && (s.consumer.Passed? || s.consumer.Entered? || s.consumer.Uploading? ==>
          s.sdlCurrentFrame > s.consumer.seen - BUFFER_FRAMES && s.sdlCurrentFrame <= s.consumer.seen <= s.sdlNextFrame)
    && (s.consumer.Uploading? ==> s.consumer.slot < |s.slots| && s.consumer.first == s.slots[s.consumer.slot])
  }

  /** An upload is of one whole frame, the newest of the event's slot at that moment. */
  ghost predicate UploadGood(u: Upload)
  {
    && 0 < u.event <= u.seen <= u.counted && u.event > u.seen - BUFFER_FRAMES
    && u.first == u.last && u.first.whole
    && u.first.frame == NewestLike(u.event, u.counted)
  }

  ghost predicate Inv(s: State)
  {
    && SlotsHold(s) && s.nextFrame < BUFFER_FRAMES
    && MutexHeld(s) && Counts(s) && EventsInOrder(s)
    && forall j :: 0 <= j < |s.uploads| ==> UploadGood(s.uploads[j])
  }

  lemma FillKeepsInv(s: State, a: Action)
    requires Inv(s) && Enabled(s, a) && (a.BeginReceive? || a.EndReceive?)
    ensures Inv(Step(s, a))
  {
  }

  lemma PushKeepsInv(s: State)
    requires Inv(s) && Enabled(s, Push)
    ensures Inv(Step(s, Push))
  {
  }

  lemma ProducerKeepsInv(s: State, a: Action)
    requires Inv(s) && Enabled(s, a)
    requires a.Lock? || a.BeginReceive? || a.EndReceive? || a.NoFrame? || a.Count? || a.Push? || a.Unlock?
    ensures Inv(Step(s, a))
  {
    match a
    case BeginReceive => FillKeepsInv(s, a);
    case EndReceive => FillKeepsInv(s, a);
    case Push => PushKeepsInv(s);
    case _ =>
  }

  lemma TakeKeepsInv(s: State)
    requires Inv(s) && Enabled(s, Take)
    ensures Inv(Step(s, Take))
  {
    var t := Step(s, Take);
    forall q | 0 <= q < |t.events| ensures t.events[q] == (t.sdlCurrentFrame + q) % BUFFER_FRAMES {
      assert t.events[q] == s.events[q + 1];
    }
  }

  lemma TestKeepsInv(s: State)
    requires Inv(s) && Enabled(s, Test)
    ensures Inv(Step(s, Test))
  {
  }

  lemma MutexStepKeepsInv(s: State, a: Action)
    requires Inv(s) && Enabled(s, a) && (a.LockSlot? || a.BeginUpload? || a.UnlockSlot?)
    ensures Inv(Step(s, a))
  {
  }

  lemma EndUploadKeepsInv(s: State)
    requires Inv(s) && Enabled(s, EndUpload)
    ensures Inv(Step(s, EndUpload))
  {
    var k, n := s.sdlCurrentFrame, s.sdlNextFrame;
    assert s.producer == Outside && s.decoded == n;
    assert s.slots[SlotOf(k)].frame == NewestLike(k, n);
  }

  lemma ConsumerKeepsInv(s: State, a: Action)
    requires Inv(s) && Enabled(s, a)
    requires a.Take? || a.Test? || a.LockSlot? || a.BeginUpload? || a.EndUpload? || a.UnlockSlot?
    ensures Inv(Step(s, a))
  {
    match a
    case Take => TakeKeepsInv(s);
    case Test => TestKeepsInv(s);
    case EndUpload => EndUploadKeepsInv(s);
    case _ => MutexStepKeepsInv(s, a);
  }

  predicate Possible(s: State, actions: seq<Action>)
    requires |s.slots| == BUFFER_FRAMES && s.nextFrame < BUFFER_FRAMES
    decreases |actions|
  {
    actions == [] || (Enabled(s, actions[0]) && Possible(Step(s, actions[0]), actions[1..]))
  }

  function After(s: State, actions: seq<Action>): (t: State)
    requires |s.slots| == BUFFER_FRAMES && s.nextFrame < BUFFER_FRAMES && Possible(s, actions)
    ensures |t.slots| == BUFFER_FRAMES && t.nextFrame < BUFFER_FRAMES
    decreases |actions|
  {
    if actions == [] then s else After(Step(s, actions[0]), actions[1..])
  }

  lemma {:induction false} RunKeepsInv(s: State, actions: seq<Action>)
    requires Inv(s) && Possible(s, actions)
    ensures Inv(After(s, actions))
    decreases |actions|
  {
    if actions != [] {
      var a := actions[0];
      if a.Take? || a.Test? || a.LockSlot? || a.BeginUpload? || a.EndUpload? || a.UnlockSlot? {
        ConsumerKeepsInv(s, a);
      } else {
        ProducerKeepsInv(s, a);
      }
      RunKeepsInv(Step(s, a), actions[1..]);
    }
  }

  // ---------------------------------------------------------------------------------------
  // What every interleaving guarantees

  /** Every upload is of one whole frame, at least as new as the event's own; it is the event's
      own frame exactly when fewer than two frames were counted since, and in particular when
      none was counted between the test and the upload. */
  lemma UploadsAreWhole(actions: seq<Action>, j: nat)
    requires Possible(START, actions) && j < |After(START, actions).uploads|
    ensures var u := After(START, actions).uploads[j];
            && u.first == u.last && u.first.whole
            && 0 < u.event <= u.first.frame <= u.counted && SlotOf(u.first.frame) == SlotOf(u.event)
            && (u.first.frame == u.event <==> u.counted < u.event + BUFFER_FRAMES)
            && (u.seen == u.counted ==> u.first.frame == u.event)
  {
    RunKeepsInv(START, actions);
    var u := After(START, actions).uploads[j];
    assert UploadGood(u);
  }

  /** The skip rule is exact: while the decode thread is outside the mutex, an event's slot still
      holds its frame exactly when the event is not skipped. */
  lemma SkipIsExact(actions: seq<Action>)
    requires Possible(START, actions)
    ensures var s := After(START, actions);
            s.consumer.Taken? && s.producer == Outside ==>
              s.consumer.slot < |s.slots| &&
              (s.slots[s.consumer.slot] == Slot(s.sdlCurrentFrame, true) <==> Step(s, Test).consumer.Passed?)
  {
    RunKeepsInv(START, actions);
  }

  /** The two threads are never both inside the mutex, and the event loop never takes an event
      for a frame that has not been counted. */
  lemma NeverBothInside(actions: seq<Action>)
    requires Possible(START, actions)
    ensures var s := After(START, actions);
            && (s.producer == Outside || !(s.consumer.Entered? || s.consumer.Uploading? || s.consumer == Uploaded))
            && s.sdlCurrentFrame <= s.sdlNextFrame
  {
    RunKeepsInv(START, actions);
  }

  /** The test outside the mutex does let a newer frame through: with two frames decoded between
      test and upload, event 1 uploads frame 3. */
  lemma LateUploadIsNewer()
    ensures var decode := [Lock, BeginReceive, EndReceive, Count, Push, Unlock];
            var run := decode + [Take, Test] + decode + decode + [LockSlot, BeginUpload, EndUpload];
            Possible(START, run) &&
            After(START, run).uploads == [Upload(1, 1, 3, Slot(3, true), Slot(3, true))]
  {
    var decode := [Lock, BeginReceive, EndReceive, Count, Push, Unlock];
    var upload := [LockSlot, BeginUpload, EndUpload];
    EarlyTest();
    LateUpload();
    RunConcat(START, decode + [Take, Test], decode + decode + upload);
    assert decode + [Take, Test] + (decode + decode + upload) == decode + [Take, Test] + decode + decode + upload;
  }

  /** One frame decoded, its event taken and let through. */
  const TESTED := State([Slot(1, true), Slot(0, true)], 1, 1, 1, 1, [], Nobody, Outside, Passed(0, 1), [])

  lemma EarlyTest()
    ensures var run := [Lock, BeginReceive, EndReceive, Count, Push, Unlock] + [Take, Test];
            Possible(START, run) && After(START, run) == TESTED
  {
    var decode := [Lock, BeginReceive, EndReceive, Count, Push, Unlock];
    var s1 := State([Slot(1, true), Slot(0, true)], 1, 1, 1, 0, [0], Nobody, Outside, Waiting, []);
    DecodeIsReceiveAndPublish();
    DecodeOnce(START);
    assert AfterDecode(START) == s1;
    TakeAndTest(s1);
    assert AfterTest(s1) == TESTED;
    RunConcat(START, decode, [Take, Test]);
  }

  lemma LateUpload()
    ensures var decode := [Lock, BeginReceive, EndReceive, Count, Push, Unlock];
            var run := decode + decode + [LockSlot, BeginUpload, EndUpload];
            Possible(TESTED, run) &&
            After(TESTED, run).uploads == [Upload(1, 1, 3, Slot(3, true), Slot(3, true))]
  {
    var decode := [Lock, BeginReceive, EndReceive, Count, Push, Unlock];
    var s3 := State([Slot(1, true), Slot(2, true)], 0, 2, 2, 1, [1], Nobody, Outside, Passed(0, 1), []);
    var s4 := State([Slot(3, true), Slot(2, true)], 1, 3, 3, 1, [1, 0], Nobody, Outside, Passed(0, 1), []);
    DecodeIsReceiveAndPublish();
    DecodeOnce(TESTED);
    assert AfterDecode(TESTED) == s3;
    DecodeOnce(s3);
    assert AfterDecode(s3) == s4;
    UploadOnce(s4);
    RunConcat(TESTED, decode, decode);
    RunConcat(TESTED, decode + decode, [LockSlot, BeginUpload, EndUpload]);
  }

  function AfterTest(s: State): State
    requires s.events != []
  {
    s.(events := s.events[1..], sdlCurrentFrame := s.sdlCurrentFrame + 1,
       consumer := Passed(s.events[0], s.sdlNextFrame))
  }

  lemma TakeAndTest(s: State)
    requires |s.slots| == BUFFER_FRAMES && s.nextFrame < BUFFER_FRAMES
    requires s.consumer == Waiting && s.events != [] && s.sdlCurrentFrame + 1 > s.sdlNextFrame - BUFFER_FRAMES
    ensures Possible(s, [Take, Test]) && After(s, [Take, Test]) == AfterTest(s)
  {
    assert [Take, Test][1..] == [Test] && [Test][1..] == [];
    assert After(Step(s, Take), [Test]) == AfterTest(s);
  }

  lemma UploadOnce(s: State)
    requires |s.slots| == BUFFER_FRAMES && s.nextFrame < BUFFER_FRAMES
    requires s.consumer.Passed? && s.mutex == Nobody && s.consumer.slot < |s.slots|
    ensures var upload := [LockSlot, BeginUpload, EndUpload];
            var slot := s.slots[s.consumer.slot];
            Possible(s, upload) &&
            After(s, upload).uploads
            == s.uploads + [Upload(s.sdlCurrentFrame, s.consumer.seen, s.sdlNextFrame, slot, slot)]
  {
    ThreeSteps(s, LockSlot, BeginUpload, EndUpload);
  }

  function AfterDecode(s: State): State
    requires |s.slots| == BUFFER_FRAMES && s.nextFrame < BUFFER_FRAMES
  {
    s.(slots := s.slots[s.nextFrame := Slot(s.decoded + 1, true)], decoded := s.decoded + 1,
       nextFrame := Other(s.nextFrame), sdlNextFrame := s.sdlNextFrame + 1,
       events := s.events + [Other(Other(s.nextFrame))])
  }

  const RECEIVE := [Lock, BeginReceive, EndReceive]
  const PUBLISH := [Count, Push, Unlock]

  lemma DecodeIsReceiveAndPublish()
    ensures RECEIVE + PUBLISH == [Lock, BeginReceive, EndReceive, Count, Push, Unlock]
  {
  }

  /** Decoding one frame without interruption. */
  lemma DecodeOnce(s: State)
    requires |s.slots| == BUFFER_FRAMES && s.nextFrame < BUFFER_FRAMES
    requires s.producer == Outside && s.mutex == Nobody
    ensures Possible(s, RECEIVE + PUBLISH) && After(s, RECEIVE + PUBLISH) == AfterDecode(s)
  {
    ReceiveOnce(s);
    PublishOnce(AfterReceive(s));
    TwoRuns(s, RECEIVE, AfterReceive(s), PUBLISH, AfterDecode(s));
  }

  function AfterReceive(s: State): State
    requires |s.slots| == BUFFER_FRAMES && s.nextFrame < BUFFER_FRAMES
  {
    s.(slots := s.slots[s.nextFrame := Slot(s.decoded + 1, true)], decoded := s.decoded + 1,
       nextFrame := Other(s.nextFrame), mutex := DecodeThread, producer := Received)
  }

  lemma TwoRuns(s: State, a: seq<Action>, t: State, b: seq<Action>, u: State)
    requires |s.slots| == BUFFER_FRAMES && s.nextFrame < BUFFER_FRAMES
    requires |t.slots| == BUFFER_FRAMES && t.nextFrame < BUFFER_FRAMES
    requires Possible(s, a) && After(s, a) == t && Possible(t, b) && After(t, b) == u
    ensures Possible(s, a + b) && After(s, a + b) == u
  {
    RunConcat(s, a, b);
  }

  lemma ReceiveOnce(s: State)
    requires |s.slots| == BUFFER_FRAMES && s.nextFrame < BUFFER_FRAMES
    requires s.producer == Outside && s.mutex == Nobody
    ensures Possible(s, RECEIVE) && After(s, RECEIVE) == AfterReceive(s)
  {
    ThreeSteps(s, Lock, BeginReceive, EndReceive);
    var t := Step(Step(s, Lock), BeginReceive);
    assert t.slots[s.nextFrame := Slot(s.decoded + 1, true)] == AfterReceive(s).slots;
  }

  lemma PublishOnce(s: State)
    requires |s.slots| == BUFFER_FRAMES && s.nextFrame < BUFFER_FRAMES
    requires s.producer == Received
    ensures Possible(s, PUBLISH)
    ensures After(s, PUBLISH)
            == s.(sdlNextFrame := s.sdlNextFrame + 1, events := s.events + [Other(s.nextFrame)],
                  mutex := Nobody, producer := Outside)
  {
    ThreeSteps(s, Count, Push, Unlock);
  }

  lemma ThreeSteps(s: State, a: Action, b: Action, c: Action)
    requires |s.slots| == BUFFER_FRAMES && s.nextFrame < BUFFER_FRAMES
    requires Enabled(s, a) && Enabled(Step(s, a), b) && Enabled(Step(Step(s, a), b), c)
    ensures Possible(s, [a, b, c]) && After(s, [a, b, c]) == Step(Step(Step(s, a), b), c)
  {
    var s1 := Step(s, a);
    var s2 := Step(s1, b);
    RunCons(s2, c, []);
    RunCons(s1, b, [c]);
    RunCons(s, a, [b, c]);
    assert [c] == [c] + [] && [b, c] == [b] + [c] && [a, b, c] == [a] + [b, c];
  }

  lemma RunCons(s: State, a: Action, rest: seq<Action>)
    requires |s.slots| == BUFFER_FRAMES && s.nextFrame < BUFFER_FRAMES
    requires Enabled(s, a) && Possible(Step(s, a), rest)
    ensures Possible(s, [a] + rest) && After(s, [a] + rest) == After(Step(s, a), rest)
  {
    assert ([a] + rest)[1..] == rest;
  }

  lemma {:induction false} RunConcat(s: State, a: seq<Action>, b: seq<Action>)
    requires |s.slots| == BUFFER_FRAMES && s.nextFrame < BUFFER_FRAMES && Possible(s, a)
    requires |After(s, a).slots| == BUFFER_FRAMES && After(s, a).nextFrame < BUFFER_FRAMES && Possible(After(s, a), b)
    ensures Possible(s, a + b) && After(s, a + b) == After(After(s, a), b)
    decreases |a|
  {
    if a == [] {
      assert a + b == b;
    } else {
      assert (a + b)[1..] == a[1..] + b;
      RunConcat(Step(s, a[0]), a[1..], b);
    }
  }

  // ---------------------------------------------------------------------------------------
  // The three functions, each run without interruption

  class SdlVideo {
    const decFrames: array<Slot>
    var currentFrame: nat
    var nextFrame: nat
    var sdlNextFrame: nat
    var sdlCurrentFrame: nat
    var events: seq<nat>
    var decoded: nat          // frames the decoder has handed out
    ghost var uploads: seq<Upload>

    ghost predicate Valid()
      reads this
    {
      decFrames.Length == BUFFER_FRAMES && nextFrame < BUFFER_FRAMES
    }

    ghost function Shared(mutex: Owner, producer: Producer, consumer: Consumer): State
      reads this, decFrames
    {
      State(decFrames[..], nextFrame, decoded, sdlNextFrame, sdlCurrentFrame, events,
            mutex, producer, consumer, uploads)
    }

    /** ffmpeg_get_frame with a software decoder; `received` says whether the decoder had a frame.
        The slot is filled by the library while the call lasts. */
    method GetFrame(received: bool) returns (frame: int)
      requires Valid()
      modifies this`currentFrame, this`nextFrame, this`decoded, decFrames
      ensures Valid()
      ensures var s := old(Shared(DecodeThread, Locked, Waiting));
              if received then
                && Shared(DecodeThread, Received, Waiting) == Step(Step(s, BeginReceive), EndReceive)
                && frame == old(nextFrame)
              else Shared(DecodeThread, Leaving, Waiting) == Step(s, NoFrame) && frame == -1
    {
      if received {
        decFrames[nextFrame] := Slot(decoded + 1, true);
        decoded := decoded + 1;
        currentFrame := nextFrame;
        nextFrame := (currentFrame + 1) % BUFFER_FRAMES;
        return currentFrame;
      }
      return -1;
    }

    /** sdl_submit_decode_unit after the unit was passed to the decoder. */
    method SubmitFrame(received: bool) returns (ghost run: seq<Action>)
      requires Valid()
      modifies this, decFrames
      ensures Valid() && Possible(old(Shared(Nobody, Outside, Waiting)), run)
      ensures After(old(Shared(Nobody, Outside, Waiting)), run) == Shared(Nobody, Outside, Waiting)
      ensures run == if received then [Lock, BeginReceive, EndReceive, Count, Push, Unlock] else [Lock, NoFrame, Unlock]
    {
      ghost var s := Shared(Nobody, Outside, Waiting);
      if received {
        DecodeIsReceiveAndPublish();
        DecodeOnce(s);
      } else {
        ThreeSteps(s, Lock, NoFrame, Unlock);
      }
      var frame := GetFrame(received);
      if frame >= 0 {
        sdlNextFrame := sdlNextFrame + 1;
        events := events + [frame];
      }
      run := if received then [Lock, BeginReceive, EndReceive, Count, Push, Unlock] else [Lock, NoFrame, Unlock];
    }

    /** The frame event in sdl_loop; `bmp` is what the texture is updated with, if it is. */
    method HandleFrameEvent() returns (shown: bool, bmp: Slot)
      requires Valid() && events != [] && events[0] < BUFFER_FRAMES
      modifies this`events, this`sdlCurrentFrame
      ensures var s := old(Shared(Nobody, Outside, Waiting));
              var t := Step(Step(s, Take), Test);
              && shown == t.consumer.Passed?
              && (!shown ==> Shared(Nobody, Outside, Waiting) == t)
              && (shown ==> Shared(Nobody, Outside, t.consumer) == t && bmp == decFrames[t.consumer.slot])
    {
      var data1 := events[0];
      events := events[1..];
      sdlCurrentFrame := sdlCurrentFrame + 1;
      if sdlCurrentFrame <= sdlNextFrame - BUFFER_FRAMES {
        // the slot may already hold a newer frame
        return false, Slot(0, true);
      }
      return true, decFrames[data1];
    }
  }
}
