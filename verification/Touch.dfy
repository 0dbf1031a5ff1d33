/** Touchscreen events turned into relative mouse motion (src/input/evdev.c).

    A contact sets an anchor per axis; later coordinates add their difference to a pending
    delta, which the next synchronisation event sends rotated and clears. */
module Touch {

  const TOUCH_UP := -1
  const TOUCH_CLICK_RADIUS := 10
  const TOUCH_RCLICK_TIME := 750 // milliseconds

  datatype Button = Left | Right

  /** The kernel events a touchscreen sends; `time` is in microseconds. */
  datatype Event =
    | AbsX(value: int)
    | AbsY(value: int)
    | BtnTouch(value: int, time: int)
    | Syn

  datatype Action = Move(dx: int, dy: int) | Click(button: Button)

  /** The touch fields of struct input_device. */
  datatype State = State(
    rotate: int,
    downX: int, downY: int, x: int, y: int,
    deltaX: int, deltaY: int,
    downTime: int)

  function Initial(rotate: int): State
  {
    State(rotate, TOUCH_UP, TOUCH_UP, 0, 0, 0, 0, 0)
  }

  /** Rotation of a mouse move by the configured display rotation. */
  function Rotate(rotate: int, dx: int, dy: int): (int, int)
  {
    if rotate == 90 then (dy, -dx)
    else if rotate == 180 then (-dx, -dy)
    else if rotate == 270 then (-dy, dx)
    else (dx, dy)
  }

  predicate InClickRadius(dx: int, dy: int)
  {
    dx * dx + dy * dy < TOUCH_CLICK_RADIUS * TOUCH_CLICK_RADIUS
  }

  /** The click a lifted contact produces: timersub followed by a truncating division to
      milliseconds, which for the non-negative hold times of a monotonic clock is `/`. */
  function Lift(s: State, time: int): (clicks: seq<Action>)
    ensures clicks == [] || exists b :: clicks == [Click(b)]
  {
    if s.downX == TOUCH_UP || s.downY == TOUCH_UP then []
    else
      if InClickRadius(s.x - s.downX, s.y - s.downY) then
        [Click(if (time - s.downTime) / 1000 >= TOUCH_RCLICK_TIME then Right else Left)]
      else []
  }

  function Step(s: State, e: Event): (State, seq<Action>)
  {
    match e
    case AbsX(v) =>
      if s.downX == TOUCH_UP then (s.(downX := v, x := v), [])
      else (s.(deltaX := s.deltaX + (v - s.x), x := v), [])
    case AbsY(v) =>
      if s.downY == TOUCH_UP then (s.(downY := v, y := v), [])
      else (s.(deltaY := s.deltaY + (v - s.y), y := v), [])
    case BtnTouch(value, time) =>
      if value == 1 then (s.(downTime := time), [])
      else (s.(downX := TOUCH_UP, downY := TOUCH_UP), Lift(s, time))
    case Syn =>
      if s.deltaX != 0 || s.deltaY != 0 then
        var m := Rotate(s.rotate, s.deltaX, s.deltaY);
        (s.(deltaX := 0, deltaY := 0), [Move(m.0, m.1)])
      else (s, [])
  }

  function Run(s: State, es: seq<Event>): (State, seq<Action>)
    decreases |es|
  {
    if es == [] then (s, [])
    else
      var n := |es| - 1;
      var (t, before) := Run(s, es[..n]);
      var (u, now) := Step(t, es[n]);
      (u, before + now)
  }

  /** The device as the program keeps it: one record whose fields each event updates. */
  class Touchscreen {
    var rotate: int
    var touchDownX: int
    var touchDownY: int
    var touchX: int
    var touchY: int
    var mouseDeltaX: int
    var mouseDeltaY: int
    var touchDownTime: int

    function Fields(): State
      reads this
    {
      State(rotate, touchDownX, touchDownY, touchX, touchY, mouseDeltaX, mouseDeltaY, touchDownTime)
    }

    constructor (rotate: int)
      ensures Fields() == Initial(rotate)
    {
      this.rotate := rotate;
      touchDownX, touchDownY := TOUCH_UP, TOUCH_UP;
      touchX, touchY, mouseDeltaX, mouseDeltaY, touchDownTime := 0, 0, 0, 0, 0;
    }

    method HandleEvent(ev: Event) returns (sent: seq<Action>)
      modifies this
      ensures Fields() == Step(old(Fields()), ev).0
      ensures sent == Step(old(Fields()), ev).1
    {
      sent := [];
      match ev
      case Syn =>
        if mouseDeltaX != 0 || mouseDeltaY != 0 {
          match rotate {
            case 90 => sent := [Move(mouseDeltaY, -mouseDeltaX)];
            case 180 => sent := [Move(-mouseDeltaX, -mouseDeltaY)];
            case 270 => sent := [Move(-mouseDeltaY, mouseDeltaX)];
            case _ => sent := [Move(mouseDeltaX, mouseDeltaY)];
          }
          mouseDeltaX := 0;
          mouseDeltaY := 0;
        }
      case BtnTouch(value, time) =>
        if value == 1 {
          touchDownTime := time;
        } else {
          if touchDownX != TOUCH_UP && touchDownY != TOUCH_UP {
            var deltaX := touchX - touchDownX;
            var deltaY := touchY - touchDownY;
            if InClickRadius(deltaX, deltaY) {
              var holdTimeMs := (time - touchDownTime) / 1000;
              sent := [Click(if holdTimeMs >= TOUCH_RCLICK_TIME then Right else Left)];
            }
          }
          touchDownX := TOUCH_UP;
          touchDownY := TOUCH_UP;
        }
      case AbsX(value) =>
        if touchDownX == TOUCH_UP {
          touchDownX := value;
          touchX := value;
        } else {
          mouseDeltaX := mouseDeltaX + (value - touchX);
          touchX := value;
        }
      case AbsY(value) =>
        if touchDownY == TOUCH_UP {
          touchDownY := value;
          touchY := value;
        } else {
          mouseDeltaY := mouseDeltaY + (value - touchY);
          touchY := value;
        }
    }
  }

  // ---------------------------------------------------------------------------------------
  // What a sequence of events says by itself

  datatype Axis = X | Y

  function ExtendContacts(cs: seq<seq<int>>, e: Event, axis: Axis): (r: seq<seq<int>>)
    requires cs != []
    ensures r != []
  {
    var k := |cs| - 1;
    match e
    case AbsX(v) => if axis == X then cs[k := cs[k] + [v]] else cs
    case AbsY(v) => if axis == Y then cs[k := cs[k] + [v]] else cs
    case BtnTouch(value, _) => if value == 1 then cs else cs + [[]]
    case Syn => cs
  }

  /** The coordinates an event sequence gives for one axis, split into contacts: a lift ends
      the contact in progress.  The last element is the contact still open. */
  function Contacts(es: seq<Event>, axis: Axis): (cs: seq<seq<int>>)
    ensures cs != []
    decreases |es|
  {
    if es == [] then [[]]
    else ExtendContacts(Contacts(es[..|es| - 1], axis), es[|es| - 1], axis)
  }

  /** How far a contact travelled: its last coordinate less its first. */
  function Travel(contact: seq<int>): int
  {
    if contact == [] then 0 else contact[|contact| - 1] - contact[0]
  }

  function TotalTravel(cs: seq<seq<int>>): int
  {
    if cs == [] then 0 else TotalTravel(cs[..|cs| - 1]) + Travel(cs[|cs| - 1])
  }

  /** The sum of all the mouse moves among the actions. */
  function TotalMoved(actions: seq<Action>): (int, int)
  {
    if actions == [] then (0, 0)
    else
      var m := TotalMoved(actions[..|actions| - 1]);
      match actions[|actions| - 1]
      case Move(dx, dy) => (m.0 + dx, m.1 + dy)
      case Click(_) => m
  }

  /** A contact as the program sees it: coordinates equal to the value that marks a lifted finger
      are passed over until the first other one, which sets the anchor. */
  function Seen(contact: seq<int>): (seen: seq<int>)
    ensures |seen| <= |contact|
    ensures seen != [] ==> seen[0] != TOUCH_UP && contact[|contact| - 1] == seen[|seen| - 1]
  {
    if contact == [] || contact[0] != TOUCH_UP then contact else Seen(contact[1..])
  }

  function TotalSeen(cs: seq<seq<int>>): int
  {
    if cs == [] then 0 else TotalSeen(cs[..|cs| - 1]) + Travel(Seen(cs[|cs| - 1]))
  }

  /** The contact starts with the lifted-finger value and has another coordinate later. */
  predicate LosesMotion(contact: seq<int>)
  {
    contact != [] && contact[0] == TOUCH_UP && exists k :: 0 <= k < |contact| && contact[k] != TOUCH_UP
  }

  predicate NoneLoses(cs: seq<seq<int>>)
  {
    forall k :: 0 <= k < |cs| ==> !LosesMotion(cs[k])
  }

  lemma TotalSeenUpdateLast(cs: seq<seq<int>>, c: seq<int>)
    requires cs != []
    ensures TotalSeen(cs[|cs| - 1 := c]) == TotalSeen(cs) - Travel(Seen(cs[|cs| - 1])) + Travel(Seen(c))
  {
    var ds := cs[|cs| - 1 := c];
    assert ds[..|ds| - 1] == cs[..|cs| - 1];
  }

  lemma TotalSeenAppend(cs: seq<seq<int>>, c: seq<int>)
    ensures TotalSeen(cs + [c]) == TotalSeen(cs) + Travel(Seen(c))
  {
    assert (cs + [c])[..|cs|] == cs;
  }

  lemma RotateAdd(rotate: int, a: int, b: int, c: int, d: int)
    ensures var p, q := Rotate(rotate, a, b), Rotate(rotate, c, d);
            (p.0 + q.0, p.1 + q.1) == Rotate(rotate, a + c, b + d)
  {
  }

  lemma RotateInjective(rotate: int, a: int, b: int, c: int, d: int)
    ensures Rotate(rotate, a, b) == Rotate(rotate, c, d) <==> a == c && b == d
  {
  }

  lemma {:induction false} TotalMovedConcat(a: seq<Action>, b: seq<Action>)
    ensures TotalMoved(a + b) == (TotalMoved(a).0 + TotalMoved(b).0, TotalMoved(a).1 + TotalMoved(b).1)
  {
    if b == [] {
      assert a + b == a;
    } else {
      var n := |b| - 1;
      TotalMovedConcat(a, b[..n]);
      assert (a + b)[..|a + b| - 1] == a + b[..n];
    }
  }

  /** The anchor of an axis is the first coordinate seen of the open contact, the position its
      last. */
  ghost predicate Anchored(contact: seq<int>, down: int, position: int)
  {
    if Seen(contact) == [] then down == TOUCH_UP
    else down == Seen(contact)[0] && position == contact[|contact| - 1]
  }

  /** The mouse moves sent plus the rotated delta still pending add up to the rotated travel of
      the contacts. */
  ghost predicate Conserved(rotate: int, es: seq<Event>)
  {
    var (s, sent) := Run(Initial(rotate), es);
    AddsUp(rotate, TotalMoved(sent), s, Contacts(es, X), Contacts(es, Y))
  }

  predicate AddsUp(rotate: int, moved: (int, int), s: State, xs: seq<seq<int>>, ys: seq<seq<int>>)
  {
    var pending := Rotate(rotate, s.deltaX, s.deltaY);
    (moved.0 + pending.0, moved.1 + pending.1) == Rotate(rotate, TotalTravel(xs), TotalTravel(ys))
  }

  function Coordinate(e: Event, axis: Axis): seq<int>
  {
    match e
    case AbsX(v) => if axis == X then [v] else []
    case AbsY(v) => if axis == Y then [v] else []
    case _ => []
  }

  lemma {:induction false} SeenExtend(contact: seq<int>, v: int)
    ensures Seen(contact + [v])
         == if Seen(contact) != [] then Seen(contact) + [v] else if v != TOUCH_UP then [v] else []
    decreases |contact|
  {
    if contact == [] {
      assert [] + [v] == [v] && [v][1..] == [];
    } else if contact[0] == TOUCH_UP {
      assert (contact + [v])[1..] == contact[1..] + [v];
      SeenExtend(contact[1..], v);
    }
  }

  /** What one event does to the contacts of one axis. */
  lemma AxisStep(cs: seq<seq<int>>, e: Event, axis: Axis, down: int, position: int)
    requires cs != []
    requires Anchored(cs[|cs| - 1], down, position)
    ensures var c := Coordinate(e, axis);
            var cs' := ExtendContacts(cs, e, axis);
            var lifted := e.BtnTouch? && e.value != 1;
            && TotalSeen(cs') == TotalSeen(cs) + (if c != [] && down != TOUCH_UP then c[0] - position else 0)
            && Anchored(cs'[|cs'| - 1],
                        if lifted then TOUCH_UP else if c != [] && down == TOUCH_UP then c[0] else down,
                        if c != [] then c[0] else position)
  {
    var c := Coordinate(e, axis);
    var k := |cs| - 1;
    if c != [] {
      SeenExtend(cs[k], c[0]);
      TotalSeenUpdateLast(cs, cs[k] + c);
    } else if e.BtnTouch? && e.value != 1 {
      TotalSeenAppend(cs, []);
    }
  }

  /** The part of the pending delta that an event sends. */
  function Flushed(s: State, e: Event): (int, int)
  {
    if e.Syn? then (s.deltaX, s.deltaY) else (0, 0)
  }

  lemma StepSends(s: State, e: Event)
    ensures TotalMoved(Step(s, e).1) == Rotate(s.rotate, Flushed(s, e).0, Flushed(s, e).1)
  {
    var now := Step(s, e).1;
    assert now != [] ==> now[..|now| - 1] == [];
  }

  lemma XStep(s: State, e: Event, xs: seq<seq<int>>)
    requires xs != [] && Anchored(xs[|xs| - 1], s.downX, s.x)
    ensures var t, xs' := Step(s, e).0, ExtendContacts(xs, e, X);
            && Anchored(xs'[|xs'| - 1], t.downX, t.x)
            && TotalSeen(xs') - t.deltaX == TotalSeen(xs) - s.deltaX + Flushed(s, e).0
  {
    AxisStep(xs, e, X, s.downX, s.x);
  }

  lemma YStep(s: State, e: Event, ys: seq<seq<int>>)
    requires ys != [] && Anchored(ys[|ys| - 1], s.downY, s.y)
    ensures var t, ys' := Step(s, e).0, ExtendContacts(ys, e, Y);
            && Anchored(ys'[|ys'| - 1], t.downY, t.y)
            && TotalSeen(ys') - t.deltaY == TotalSeen(ys) - s.deltaY + Flushed(s, e).1
  {
    AxisStep(ys, e, Y, s.downY, s.y);
  }

  lemma RunMore(s: State, es: seq<Event>, e: Event)
    ensures var (t, before) := Run(s, es);
            Run(s, es + [e]) == (Step(t, e).0, before + Step(t, e).1)
  {
    assert (es + [e])[..|es|] == es;
  }

  lemma ContactsMore(es: seq<Event>, e: Event, axis: Axis)
    ensures Contacts(es + [e], axis) == ExtendContacts(Contacts(es, axis), e, axis)
  {
    assert (es + [e])[..|es|] == es;
  }

  /** The pending delta that the events sent, before rotation. */
  function AllFlushed(rotate: int, es: seq<Event>): (int, int)
    decreases |es|
  {
    if es == [] then (0, 0)
    else
      var n := |es| - 1;
      var before, now := AllFlushed(rotate, es[..n]), Flushed(Run(Initial(rotate), es[..n]).0, es[n]);
      (before.0 + now.0, before.1 + now.1)
  }

  /** On one axis: the delta sent plus the delta pending is the travel of all contacts as seen. */
  ghost predicate XAccounted(rotate: int, es: seq<Event>)
  {
    var s, xs := Run(Initial(rotate), es).0, Contacts(es, X);
    Anchored(xs[|xs| - 1], s.downX, s.x) && AllFlushed(rotate, es).0 + s.deltaX == TotalSeen(xs)
  }

  ghost predicate YAccounted(rotate: int, es: seq<Event>)
  {
    var s, ys := Run(Initial(rotate), es).0, Contacts(es, Y);
    Anchored(ys[|ys| - 1], s.downY, s.y) && AllFlushed(rotate, es).1 + s.deltaY == TotalSeen(ys)
  }

  /** The moves sent are the flushed deltas, rotated. */
  ghost predicate MovesAreFlushes(rotate: int, es: seq<Event>)
  {
    var (s, sent) := Run(Initial(rotate), es);
    s.rotate == rotate && MovesAre(sent, rotate, AllFlushed(rotate, es))
  }

  ghost predicate MovesAre(sent: seq<Action>, rotate: int, p: (int, int))
  {
    TotalMoved(sent) == Rotate(rotate, p.0, p.1)
  }

  lemma XAccountedMore(rotate: int, es: seq<Event>, e: Event)
    requires XAccounted(rotate, es)
    ensures XAccounted(rotate, es + [e])
  {
    RunMore(Initial(rotate), es, e);
    ContactsMore(es, e, X);
    XStep(Run(Initial(rotate), es).0, e, Contacts(es, X));
    assert (es + [e])[..|es|] == es;
  }

  lemma YAccountedMore(rotate: int, es: seq<Event>, e: Event)
    requires YAccounted(rotate, es)
    ensures YAccounted(rotate, es + [e])
  {
    RunMore(Initial(rotate), es, e);
    ContactsMore(es, e, Y);
    YStep(Run(Initial(rotate), es).0, e, Contacts(es, Y));
    assert (es + [e])[..|es|] == es;
  }

  lemma StepKeepsRotate(s: State, e: Event)
    ensures Step(s, e).0.rotate == s.rotate
  {
  }

  lemma MovesMore(rotate: int, before: seq<Action>, now: seq<Action>, p: (int, int), q: (int, int))
    requires MovesAre(before, rotate, p) && MovesAre(now, rotate, q)
    ensures MovesAre(before + now, rotate, (p.0 + q.0, p.1 + q.1))
  {
    TotalMovedConcat(before, now);
    RotateAdd(rotate, p.0, p.1, q.0, q.1);
  }

  lemma MovesAreFlushesMore(rotate: int, es: seq<Event>, e: Event)
    requires MovesAreFlushes(rotate, es)
    ensures MovesAreFlushes(rotate, es + [e])
  {
    var (s, before) := Run(Initial(rotate), es);
    RunMore(Initial(rotate), es, e);
    StepSends(s, e);
    StepKeepsRotate(s, e);
    AllFlushedMore(rotate, es, e);
    MovesMore(rotate, before, Step(s, e).1, AllFlushed(rotate, es), Flushed(s, e));
  }

  lemma AllFlushedMore(rotate: int, es: seq<Event>, e: Event)
    ensures var p, q := AllFlushed(rotate, es), Flushed(Run(Initial(rotate), es).0, e);
            AllFlushed(rotate, es + [e]) == (p.0 + q.0, p.1 + q.1)
  {
    assert (es + [e])[..|es|] == es;
  }

  /** For every rotation and every event sequence, the mouse moves sent are the rotated deltas
      flushed, and those and the pending deltas add up to the travel of the contacts as seen. */
  lemma {:induction false} MotionAccounted(rotate: int, es: seq<Event>)
    ensures XAccounted(rotate, es) && YAccounted(rotate, es) && MovesAreFlushes(rotate, es)
    decreases |es|
  {
    if es == [] {
      assert TotalSeen([[]]) == TotalSeen([[]][..0]) == 0;
    } else {
      var n := |es| - 1;
      MotionAccounted(rotate, es[..n]);
      XAccountedMore(rotate, es[..n], es[n]);
      YAccountedMore(rotate, es[..n], es[n]);
      MovesAreFlushesMore(rotate, es[..n], es[n]);
      assert es[..n] + [es[n]] == es;
    }
  }

  /** What a contact loses is the way from the lifted-finger value to its first other coordinate. */
  lemma LostTravel(contact: seq<int>)
    ensures LosesMotion(contact) <==> contact != [] && contact[0] == TOUCH_UP && Seen(contact) != []
    ensures Travel(contact) - Travel(Seen(contact))
         == if LosesMotion(contact) then Seen(contact)[0] - TOUCH_UP else 0
  {
    SeenEmptyIff(contact);
  }

  lemma {:induction false} SeenEmptyIff(contact: seq<int>)
    ensures Seen(contact) == [] <==> forall k :: 0 <= k < |contact| ==> contact[k] == TOUCH_UP
    decreases |contact|
  {
    if contact != [] && contact[0] == TOUCH_UP {
      SeenEmptyIff(contact[1..]);
      assert forall k :: 0 < k < |contact| ==> contact[k] == contact[1..][k - 1];
    }
  }

  /** What all contacts of an axis lose. */
  function Lost(cs: seq<seq<int>>): int
  {
    TotalTravel(cs) - TotalSeen(cs)
  }

  lemma LostLast(cs: seq<seq<int>>)
    requires cs != []
    ensures var n := |cs| - 1;
            Lost(cs) == Lost(cs[..n]) + (Travel(cs[n]) - Travel(Seen(cs[n])))
  {
  }

  lemma {:induction false} NoneLosesNothing(cs: seq<seq<int>>)
    requires NoneLoses(cs)
    ensures Lost(cs) == 0
    decreases |cs|
  {
    if cs != [] {
      NoneLosesNothing(cs[..|cs| - 1]);
      LostLast(cs);
      LostTravel(cs[|cs| - 1]);
    }
  }

  /** Flushed and pending motion, both rotated, add up to a rotated travel exactly when the deltas
      add up to it. */
  lemma Balance(rotate: int, fx: int, fy: int, dx: int, dy: int, a: int, b: int)
    ensures var moved, pending := Rotate(rotate, fx, fy), Rotate(rotate, dx, dy);
            (moved.0 + pending.0, moved.1 + pending.1) == Rotate(rotate, a, b) <==> fx + dx == a && fy + dy == b
  {
    RotateAdd(rotate, fx, fy, dx, dy);
    RotateInjective(rotate, fx + dx, fy + dy, a, b);
  }

  lemma AddsUpIff(rotate: int, moved: (int, int), flushed: (int, int), s: State, xs: seq<seq<int>>, ys: seq<seq<int>>)
    requires moved == Rotate(rotate, flushed.0, flushed.1)
    requires flushed.0 + s.deltaX == TotalSeen(xs) && flushed.1 + s.deltaY == TotalSeen(ys)
    ensures AddsUp(rotate, moved, s, xs, ys) <==> Lost(xs) == 0 && Lost(ys) == 0
  {
    Balance(rotate, flushed.0, flushed.1, s.deltaX, s.deltaY, TotalTravel(xs), TotalTravel(ys));
  }

  /** After every event sequence the equation holds exactly when neither axis lost anything. */
  lemma ConservedNow(rotate: int, es: seq<Event>)
    ensures Conserved(rotate, es) <==> LostNothing(es)
  {
    MotionAccounted(rotate, es);
    var (s, sent) := Run(Initial(rotate), es);
    AddsUpIff(rotate, TotalMoved(sent), AllFlushed(rotate, es), s, Contacts(es, X), Contacts(es, Y));
  }

  predicate LostNothing(es: seq<Event>)
  {
    Lost(Contacts(es, X)) == 0 && Lost(Contacts(es, Y)) == 0
  }

  /** One event more: contacts that lose keep losing, and the first loss shows at once. */
  lemma FirstLoss(cs: seq<seq<int>>, e: Event, axis: Axis)
    requires cs != []
    ensures NoneLoses(ExtendContacts(cs, e, axis)) ==> NoneLoses(cs)
    ensures NoneLoses(cs) && !NoneLoses(ExtendContacts(cs, e, axis)) ==> Lost(ExtendContacts(cs, e, axis)) != 0
  {
    var ds, n := ExtendContacts(cs, e, axis), |cs| - 1;
    assert forall k :: 0 <= k < n ==> ds[k] == cs[k];
    var c := Coordinate(e, axis);
    if c != [] {
      assert ds[n] == cs[n] + c;
      assert forall k :: 0 <= k < |cs[n]| ==> ds[n][k] == cs[n][k];
    } else {
      assert ds[n] == cs[n];
    }
    if NoneLoses(cs) && !NoneLoses(ds) {
      assert c != [] && LosesMotion(ds[n]);
      NoneLosesNothing(ds[..n]);
      LostLast(ds);
      LostTravel(ds[n]);
    }
  }

  /** No contact, on either axis, starts with the lifted-finger value and moves on. */
  predicate NoContactLoses(es: seq<Event>)
  {
    NoneLoses(Contacts(es, X)) && NoneLoses(Contacts(es, Y))
  }

  lemma LossShows(es: seq<Event>, e: Event)
    ensures NoContactLoses(es + [e]) ==> NoContactLoses(es) && LostNothing(es + [e])
    ensures NoContactLoses(es) && !NoContactLoses(es + [e]) ==> !LostNothing(es + [e])
  {
    ContactsMore(es, e, X);
    ContactsMore(es, e, Y);
    FirstLoss(Contacts(es, X), e, X);
    FirstLoss(Contacts(es, Y), e, Y);
    if NoContactLoses(es + [e]) {
      NoneLosesNothing(Contacts(es + [e], X));
      NoneLosesNothing(Contacts(es + [e], Y));
    }
  }

  /** The equation holds at the start and after each of the events. */
  ghost predicate ConservedThroughout(rotate: int, es: seq<Event>)
    decreases |es|
  {
    Conserved(rotate, es) && (es != [] ==> ConservedThroughout(rotate, es[..|es| - 1]))
  }

  /** Conservation: for every rotation and every event sequence, the equation holds after each of
      its events exactly when no contact, on either axis, starts with the value that marks a lifted
      finger and is given another coordinate later. */
  lemma {:induction false} MotionConservedIff(rotate: int, es: seq<Event>)
    ensures ConservedThroughout(rotate, es) <==> NoContactLoses(es)
    decreases |es|
  {
    ConservedNow(rotate, es);
    if es == [] {
      NoneLosesNothing([[]]);
    } else {
      var n := |es| - 1;
      MotionConservedIff(rotate, es[..n]);
      LossShows(es[..n], es[n]);
      assert es[..n] + [es[n]] == es;
    }
  }

  /** So without such a contact nothing is lost. */
  lemma MotionConserved(rotate: int, es: seq<Event>)
    requires NoContactLoses(es)
    ensures Conserved(rotate, es)
  {
    NoneLosesNothing(Contacts(es, X));
    NoneLosesNothing(Contacts(es, Y));
    ConservedNow(rotate, es);
  }

  /** Once the sequence ends in a synchronisation event nothing is pending any more: the moves
      sent are the travel of the contacts as seen, and that is their whole travel exactly when
      neither axis lost anything. */
  lemma SynFlushes(rotate: int, es: seq<Event>)
    ensures var sent := TotalMoved(Run(Initial(rotate), es + [Syn]).1);
            var xs, ys := Contacts(es, X), Contacts(es, Y);
            && sent == Rotate(rotate, TotalSeen(xs), TotalSeen(ys))
            && (sent == Rotate(rotate, TotalTravel(xs), TotalTravel(ys)) <==> LostNothing(es))
  {
    var s := Run(Initial(rotate), es).0;
    RunMore(Initial(rotate), es, Syn);
    ContactsMore(es, Syn, X);
    ContactsMore(es, Syn, Y);
    MotionAccounted(rotate, es + [Syn]);
    assert Step(s, Syn).0.deltaX == 0 && Step(s, Syn).0.deltaY == 0;
    var xs, ys := Contacts(es, X), Contacts(es, Y);
    RotateInjective(rotate, TotalSeen(xs), TotalSeen(ys), TotalTravel(xs), TotalTravel(ys));
  }

  /** The directions, written out: after a synchronisation event the moves sent add up to the
      travels as seen, turned a quarter, a half or three quarters, or as they are. */
  lemma DirectionsSent(rotate: int, es: seq<Event>)
    ensures var sent := TotalMoved(Run(Initial(rotate), es + [Syn]).1);
            var x, y := TotalSeen(Contacts(es, X)), TotalSeen(Contacts(es, Y));
            && (rotate == 90 ==> sent == (y, -x))
            && (rotate == 180 ==> sent == (-x, -y))
            && (rotate == 270 ==> sent == (-y, x))
            && (rotate != 90 && rotate != 180 && rotate != 270 ==> sent == (x, y))
  {
    SynFlushes(rotate, es);
  }

  /** What one event sends: a synchronisation event one move of the pending delta, turned, if it is
      not zero; a lift at most a click; any other event nothing. */
  lemma EventSends(s: State, e: Event)
    ensures e.Syn? ==>
      var x, y, sent := s.deltaX, s.deltaY, Step(s, e).1;
      && (x == 0 && y == 0 ==> sent == [])
      && (x != 0 || y != 0 ==>
            && (s.rotate == 90 ==> sent == [Move(y, -x)])
            && (s.rotate == 180 ==> sent == [Move(-x, -y)])
            && (s.rotate == 270 ==> sent == [Move(-y, x)])
            && (s.rotate != 90 && s.rotate != 180 && s.rotate != 270 ==> sent == [Move(x, y)]))
    ensures e.AbsX? || e.AbsY? || (e.BtnTouch? && e.value == 1) ==> Step(s, e).1 == []
  {
  }

  // ---------------------------------------------------------------------------------------
  // Clicks

  /** The time of the last touch in es, or 0. */
  function LastDown(es: seq<Event>): int
  {
    if es == [] then 0
    else
      var e := es[|es| - 1];
      if e.BtnTouch? && e.value == 1 then e.time else LastDown(es[..|es| - 1])
  }

  lemma {:induction false} LastDownKept(rotate: int, es: seq<Event>)
    ensures Run(Initial(rotate), es).0.downTime == LastDown(es)
    decreases |es|
  {
    if es != [] { LastDownKept(rotate, es[..|es| - 1]); }
  }

  /** The click of a contact with these coordinates, held for so many microseconds: there is one if
      both axes have been seen and the finger ends less than ten units from where it was first seen,
      and it is of the right button from 750 milliseconds on. */
  function ClickOf(x: seq<int>, y: seq<int>, held: int): seq<Action>
  {
    var dx, dy := Travel(Seen(x)), Travel(Seen(y));
    if Seen(x) != [] && Seen(y) != [] && dx * dx + dy * dy < 100
    then [Click(if held >= 750000 then Right else Left)]
    else []
  }

  /** A lifted finger clicks as its contact says. */
  lemma LiftClicks(rotate: int, es: seq<Event>, value: int, time: int)
    requires value != 1
    ensures var xs, ys := Contacts(es, X), Contacts(es, Y);
            Step(Run(Initial(rotate), es).0, BtnTouch(value, time)).1
            == ClickOf(xs[|xs| - 1], ys[|ys| - 1], time - LastDown(es))
  {
    MotionAccounted(rotate, es);
    LastDownKept(rotate, es);
    var s := Run(Initial(rotate), es).0;
    var xs, ys := Contacts(es, X), Contacts(es, Y);
    LiftIs(s, xs[|xs| - 1], ys[|ys| - 1], time);
    LiftSends(s, value, time);
  }

  lemma LiftIs(s: State, x: seq<int>, y: seq<int>, time: int)
    requires Anchored(x, s.downX, s.x) && Anchored(y, s.downY, s.y)
    ensures Lift(s, time) == ClickOf(x, y, time - s.downTime)
  {
  }

  lemma LiftSends(s: State, value: int, time: int)
    requires value != 1
    ensures Step(s, BtnTouch(value, time)).1 == Lift(s, time)
  {
  }

  /** A contact that starts with the lifted-finger value and moves on: its motion is not sent. */
  lemma SentinelCoordinateLosesMotion()
    ensures var es := [AbsX(-1), AbsX(5)];
            && LosesMotion(Contacts(es, X)[0]) && !Conserved(0, es)
            && TotalTravel(Contacts(es, X)) == 6
            && Run(Initial(0), es) == (Initial(0).(downX := 5, x := 5), [])
  {
    var first, es := [AbsX(-1)], [AbsX(-1), AbsX(5)];
    assert es[0] == AbsX(-1) && es[..1] == first && first[..0] == [];
    assert Run(Initial(0), []) == (Initial(0), []) && Contacts([], X) == [[]];
    var (s, sent) := Run(Initial(0), first);
    assert s == Step(Initial(0), AbsX(-1)).0 == Initial(0).(x := -1) && sent == [];
    var (t, sent') := Run(Initial(0), es);
    assert t == Step(s, AbsX(5)).0 && sent' == [];
    assert Contacts(first, X) == [[] + [-1]];
    var c := Contacts(es, X);
    assert es[..|es| - 1] == first;
    assert Contacts(first, X)[0] == [-1];
    assert c == ExtendContacts(Contacts(first, X), AbsX(5), X);
    assert |c| == 1 && c[0] == [-1] + [5] && c[0][1] == 5;
    assert TotalTravel(c[..0]) == 0;
  }

  /** The same value inside a contact is a coordinate like any other. */
  lemma SentinelInsideContact(rotate: int)
    ensures Conserved(rotate, [AbsX(5), AbsX(-1), AbsX(7)])
  {
    var one, two, es := [AbsX(5)], [AbsX(5), AbsX(-1)], [AbsX(5), AbsX(-1), AbsX(7)];
    assert es[..2] == two && two[..1] == one && one[..0] == [];
    assert Contacts(one, X) == [[] + [5]];
    assert Contacts(one, X)[0] == [5];
    assert Contacts(two, X) == ExtendContacts(Contacts(one, X), AbsX(-1), X);
    assert Contacts(two, X)[0] == [5, -1];
    assert Contacts(es, X) == ExtendContacts(Contacts(two, X), AbsX(7), X);
    assert Contacts(es, X)[0] == [5, -1, 7];
    assert Contacts(one, Y) == [[]] && Contacts(two, Y) == [[]] && Contacts(es, Y) == [[]];
    MotionConserved(rotate, es);
  }
}
