/** Numbering of a device's buttons and axes, and calibration of each mapped axis
    (src/input/evdev.c).

    A mapping names axes by number, the kernel by code; `abs_map` takes codes to numbers when
    events arrive, and `evdev_get_map` takes numbers back to codes when limits are read. */
module Calibration {
  import opened AxisConversion
  import opened CTypes

  // Codes of the Linux input event interface.
  const BTN_JOYSTICK := 0x120
  const KEY_MAX := 0x2ff
  const KEY_CNT := 0x300
  const ABS_MAX := 0x3f
  const ABS_CNT := 0x40
  const ABS_HAT0X := 0x10
  const ABS_HAT3Y := 0x17

  /** memset fills every byte with 0xFE, so an unused entry holds 0xFEFEFEFE. */
  const UNUSED := -16843010

  /** How many codes in [lo, hi) the device has. */
  function Count(has: set<int>, lo: int, hi: int): (n: nat)
    ensures lo <= hi ==> n <= hi - lo
    decreases hi - lo
  {
    if hi <= lo then 0 else Count(has, lo, hi - 1) + if hi - 1 in has then 1 else 0
  }

  // ---------------------------------------------------------------------------------------
  // Specification of the two numberings

  /** The code is one the button loops visit. */
  predicate IsButton(has: set<int>, c: int) { c in has && 0 <= c < KEY_MAX }

  /** Joystick buttons are numbered first, the other keys after all of them. */
  function ButtonNumber(has: set<int>, c: int): int
  {
    if !IsButton(has, c) then UNUSED
    else if c >= BTN_JOYSTICK then Count(has, BTN_JOYSTICK, c)
    else Count(has, BTN_JOYSTICK, KEY_MAX) + Count(has, 0, c)
  }

  predicate IsHat(c: int) { ABS_HAT0X <= c <= ABS_HAT3Y }

  /** The code is one the axis loop visits: hats are skipped. */
  predicate IsAxis(has: set<int>, c: int) { c in has && 0 <= c < ABS_MAX && !IsHat(c) }

  function AxisNumber(has: set<int>, c: int): int
  {
    if !IsAxis(has, c) then UNUSED
    else if c < ABS_HAT0X then Count(has, 0, c)
    else Count(has, 0, ABS_HAT0X) + Count(has, ABS_HAT3Y + 1, c)
  }

  ghost predicate ButtonNumberUsed(has: set<int>, k: int) { exists c :: IsButton(has, c) && ButtonNumber(has, c) == k }

  ghost predicate AxisNumberUsed(has: set<int>, k: int) { exists c :: IsAxis(has, c) && AxisNumber(has, c) == k }

  function ButtonCount(has: set<int>): nat
  {
    Count(has, BTN_JOYSTICK, KEY_MAX) + Count(has, 0, BTN_JOYSTICK)
  }

  function AxisCount(has: set<int>): nat
  {
    Count(has, 0, ABS_HAT0X) + Count(has, ABS_HAT3Y + 1, ABS_MAX)
  }

  // ---------------------------------------------------------------------------------------
  // The loops

  method NumberButtons(has: set<int>, keyMap: array<int>) returns (nbuttons: nat)
    requires keyMap.Length == KEY_CNT
    modifies keyMap
    ensures forall c :: 0 <= c < KEY_CNT ==> keyMap[c] == ButtonNumber(has, c)
    ensures nbuttons == ButtonCount(has)
  {
    forall k | 0 <= k < keyMap.Length { keyMap[k] := UNUSED; }
    nbuttons := 0;
    var i := BTN_JOYSTICK;
    while i < KEY_MAX
      invariant BTN_JOYSTICK <= i <= KEY_MAX
      invariant nbuttons == Count(has, BTN_JOYSTICK, i)
      invariant forall c :: BTN_JOYSTICK <= c < i ==> keyMap[c] == ButtonNumber(has, c)
      invariant forall c :: 0 <= c < KEY_CNT && !(BTN_JOYSTICK <= c < i) ==> keyMap[c] == UNUSED
    {
      if i in has {
        keyMap[i] := nbuttons;
        nbuttons := nbuttons + 1;
      }
      i := i + 1;
    }
    i := 0;
    while i < BTN_JOYSTICK
      invariant 0 <= i <= BTN_JOYSTICK
      invariant nbuttons == Count(has, BTN_JOYSTICK, KEY_MAX) + Count(has, 0, i)
      invariant forall c :: 0 <= c < KEY_CNT && (c < i || BTN_JOYSTICK <= c < KEY_MAX) ==>
        keyMap[c] == ButtonNumber(has, c)
      invariant forall c :: i <= c < BTN_JOYSTICK || KEY_MAX <= c < KEY_CNT ==> keyMap[c] == UNUSED
    {
      if i in has {
        keyMap[i] := nbuttons;
        nbuttons := nbuttons + 1;
      }
      i := i + 1;
    }
  }

  method NumberAxes(has: set<int>, absMap: array<int>) returns (naxes: nat)
    requires absMap.Length == ABS_CNT
    modifies absMap
    ensures forall c :: 0 <= c < ABS_CNT ==> absMap[c] == AxisNumber(has, c)
    ensures naxes == AxisCount(has)
  {
    forall k | 0 <= k < absMap.Length { absMap[k] := UNUSED; }
    naxes := 0;
    var i := 0;
    while i < ABS_MAX
      invariant 0 <= i <= ABS_MAX && !(ABS_HAT0X < i <= ABS_HAT3Y)
      invariant naxes == if i <= ABS_HAT0X then Count(has, 0, i)
                         else Count(has, 0, ABS_HAT0X) + Count(has, ABS_HAT3Y + 1, i)
      invariant forall c :: 0 <= c < i ==> absMap[c] == AxisNumber(has, c)
      invariant forall c :: i <= c < ABS_CNT ==> absMap[c] == UNUSED
    {
      // hat axes have no number
      if i == ABS_HAT0X {
        i := ABS_HAT3Y;
      } else if i in has {
        absMap[i] := naxes;
        naxes := naxes + 1;
      }
      i := i + 1;
    }
  }

  /** evdev_get_map */
  method GetMap(table: seq<int>, length: nat, value: int) returns (index: int)
    requires length <= |table|
    ensures -1 <= index < length
    ensures index == -1 ==> forall k :: 0 <= k < length ==> table[k] != value
    ensures index != -1 ==> table[index] == value && forall k :: 0 <= k < index ==> table[k] != value
  {
    var i := 0;
    while i < length
      invariant 0 <= i <= length
      invariant forall k :: 0 <= k < i ==> table[k] != value
    {
      if value == table[i] {
        return i;
      }
      i := i + 1;
    }
    return -1;
  }

  // ---------------------------------------------------------------------------------------
  // Both numberings are bijections onto an initial segment

  lemma {:induction false} CountMonotone(has: set<int>, lo: int, c: int, d: int)
    requires lo <= c <= d
    ensures Count(has, lo, c) <= Count(has, lo, d)
    ensures c < d && c in has ==> Count(has, lo, c) < Count(has, lo, d)
    decreases d - c
  {
    if c < d {
      CountMonotone(has, lo, c, d - 1);
      if c < d - 1 && c in has {
      } else if c == d - 1 {
      }
    }
  }

  /** Every rank below the total is the rank of some code the device has. */
  lemma {:induction false} RankTaken(has: set<int>, lo: int, hi: int, k: nat) returns (c: int)
    requires k < Count(has, lo, hi)
    ensures lo <= c < hi && c in has && Count(has, lo, c) == k
    decreases hi - lo
  {
    if k < Count(has, lo, hi - 1) {
      c := RankTaken(has, lo, hi - 1, k);
    } else {
      c := hi - 1;
    }
  }

  lemma ButtonNumberInRange(has: set<int>, c: int)
    requires IsButton(has, c)
    ensures 0 <= ButtonNumber(has, c) < ButtonCount(has)
    ensures c >= BTN_JOYSTICK <==> ButtonNumber(has, c) < Count(has, BTN_JOYSTICK, KEY_MAX)
  {
    if c >= BTN_JOYSTICK {
      CountMonotone(has, BTN_JOYSTICK, c, KEY_MAX);
    } else {
      CountMonotone(has, 0, c, BTN_JOYSTICK);
    }
  }

  /** Distinct buttons get distinct numbers, the numbers are exactly 0..ButtonCount-1, and no
      entry, used or not, equals the -1 a mapping holds for an unmapped button. */
  lemma ButtonNumberingBijective(has: set<int>)
    ensures forall c, d :: IsButton(has, c) && IsButton(has, d) && c != d ==>
      ButtonNumber(has, c) != ButtonNumber(has, d)
    ensures forall k :: 0 <= k < ButtonCount(has) ==> ButtonNumberUsed(has, k)
    ensures forall c :: IsButton(has, c) ==> 0 <= ButtonNumber(has, c) < ButtonCount(has)
    ensures forall c :: ButtonNumber(has, c) != -1
  {
    forall c | IsButton(has, c) ensures 0 <= ButtonNumber(has, c) < ButtonCount(has) {
      ButtonNumberInRange(has, c);
    }
    forall c, d | IsButton(has, c) && IsButton(has, d) && c < d
      ensures ButtonNumber(has, c) != ButtonNumber(has, d)
    {
      ButtonNumberInRange(has, c);
      ButtonNumberInRange(has, d);
      if c >= BTN_JOYSTICK {
        CountMonotone(has, BTN_JOYSTICK, c, d);
      } else if d < BTN_JOYSTICK {
        CountMonotone(has, 0, c, d);
      }
    }
    forall k | 0 <= k < ButtonCount(has) ensures ButtonNumberUsed(has, k) {
      var joystick := Count(has, BTN_JOYSTICK, KEY_MAX);
      var c: int;
      if k < joystick {
        c := RankTaken(has, BTN_JOYSTICK, KEY_MAX, k);
      } else {
        c := RankTaken(has, 0, BTN_JOYSTICK, k - joystick);
      }
      assert IsButton(has, c) && ButtonNumber(has, c) == k;
    }
  }

  lemma AxisNumberInRange(has: set<int>, c: int)
    requires IsAxis(has, c)
    ensures 0 <= AxisNumber(has, c) < AxisCount(has)
    ensures c < ABS_HAT0X <==> AxisNumber(has, c) < Count(has, 0, ABS_HAT0X)
  {
    if c < ABS_HAT0X {
      CountMonotone(has, 0, c, ABS_HAT0X);
    } else {
      CountMonotone(has, ABS_HAT3Y + 1, c, ABS_MAX);
    }
  }

  lemma AxisNumberInjective(has: set<int>, c: int, d: int)
    requires IsAxis(has, c) && IsAxis(has, d) && c != d
    ensures AxisNumber(has, c) != AxisNumber(has, d)
  {
    AxisNumberInRange(has, c);
    AxisNumberInRange(has, d);
    var lo, hi := if c < d then c else d, if c < d then d else c;
    if hi < ABS_HAT0X {
      CountMonotone(has, 0, lo, hi);
    } else if lo > ABS_HAT3Y {
      CountMonotone(has, ABS_HAT3Y + 1, lo, hi);
    }
  }

  lemma AxisNumberingBijective(has: set<int>)
    ensures forall c, d :: IsAxis(has, c) && IsAxis(has, d) && c != d ==> AxisNumber(has, c) != AxisNumber(has, d)
    ensures forall k :: 0 <= k < AxisCount(has) ==> AxisNumberUsed(has, k)
    ensures forall c :: IsAxis(has, c) ==> 0 <= AxisNumber(has, c) < AxisCount(has)
    ensures forall c :: AxisNumber(has, c) != -1
  {
    forall c | IsAxis(has, c) ensures 0 <= AxisNumber(has, c) < AxisCount(has) {
      AxisNumberInRange(has, c);
    }
    forall c, d | IsAxis(has, c) && IsAxis(has, d) && c != d
      ensures AxisNumber(has, c) != AxisNumber(has, d)
    {
      AxisNumberInjective(has, c, d);
    }
    forall k | 0 <= k < AxisCount(has) ensures AxisNumberUsed(has, k) {
      var low := Count(has, 0, ABS_HAT0X);
      var c: int;
      if k < low {
        c := RankTaken(has, 0, ABS_HAT0X, k);
      } else {
        c := RankTaken(has, ABS_HAT3Y + 1, ABS_MAX, k - low);
      }
      assert IsAxis(has, c) && AxisNumber(has, c) == k;
    }
  }

  // ---------------------------------------------------------------------------------------
  // Mapped axes

  datatype Limits = Limits(min: int, max: int, flat: int)

  /** What a mapping can tie to an axis number. */
  datatype Role =
    | LeftX | LeftY | RightX | RightY
    | LeftTrigger | RightTrigger
    | DpLeft | DpRight | DpUp | DpDown

  /** The axis part of struct mapping; -1 is "not mapped". */
  datatype AxisMapping = AxisMapping(
    absLeftX: int16, absLeftY: int16, absRightX: int16, absRightY: int16,
    absLeftTrigger: int16, absRightTrigger: int16,
    absDpLeft: int16, absDpRight: int16, absDpUp: int16, absDpDown: int16,
    reverseLeftX: bool, reverseLeftY: bool, reverseRightX: bool, reverseRightY: bool,
    halfLeftTrigger: char, halfRightTrigger: char,
    halfDpLeft: char, halfDpRight: char, halfDpUp: char, halfDpDown: char)
  {
    function Code(r: Role): int
    {
      match r
      case LeftX => absLeftX as int
      case LeftY => absLeftY as int
      case RightX => absRightX as int
      case RightY => absRightY as int
      case LeftTrigger => absLeftTrigger as int
      case RightTrigger => absRightTrigger as int
      case DpLeft => absDpLeft as int
      case DpRight => absDpRight as int
      case DpUp => absDpUp as int
      case DpDown => absDpDown as int
    }

    predicate MapsStick(n: int)
    {
      n == absLeftX as int || n == absLeftY as int || n == absRightX as int || n == absRightY as int
    }

    predicate MapsTrigger(n: int) { n == absLeftTrigger as int || n == absRightTrigger as int }

    predicate MapsDpad(n: int)
    {
      n == absDpLeft as int || n == absDpRight as int || n == absDpUp as int || n == absDpDown as int
    }

    lemma MapsSome(n: int)
      ensures MapsStick(n) || MapsTrigger(n) || MapsDpad(n) <==> exists r: Role :: Code(r) == n
    {
      assert MapsStick(n) ==> Code(LeftX) == n || Code(LeftY) == n || Code(RightX) == n || Code(RightY) == n;
      assert MapsTrigger(n) ==> Code(LeftTrigger) == n || Code(RightTrigger) == n;
      assert MapsDpad(n) ==> Code(DpLeft) == n || Code(DpRight) == n || Code(DpUp) == n || Code(DpDown) == n;
    }

    /** Both vertical sticks are read upside down: the kernel counts downward. */
    function Reversed(r: Role): bool
    {
      match r
      case LeftX => reverseLeftX
      case LeftY => !reverseLeftY
      case RightX => reverseRightX
      case RightY => !reverseRightY
      case _ => false
    }

    function Half(r: Role): char
    {
      match r
      case LeftTrigger => halfLeftTrigger
      case RightTrigger => halfRightTrigger
      case DpLeft => halfDpLeft
      case DpRight => halfDpRight
      case DpUp => halfDpUp
      case DpDown => halfDpDown
      case _ => '\0'
    }
  }

  /** The controller state axis events write: sticks, triggers and d-pad flags. */
  datatype Readings = Readings(
    leftStickX: int16, leftStickY: int16, rightStickX: int16, rightStickY: int16,
    leftTrigger: uint8, rightTrigger: uint8,
    left: bool, right: bool, up: bool, down: bool)
  {
    /** The value a role writes, on one scale for all roles. */
    function Of(r: Role): int
    {
      match r
      case LeftX => leftStickX as int
      case LeftY => leftStickY as int
      case RightX => rightStickX as int
      case RightY => rightStickY as int
      case LeftTrigger => leftTrigger as int
      case RightTrigger => rightTrigger as int
      case DpLeft => if left then 1 else 0
      case DpRight => if right then 1 else 0
      case DpUp => if up then 1 else 0
      case DpDown => if down then 1 else 0
    }
  }

  /** What a reading `v` of an axis with the given limits means for a role. */
  function Converted(m: AxisMapping, r: Role, lim: Limits, v: int): int
  {
    var p := ParmsFor(lim);
    match r
    case LeftX | LeftY | RightX | RightY => ConvertValue(v, p, m.Reversed(r)) as int
    case LeftTrigger | RightTrigger => ConvertValueByte(v, p, m.Half(r)) as int
    case DpLeft | DpRight | DpUp | DpDown => if DpadPressed(v, p, m.Half(r)) then 1 else 0
  }

  /** The sticks are tried in order and the first that matches takes the event; triggers and
      d-pad directions each match on their own. */
  predicate Takes(m: AxisMapping, r: Role, index: int)
  {
    && index == m.Code(r)
    && (r.LeftY? || r.RightX? || r.RightY? ==> index != m.Code(LeftX))
    && (r.RightX? || r.RightY? ==> index != m.Code(LeftY))
    && (r.RightY? ==> index != m.Code(RightX))
  }

  predicate IsStick(r: Role) { r.LeftX? || r.LeftY? || r.RightX? || r.RightY? }

  predicate IsTrigger(r: Role) { r.LeftTrigger? || r.RightTrigger? }

  predicate IsDpad(r: Role) { r.DpLeft? || r.DpRight? || r.DpUp? || r.DpDown? }

  const ZERO := AbsParms(0, 0, 0, 0, 0, 0)

  /** The stick part of an axis event: the first match takes it. */
  function StickEvent(m: AxisMapping, before: Readings, index: int, stick: Role -> int16): Readings
  {
    if index == m.Code(LeftX) then before.(leftStickX := stick(LeftX))
    else if index == m.Code(LeftY) then before.(leftStickY := stick(LeftY))
    else if index == m.Code(RightX) then before.(rightStickX := stick(RightX))
    else if index == m.Code(RightY) then before.(rightStickY := stick(RightY))
    else before
  }

  function TriggerEvent(m: AxisMapping, before: Readings, index: int, trigger: Role -> uint8): Readings
  {
    before.(
      leftTrigger := if index == m.Code(LeftTrigger) then trigger(LeftTrigger) else before.leftTrigger,
      rightTrigger := if index == m.Code(RightTrigger) then trigger(RightTrigger) else before.rightTrigger)
  }

  function DpadSidesEvent(m: AxisMapping, before: Readings, index: int, pressed: Role -> bool): Readings
  {
    before.(
      left := if index == m.Code(DpLeft) then pressed(DpLeft) else before.left,
      right := if index == m.Code(DpRight) then pressed(DpRight) else before.right)
  }

  function DpadVerticalEvent(m: AxisMapping, before: Readings, index: int, pressed: Role -> bool): Readings
  {
    before.(
      up := if index == m.Code(DpUp) then pressed(DpUp) else before.up,
      down := if index == m.Code(DpDown) then pressed(DpDown) else before.down)
  }

  function DpadEvent(m: AxisMapping, before: Readings, index: int, pressed: Role -> bool): Readings
  {
    DpadVerticalEvent(m, DpadSidesEvent(m, before, index, pressed), index, pressed)
  }

  function StickReading(m: AxisMapping, lim: Limits, v: int): Role -> int16
  {
    (r: Role) => ConvertValue(v, ParmsFor(lim), m.Reversed(r))
  }

  function TriggerReading(m: AxisMapping, lim: Limits, v: int): Role -> uint8
  {
    (r: Role) => ConvertValueByte(v, ParmsFor(lim), m.Half(r))
  }

  function DpadReading(m: AxisMapping, lim: Limits, v: int): Role -> bool
  {
    (r: Role) => DpadPressed(v, ParmsFor(lim), m.Half(r))
  }

  function ParmsFor(lim: Limits): AbsParms { MakeParms(lim.min, lim.max, lim.flat) }

  /** The readings after an event of axis `code`, whose limits are `lim`. */
  function AxisEvent(has: set<int>, m: AxisMapping, before: Readings, code: int, lim: Limits, v: int): Readings
  {
    var index := AxisNumber(has, code);
    var sticks := StickEvent(m, before, index, StickReading(m, lim, v));
    var triggers := TriggerEvent(m, sticks, index, TriggerReading(m, lim, v));
    DpadEvent(m, triggers, index, DpadReading(m, lim, v))
  }

  lemma StickEventReads(m: AxisMapping, before: Readings, index: int, stick: Role -> int16, r: Role)
    ensures StickEvent(m, before, index, stick).Of(r) ==
            if IsStick(r) && Takes(m, r, index) then stick(r) as int else before.Of(r)
  {
  }

  lemma TriggerEventReads(m: AxisMapping, before: Readings, index: int, trigger: Role -> uint8, r: Role)
    ensures TriggerEvent(m, before, index, trigger).Of(r) ==
            if IsTrigger(r) && Takes(m, r, index) then trigger(r) as int else before.Of(r)
  {
  }

  lemma DpadEventReads(m: AxisMapping, before: Readings, index: int, pressed: Role -> bool, r: Role)
    ensures DpadEvent(m, before, index, pressed).Of(r) ==
            if IsDpad(r) && Takes(m, r, index) then (if pressed(r) then 1 else 0) else before.Of(r)
  {
  }

  /** A role changes exactly when its axis number is that of the event's axis (and no earlier
      stick took it), and then to the reading scaled by that axis' limits. */
  lemma AxisEventReads(has: set<int>, m: AxisMapping, before: Readings, code: int, lim: Limits, v: int, r: Role)
    ensures AxisEvent(has, m, before, code, lim, v).Of(r) ==
            if IsAxis(has, code) && Takes(m, r, AxisNumber(has, code)) then Converted(m, r, lim, v)
            else before.Of(r)
  {
    var index := AxisNumber(has, code);
    var stick, trigger, pressed := StickReading(m, lim, v), TriggerReading(m, lim, v), DpadReading(m, lim, v);
    var sticks := StickEvent(m, before, index, stick);
    var triggers := TriggerEvent(m, sticks, index, trigger);
    StickEventReads(m, before, index, stick, r);
    TriggerEventReads(m, sticks, index, trigger, r);
    DpadEventReads(m, triggers, index, pressed, r);
    assert m.Code(r) != UNUSED;
  }

  ghost predicate Numbered(has: set<int>, absMap: seq<int>)
  {
    && |absMap| == ABS_CNT
    && forall c :: 0 <= c < ABS_CNT ==> absMap[c] == AxisNumber(has, c)
  }

  /** The parameters are those of the axis the device numbers `code`, if there is one. */
  ghost predicate Matches(has: set<int>, limits: int -> Limits, p: AbsParms, code: int)
  {
    forall c :: IsAxis(has, c) && AxisNumber(has, c) == code ==> p == ParmsFor(limits(c))
  }

  /** evdev_init_parms on parameters the caller has zeroed: they stay zero when no axis has that
      number.  When all three limits are zero the source stops before the derived fields. */
  method InitParms(has: set<int>, limits: int -> Limits, absMap: seq<int>, code: int) returns (r: AbsParms)
    requires Numbered(has, absMap)
    requires -32768 <= code < 32768
    ensures Matches(has, limits, r, code)
    ensures !AxisNumberUsed(has, code) ==> r == ZERO
  {
    r := ZERO;
    var abs := GetMap(absMap, ABS_MAX, code);
    forall c | IsAxis(has, c) && AxisNumber(has, c) == code ensures abs == c {
      assert absMap[c] == code;
      if abs != c {
        AxisNumberInjective(has, c, abs);
      }
    }
    if abs >= 0 {
      var lim := limits(abs);
      r := r.(flat := lim.flat, min := lim.min, max := lim.max);
      if r.flat == 0 && r.min == 0 && r.max == 0 {
        return;
      }
      r := r.(avg := TruncDiv(r.min + r.max, 2));
      r := r.(range := r.max - r.avg, diff := r.max - r.min);
    }
  }

  /** The same without saying what is left when no axis has that number. */
  method MatchingParms(has: set<int>, limits: int -> Limits, absMap: seq<int>, code: int) returns (r: AbsParms)
    requires Numbered(has, absMap)
    requires -32768 <= code < 32768
    ensures Matches(has, limits, r, code)
  {
    r := InitParms(has, limits, absMap, code);
  }

  class Device {
    const has: set<int>            // axis codes the kernel says the device has
    const limits: int -> Limits    // their limits
    const map_: AxisMapping
    const absMap: seq<int>         // written once, when the device is created

    const xParms: AbsParms
    const yParms: AbsParms
    const zParms: AbsParms
    const rxParms: AbsParms
    const ryParms: AbsParms
    const rzParms: AbsParms
    const leftParms: AbsParms
    const rightParms: AbsParms
    const upParms: AbsParms
    const downParms: AbsParms
    var readings: Readings

    ghost function ParmsOf(r: Role): AbsParms
    {
      match r
      case LeftX => xParms
      case LeftY => yParms
      case RightX => rxParms
      case RightY => ryParms
      case LeftTrigger => zParms
      case RightTrigger => rzParms
      case DpLeft => leftParms
      case DpRight => rightParms
      case DpUp => upParms
      case DpDown => downParms
    }

    /** Every role mapped to an axis the device has carries that axis' own calibration. */
    ghost predicate Calibrated()
    {
      && Numbered(has, absMap)
      && Matches(has, limits, xParms, map_.absLeftX as int)
      && Matches(has, limits, yParms, map_.absLeftY as int)
      && Matches(has, limits, zParms, map_.absLeftTrigger as int)
      && Matches(has, limits, rxParms, map_.absRightX as int)
      && Matches(has, limits, ryParms, map_.absRightY as int)
      && Matches(has, limits, rzParms, map_.absRightTrigger as int)
      && Matches(has, limits, leftParms, map_.absDpLeft as int)
      && Matches(has, limits, rightParms, map_.absDpRight as int)
      && Matches(has, limits, upParms, map_.absDpUp as int)
      && Matches(has, limits, downParms, map_.absDpDown as int)
    }

    /** The axis part of evdev_create. */
    constructor (has: set<int>, limits: int -> Limits, map_: AxisMapping)
      ensures Calibrated()
      ensures this.has == has && this.limits == limits && this.map_ == map_
    {
      var numbers := new int[ABS_CNT];
      var naxes := NumberAxes(has, numbers);
      var table := numbers[..];
      this.has, this.limits, this.map_, absMap := has, limits, map_, table;
      readings := Readings(0, 0, 0, 0, 0, 0, false, false, false, false);
      var x := MatchingParms(has, limits, table, map_.absLeftX as int);
      var y := MatchingParms(has, limits, table, map_.absLeftY as int);
      var z := MatchingParms(has, limits, table, map_.absLeftTrigger as int);
      var rx := MatchingParms(has, limits, table, map_.absRightX as int);
      var ry := MatchingParms(has, limits, table, map_.absRightY as int);
      var rz := MatchingParms(has, limits, table, map_.absRightTrigger as int);
      var left := MatchingParms(has, limits, table, map_.absDpLeft as int);
      var right := MatchingParms(has, limits, table, map_.absDpRight as int);
      var up := MatchingParms(has, limits, table, map_.absDpUp as int);
      var down := MatchingParms(has, limits, table, map_.absDpDown as int);
      xParms, yParms, zParms, rxParms, ryParms, rzParms := x, y, z, rx, ry, rz;
      leftParms, rightParms, upParms, downParms := left, right, up, down;
    }

    /** The EV_ABS case of evdev_handle_event for a mapped device and a code that is no hat. */
    method HandleAxis(code: int, value: int) returns (gamepadModified: bool)
      requires Calibrated()
      requires 0 <= code < ABS_CNT && !IsHat(code)
      modifies this`readings
      ensures readings == AxisEvent(has, map_, old(readings), code, limits(code), value)
      ensures gamepadModified <==> exists r: Role :: map_.Code(r) == AxisNumber(has, code)
    {
      var index := absMap[code];
      var stick := HandleSticks(index, code, value);
      var trigger := HandleTriggers(index, code, value);
      var sides := HandleDpadSides(index, code, value);
      var vertical := HandleDpadVertical(index, code, value);
      gamepadModified := stick || trigger || sides || vertical;
      map_.MapsSome(index);
    }

    method HandleSticks(index: int, code: int, value: int) returns (modified: bool)
      requires Calibrated() && 0 <= code < ABS_CNT && !IsHat(code) && index == absMap[code]
      modifies this`readings
      ensures readings == StickEvent(map_, old(readings), index, StickReading(map_, limits(code), value))
      ensures modified <==> map_.MapsStick(index)
    {
      modified := true;
      if index == map_.absLeftX as int {
        CalibratedAt(LeftX, code);
        readings := readings.(leftStickX := ConvertValue(value, xParms, map_.reverseLeftX));
      } else if index == map_.absLeftY as int {
        CalibratedAt(LeftY, code);
        readings := readings.(leftStickY := ConvertValue(value, yParms, !map_.reverseLeftY));
      } else if index == map_.absRightX as int {
        CalibratedAt(RightX, code);
        readings := readings.(rightStickX := ConvertValue(value, rxParms, map_.reverseRightX));
      } else if index == map_.absRightY as int {
        CalibratedAt(RightY, code);
        readings := readings.(rightStickY := ConvertValue(value, ryParms, !map_.reverseRightY));
      } else {
        modified := false;
      }
    }

    method HandleTriggers(index: int, code: int, value: int) returns (modified: bool)
      requires Calibrated() && 0 <= code < ABS_CNT && !IsHat(code) && index == absMap[code]
      modifies this`readings
      ensures readings == TriggerEvent(map_, old(readings), index, TriggerReading(map_, limits(code), value))
      ensures modified <==> map_.MapsTrigger(index)
    {
      modified := false;
      if index == map_.absLeftTrigger as int {
        CalibratedAt(LeftTrigger, code);
        readings := readings.(leftTrigger := ConvertValueByte(value, zParms, map_.halfLeftTrigger));
        modified := true;
      }
      if index == map_.absRightTrigger as int {
        CalibratedAt(RightTrigger, code);
        readings := readings.(rightTrigger := ConvertValueByte(value, rzParms, map_.halfRightTrigger));
        modified := true;
      }
    }

    method HandleDpadSides(index: int, code: int, value: int) returns (modified: bool)
      requires Calibrated() && 0 <= code < ABS_CNT && !IsHat(code) && index == absMap[code]
      modifies this`readings
      ensures readings == DpadSidesEvent(map_, old(readings), index, DpadReading(map_, limits(code), value))
      ensures modified <==> index == map_.Code(DpLeft) || index == map_.Code(DpRight)
    {
      modified := false;
      if index == map_.absDpRight as int {
        CalibratedAt(DpRight, code);
        readings := readings.(right := DpadPressed(value, rightParms, map_.halfDpRight));
        modified := true;
      }
      if index == map_.absDpLeft as int {
        CalibratedAt(DpLeft, code);
        readings := readings.(left := DpadPressed(value, leftParms, map_.halfDpLeft));
        modified := true;
      }
    }

    method HandleDpadVertical(index: int, code: int, value: int) returns (modified: bool)
      requires Calibrated() && 0 <= code < ABS_CNT && !IsHat(code) && index == absMap[code]
      modifies this`readings
      ensures readings == DpadVerticalEvent(map_, old(readings), index, DpadReading(map_, limits(code), value))
      ensures modified <==> index == map_.Code(DpUp) || index == map_.Code(DpDown)
    {
      modified := false;
      if index == map_.absDpUp as int {
        CalibratedAt(DpUp, code);
        readings := readings.(up := DpadPressed(value, upParms, map_.halfDpUp));
        modified := true;
      }
      if index == map_.absDpDown as int {
        CalibratedAt(DpDown, code);
        readings := readings.(down := DpadPressed(value, downParms, map_.halfDpDown));
        modified := true;
      }
    }

    /** A role whose number is the event axis' entry is calibrated for that very axis. */
    lemma CalibratedAt(r: Role, code: int)
      requires Calibrated() && 0 <= code < ABS_CNT && map_.Code(r) == absMap[code]
      ensures IsAxis(has, code) && ParmsOf(r) == ParmsFor(limits(code))
    {
    }
  }
}
