/** Which number an axis or button has, and what an axis event writes where, written out
    (src/input/evdev.c). */
module AxisRoles {

  import opened AxisConversion
  import opened Calibration
  import opened CTypes

  // ---------------------------------------------------------------------------------------
  // The order of the numbers

  /** The joystick's buttons, from 0x120 on, come before all others, and each group is in the order of
      its codes; what the device does not have, and codes from 0x2ff on, have no number. */
  lemma ButtonOrder(has: set<int>, c: int, d: int)
    ensures c !in has || c < 0 || c >= 0x2ff ==> ButtonNumber(has, c) == -16843010
    ensures c in has && d in has && 0 <= c < 0x2ff && 0 <= d < 0x2ff ==>
      (ButtonNumber(has, c) < ButtonNumber(has, d) <==>
         (c >= 0x120 && d < 0x120) || ((c >= 0x120 <==> d >= 0x120) && c < d))
  {
    if IsButton(has, c) && IsButton(has, d) {
      ButtonNumberInRange(has, c);
      ButtonNumberInRange(has, d);
      var lo := if c >= BTN_JOYSTICK then BTN_JOYSTICK else 0;
      if c <= d { CountMonotone(has, lo, c, d); } else if d >= lo { CountMonotone(has, lo, d, c); }
    }
  }

  /** Axes are numbered in the order of their codes; hats, from 0x10 to 0x17, have no number. */
  lemma AxisOrder(has: set<int>, c: int, d: int)
    ensures c !in has || c < 0 || c >= 0x3f || 0x10 <= c <= 0x17 ==> AxisNumber(has, c) == -16843010
    ensures IsAxis(has, c) && IsAxis(has, d) ==> (AxisNumber(has, c) < AxisNumber(has, d) <==> c < d)
    ensures c in has && 0 <= c < 0x3f && !(0x10 <= c <= 0x17) ==> IsAxis(has, c)
  {
    if IsAxis(has, c) && IsAxis(has, d) {
      AxisNumberInRange(has, c);
      AxisNumberInRange(has, d);
      var lo := if c < ABS_HAT0X then 0 else ABS_HAT3Y + 1;
      if c <= d { CountMonotone(has, lo, c, d); } else if d >= lo { CountMonotone(has, lo, d, c); }
    }
  }

  // ---------------------------------------------------------------------------------------
  // What an axis event writes

  /** The parameters of an axis with these limits. */
  function Parms(lim: Limits): AbsParms
  {
    var centre := TruncDiv(lim.min + lim.max, 2);
    AbsParms(lim.min, lim.max, lim.flat, centre, lim.max - centre, lim.max - lim.min)
  }

  lemma ParmsAre(lim: Limits)
    ensures ParmsFor(lim) == Parms(lim)
  {
  }

  /** Each part of an axis event keeps to its own readings. */
  lemma PartsApart(m: AxisMapping, r: Readings, i: int,
                   stick: Role -> int16, trigger: Role -> uint8, pressed: Role -> bool)
    ensures var t := StickEvent(m, r, i, stick);
            t == r.(leftStickX := t.leftStickX, leftStickY := t.leftStickY,
                    rightStickX := t.rightStickX, rightStickY := t.rightStickY)
    ensures var t := TriggerEvent(m, r, i, trigger);
            t == r.(leftTrigger := t.leftTrigger, rightTrigger := t.rightTrigger)
    ensures var t := DpadEvent(m, r, i, pressed);
            t == r.(left := t.left, right := t.right, up := t.up, down := t.down)
  {
  }

  lemma StickReadings(m: AxisMapping, lim: Limits, v: int)
    ensures var f := StickReading(m, lim, v);
            && f(LeftX) == ConvertValue(v, Parms(lim), m.reverseLeftX)
            && f(LeftY) == ConvertValue(v, Parms(lim), !m.reverseLeftY)
            && f(RightX) == ConvertValue(v, Parms(lim), m.reverseRightX)
            && f(RightY) == ConvertValue(v, Parms(lim), !m.reverseRightY)
  {
    ParmsAre(lim);
  }

  lemma TriggerReadings(m: AxisMapping, lim: Limits, v: int)
    ensures var f := TriggerReading(m, lim, v);
            && f(LeftTrigger) == ConvertValueByte(v, Parms(lim), m.halfLeftTrigger)
            && f(RightTrigger) == ConvertValueByte(v, Parms(lim), m.halfRightTrigger)
  {
    ParmsAre(lim);
  }

  lemma DpadReadings(m: AxisMapping, lim: Limits, v: int)
    ensures var f := DpadReading(m, lim, v);
            && (f(DpLeft) <==> ConvertValueByte(v, Parms(lim), m.halfDpLeft) > 127)
            && (f(DpRight) <==> ConvertValueByte(v, Parms(lim), m.halfDpRight) > 127)
            && (f(DpUp) <==> ConvertValueByte(v, Parms(lim), m.halfDpUp) > 127)
            && (f(DpDown) <==> ConvertValueByte(v, Parms(lim), m.halfDpDown) > 127)
  {
    ParmsAre(lim);
  }

  lemma SticksOf(m: AxisMapping, before: Readings, i: int, f: Role -> int16)
    ensures var r := StickEvent(m, before, i, f);
            var lx, ly, rx, ry := m.absLeftX as int, m.absLeftY as int, m.absRightX as int, m.absRightY as int;
            && r.leftStickX == (if i == lx then f(LeftX) else before.leftStickX)
            && r.leftStickY == (if i == ly && i != lx then f(LeftY) else before.leftStickY)
            && r.rightStickX == (if i == rx && i != lx && i != ly then f(RightX) else before.rightStickX)
            && r.rightStickY == (if i == ry && i != lx && i != ly && i != rx then f(RightY) else before.rightStickY)
  {
  }

  lemma TriggersOf(m: AxisMapping, before: Readings, i: int, f: Role -> uint8)
    ensures var r := TriggerEvent(m, before, i, f);
            && r.leftTrigger == (if i == m.absLeftTrigger as int then f(LeftTrigger) else before.leftTrigger)
            && r.rightTrigger == (if i == m.absRightTrigger as int then f(RightTrigger) else before.rightTrigger)
  {
  }

  lemma DpadOf(m: AxisMapping, before: Readings, i: int, f: Role -> bool)
    ensures var r := DpadEvent(m, before, i, f);
            && r.left == (if i == m.absDpLeft as int then f(DpLeft) else before.left)
            && r.right == (if i == m.absDpRight as int then f(DpRight) else before.right)
            && r.up == (if i == m.absDpUp as int then f(DpUp) else before.up)
            && r.down == (if i == m.absDpDown as int then f(DpDown) else before.down)
  {
  }

  /** The sticks after an event of an axis with number i: the first of them that is mapped to it takes
      it, the vertical ones upside down. */
  predicate SticksWritten(m: AxisMapping, before: Readings, r: Readings, i: int, lim: Limits, v: int)
  {
    var lx, ly, rx, ry := m.absLeftX as int, m.absLeftY as int, m.absRightX as int, m.absRightY as int;
    && r.leftStickX == (if i == lx then ConvertValue(v, Parms(lim), m.reverseLeftX) else before.leftStickX)
    && r.leftStickY == (if i == ly && i != lx then ConvertValue(v, Parms(lim), !m.reverseLeftY) else before.leftStickY)
    && r.rightStickX == (if i == rx && i != lx && i != ly then ConvertValue(v, Parms(lim), m.reverseRightX)
                         else before.rightStickX)
    && r.rightStickY == (if i == ry && i != lx && i != ly && i != rx then ConvertValue(v, Parms(lim), !m.reverseRightY)
                         else before.rightStickY)
  }

  /** The triggers: each on its own. */
  predicate TriggersWritten(m: AxisMapping, before: Readings, r: Readings, i: int, lim: Limits, v: int)
  {
    var p := Parms(lim);
    && r.leftTrigger == (if i == m.absLeftTrigger as int then ConvertValueByte(v, p, m.halfLeftTrigger)
                         else before.leftTrigger)
    && r.rightTrigger == (if i == m.absRightTrigger as int then ConvertValueByte(v, p, m.halfRightTrigger)
                          else before.rightTrigger)
  }

  /** The directional pad: each direction on its own, pressed above 127. */
  predicate DpadWritten(m: AxisMapping, before: Readings, r: Readings, i: int, lim: Limits, v: int)
  {
    var p := Parms(lim);
    && r.left == (if i == m.absDpLeft as int then ConvertValueByte(v, p, m.halfDpLeft) > 127 else before.left)
    && r.right == (if i == m.absDpRight as int then ConvertValueByte(v, p, m.halfDpRight) > 127 else before.right)
    && r.up == (if i == m.absDpUp as int then ConvertValueByte(v, p, m.halfDpUp) > 127 else before.up)
    && r.down == (if i == m.absDpDown as int then ConvertValueByte(v, p, m.halfDpDown) > 127 else before.down)
  }

  /** What an axis event writes. */
  lemma AxisEventWrites(has: set<int>, m: AxisMapping, before: Readings, code: int, lim: Limits, v: int)
    ensures var r, i := AxisEvent(has, m, before, code, lim, v), AxisNumber(has, code);
            SticksWritten(m, before, r, i, lim, v) && TriggersWritten(m, before, r, i, lim, v) &&
            DpadWritten(m, before, r, i, lim, v)
  {
    var i := AxisNumber(has, code);
    var stick, trigger, pressed := StickReading(m, lim, v), TriggerReading(m, lim, v), DpadReading(m, lim, v);
    var sticks := StickEvent(m, before, i, stick);
    var triggers := TriggerEvent(m, sticks, i, trigger);
    PartsApart(m, before, i, stick, trigger, pressed);
    PartsApart(m, sticks, i, stick, trigger, pressed);
    PartsApart(m, triggers, i, stick, trigger, pressed);
    SticksOf(m, before, i, stick);
    TriggersOf(m, sticks, i, trigger);
    DpadOf(m, triggers, i, pressed);
    StickReadings(m, lim, v);
    TriggerReadings(m, lim, v);
    DpadReadings(m, lim, v);
  }

  /** An axis number is mapped when it is one of the ten in the mapping. */
  lemma MappedIff(m: AxisMapping, n: int)
    ensures (exists r: Role :: m.Code(r) == n) <==>
      n == m.absLeftX as int || n == m.absLeftY as int || n == m.absRightX as int || n == m.absRightY as int ||
      n == m.absLeftTrigger as int || n == m.absRightTrigger as int || n == m.absDpLeft as int ||
      n == m.absDpRight as int || n == m.absDpUp as int || n == m.absDpDown as int
  {
    m.MapsSome(n);
  }
}
