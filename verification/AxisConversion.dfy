/** Raw axis readings to stick shorts and trigger bytes (src/input/evdev.c).

    `avg`, `range` and `diff` are derived once, when a device is created, from the limits
    the kernel reports; every reading is then scaled with C's truncating division. */
module AxisConversion {
  import opened Arith
  import opened CTypes

  function Abs(x: int): nat { if x < 0 then -x else x }

  /** struct input_abs_parms */
  datatype AbsParms = AbsParms(min: int, max: int, flat: int, avg: int, range: int, diff: int)
  {
    /** The dead zone around the centre leaves something on each side. */
    ghost predicate Usable() {
      && 0 <= 2 * flat < max - min
      && avg == TruncDiv(min + max, 2)
      && range == max - avg
      && diff == max - min
    }

    ghost predicate Dead(v: int) { Abs(v - avg) < flat }

    /** Width of the scale once both halves of the dead zone are cut out. */
    ghost function Span(): int { max - min - 2 * flat }
  }

  /** The parameters evdev_init_parms stores for the limits a device reports. */
  function MakeParms(min: int, max: int, flat: int): (p: AbsParms)
    ensures 0 <= 2 * flat < max - min ==> p.Usable()
  {
    var avg := TruncDiv(min + max, 2);
    AbsParms(min, max, flat, avg, max - avg, max - min)
  }

  /** evdev_convert_value before its result is narrowed to short. */
  function RawValue(v: int, p: AbsParms, reverse: bool): int
  {
    if p.max == 0 && p.min == 0 then 0
    else if Abs(v - p.avg) < p.flat then 0
    else if v > p.max then (if reverse then SHRT_MIN else SHRT_MAX)
    else if v < p.min then (if reverse then SHRT_MAX else SHRT_MIN)
    else if p.max - p.min - p.flat * 2 == 0 then 0 // the source divides by zero here
    else if reverse then
      TruncDiv((p.max - (if v < p.avg then p.flat * 2 else 0) - v) * (SHRT_MAX - SHRT_MIN),
               p.max - p.min - p.flat * 2) + SHRT_MIN
    else
      TruncDiv((v - (if v > p.avg then p.flat * 2 else 0) - p.min) * (SHRT_MAX - SHRT_MIN),
               p.max - p.min - p.flat * 2) + SHRT_MIN
  }

  function ConvertValue(v: int, p: AbsParms, reverse: bool): int16
  {
    ToShort(RawValue(v, p, reverse))
  }

  /** evdev_convert_value_byte before its result is narrowed to unsigned char. */
  function RawByte(v: int, p: AbsParms, halfAxis: char): int
  {
    if p.max == 0 && p.min == 0 then 0
    else if halfAxis == '\0' then
      if Abs(v - p.min) < p.flat then 0
      else if v > p.max then UCHAR_MAX
      else if p.diff - p.flat == 0 then 0 // the source divides by zero here
      else TruncDiv((v - p.flat - p.min) * UCHAR_MAX, p.diff - p.flat)
    else
      var val := ConvertValue(v, p, false) as int;
      if halfAxis == '-' && val < 0 then TruncDiv(-val * UCHAR_MAX, SHRT_MAX - SHRT_MIN)
      else if halfAxis == '+' && val > 0 then TruncDiv(val * UCHAR_MAX, SHRT_MAX - SHRT_MIN)
      else 0
  }

  function ConvertValueByte(v: int, p: AbsParms, halfAxis: char): uint8
  {
    ToByte(RawByte(v, p, halfAxis))
  }

  // ---------------------------------------------------------------------------------------
  // Scaling an offset in [0, d] to [0, scale]

  lemma ScaleMonotone(a: int, b: int, scale: int, d: int)
    requires 0 <= a <= b && 0 < d && 0 <= scale
    ensures 0 <= a * scale / d <= b * scale / d
  {
    MulMonotone(0, a, scale);
    MulMonotone(a, b, scale);
    DivMonotone(0, a * scale, d);
    DivMonotone(a * scale, b * scale, d);
  }

  lemma ScaleEnds(scale: int, d: int)
    requires 0 < d && 0 <= scale
    ensures 0 * scale / d == 0
    ensures d * scale / d == scale
  {
    DivModUnique(scale, 0, d);
    assert d * scale == scale * d + 0;
  }

  /** The offset that a live in-range reading is scaled by: from 0 at one end to Span() at the other. */
  ghost function Offset(v: int, p: AbsParms, reverse: bool): int
  {
    if reverse then p.max - (if v < p.avg then p.flat * 2 else 0) - v
    else v - (if v > p.avg then p.flat * 2 else 0) - p.min
  }

  lemma OffsetInSpan(v: int, p: AbsParms, reverse: bool)
    requires p.Usable() && !p.Dead(v) && p.min <= v <= p.max
    ensures 0 <= Offset(v, p, reverse) <= p.Span()
    ensures RawValue(v, p, reverse) == Offset(v, p, reverse) * 65535 / p.Span() + SHRT_MIN
  {
    assert p.Span() > 0;
    var n := Offset(v, p, reverse);
    assert 0 <= n <= p.Span();
    assert n * 65535 >= 0;
  }

  /** No stick reading is truncated by the conversion to short, in either direction. */
  lemma StickFits(v: int, p: AbsParms, reverse: bool)
    requires p.Usable()
    ensures SHRT_MIN <= RawValue(v, p, reverse) <= SHRT_MAX
    ensures ConvertValue(v, p, reverse) as int == RawValue(v, p, reverse)
  {
    if !p.Dead(v) && p.min <= v <= p.max {
      OffsetInSpan(v, p, reverse);
      ScaleMonotone(Offset(v, p, reverse), p.Span(), 65535, p.Span());
      ScaleEnds(65535, p.Span());
    }
  }

  /** Out of limits clamps, and both limits reach the extremes exactly. */
  lemma StickExtremes(v: int, p: AbsParms, reverse: bool)
    requires p.Usable()
    ensures v >= p.max ==> ConvertValue(v, p, reverse) as int == if reverse then SHRT_MIN else SHRT_MAX
    ensures v <= p.min ==> ConvertValue(v, p, reverse) as int == if reverse then SHRT_MAX else SHRT_MIN
  {
    StickFits(v, p, reverse);
    if v == p.max || v == p.min {
      assert !p.Dead(v);
      OffsetInSpan(v, p, reverse);
      ScaleEnds(65535, p.Span());
    }
  }

  /** Outside the dead zone a larger reading never gives a smaller (reversed: larger) result. */
  lemma StickMonotone(v: int, w: int, p: AbsParms, reverse: bool)
    requires p.Usable() && v <= w && !p.Dead(v) && !p.Dead(w)
    ensures reverse ==> ConvertValue(v, p, reverse) >= ConvertValue(w, p, reverse)
    ensures !reverse ==> ConvertValue(v, p, reverse) <= ConvertValue(w, p, reverse)
  {
    StickFits(v, p, reverse);
    StickFits(w, p, reverse);
    StickExtremes(v, p, reverse);
    StickExtremes(w, p, reverse);
    if p.min <= v && w <= p.max {
      OffsetInSpan(v, p, reverse);
      OffsetInSpan(w, p, reverse);
      if reverse {
        ScaleMonotone(Offset(w, p, reverse), Offset(v, p, reverse), 65535, p.Span());
      } else {
        ScaleMonotone(Offset(v, p, reverse), Offset(w, p, reverse), 65535, p.Span());
      }
    }
  }

  /** The two edges of the dead zone give one and the same reading: cutting the zone out leaves
      no jump between its sides. */
  lemma StickContinuousAcrossDeadZone(p: AbsParms, reverse: bool)
    requires p.Usable()
    ensures !p.Dead(p.avg - p.flat) && !p.Dead(p.avg + p.flat)
    ensures ConvertValue(p.avg - p.flat, p, reverse) == ConvertValue(p.avg + p.flat, p, reverse)
  {
    OffsetInSpan(p.avg - p.flat, p, reverse);
    OffsetInSpan(p.avg + p.flat, p, reverse);
    assert Offset(p.avg - p.flat, p, reverse) == Offset(p.avg + p.flat, p, reverse);
  }

  // ---------------------------------------------------------------------------------------
  // Reversal as mirroring

  ghost predicate ReverseMirrors(p: AbsParms)
  {
    forall v :: ConvertValue(v, p, true) == ConvertValue(p.min + p.max - v, p, false)
  }

  lemma MirrorAgrees(v: int, p: AbsParms)
    requires p.Usable()
    requires (p.min + p.max) % 2 == 0 || p.flat == 0
    ensures ConvertValue(v, p, true) == ConvertValue(p.min + p.max - v, p, false)
  {
    var m := p.min + p.max - v;
    StickExtremes(v, p, true);
    StickExtremes(m, p, false);
    if p.min <= v <= p.max && !p.Dead(v) {
      OffsetInSpan(v, p, true);
      OffsetInSpan(m, p, false);
      assert Offset(v, p, true) == Offset(m, p, false);
    }
  }

  /** Just under half of the scale lies strictly below zero. */
  lemma BelowHalfIsNegative(d: int)
    requires d > 0 && d % 2 == 1
    ensures (d - 1) / 2 * 65535 / d + SHRT_MIN < 0
  {
    var h := (d - 1) / 2;
    var q := h * 65535 / d;
    assert 2 * h == d - 1;
    assert q * d <= h * 65535 < 32768 * d;
    MulMonotone(32768, q, d);
  }

  /** When min+max is odd the truncated centre is off by one half, so a non-empty dead zone is
      not its own mirror image: one of its edge readings is dead on one side only. */
  lemma MirrorFails(p: AbsParms) returns (v: int)
    requires p.Usable() && (p.min + p.max) % 2 == 1 && p.flat > 0
    ensures ConvertValue(v, p, true) != ConvertValue(p.min + p.max - v, p, false)
  {
    if p.min + p.max > 0 {
      v := p.avg - p.flat + 1; // dead, while its mirror image is the lower edge
      var m := p.min + p.max - v;
      assert p.min + p.max == 2 * p.avg + 1;
    } else {
      v := p.avg - p.flat;     // alive, while its mirror image is dead
      assert p.min + p.max == 2 * p.avg - 1;
    }
    var m := p.min + p.max - v;
    assert p.Span() % 2 == 1;
    BelowHalfIsNegative(p.Span());
    if p.min + p.max > 0 {
      assert p.Dead(v) && RawValue(v, p, true) == 0;
      assert m == p.avg + p.flat && !p.Dead(m);
      StickFits(m, p, false);
      OffsetInSpan(m, p, false);
      assert Offset(m, p, false) == (p.Span() - 1) / 2;
    } else {
      assert p.Dead(m) && RawValue(m, p, false) == 0;
      StickFits(v, p, true);
      OffsetInSpan(v, p, true);
      assert Offset(v, p, true) == (p.Span() - 1) / 2;
    }
  }

  /** Reversing an axis is reading its mirror image for exactly the axes whose limits have an
      exact centre, or that have no dead zone. */
  lemma ReverseIsMirrorIff(p: AbsParms)
    requires p.Usable()
    ensures ReverseMirrors(p) <==> (p.min + p.max) % 2 == 0 || p.flat == 0
  {
    if (p.min + p.max) % 2 == 0 || p.flat == 0 {
      forall v ensures ConvertValue(v, p, true) == ConvertValue(p.min + p.max - v, p, false) {
        MirrorAgrees(v, p);
      }
    } else {
      var v := MirrorFails(p);
    }
  }

  // ---------------------------------------------------------------------------------------
  // Trigger bytes

  lemma FullTriggerOffset(v: int, p: AbsParms)
    requires p.Usable() && p.min <= v
    ensures v <= p.max && v - p.min >= p.flat ==>
      0 <= v - p.flat - p.min <= p.diff - p.flat &&
      RawByte(v, p, '\0') == (v - p.flat - p.min) * 255 / (p.diff - p.flat)
  {
    if v <= p.max && v - p.min >= p.flat {
      assert (v - p.flat - p.min) * 255 >= 0;
    }
  }

  /** Trigger readings from the lower limit up fit a byte, rise with the reading, and are full
      from the upper limit on. */
  lemma TriggerFitsAndRises(v: int, w: int, p: AbsParms)
    requires p.Usable() && p.min <= v <= w
    ensures 0 <= RawByte(v, p, '\0') <= UCHAR_MAX
    ensures ConvertValueByte(v, p, '\0') <= ConvertValueByte(w, p, '\0')
    ensures v >= p.max ==> ConvertValueByte(v, p, '\0') as int == UCHAR_MAX
  {
    FullTriggerOffset(v, p);
    FullTriggerOffset(w, p);
    var d := p.diff - p.flat;
    ScaleEnds(255, d);
    if v - p.min >= p.flat && v <= p.max {
      ScaleMonotone(v - p.flat - p.min, d, 255, d);
    }
    if w - p.min >= p.flat && w <= p.max {
      ScaleMonotone(w - p.flat - p.min, d, 255, d);
      if v - p.min >= p.flat {
        ScaleMonotone(v - p.flat - p.min, w - p.flat - p.min, 255, d);
      }
    }
  }

  /** Below the lower limit nothing clamps: the reading survives the conversion to a byte
      exactly when it is still in the dead zone or scales to zero. */
  lemma TriggerBelowMinimum(v: int, p: AbsParms)
    requires p.Usable() && v < p.min
    ensures 0 <= RawByte(v, p, '\0') <= UCHAR_MAX <==>
            p.min - v < p.flat || (p.min - v + p.flat) * UCHAR_MAX < p.diff - p.flat
  {
    var d := p.diff - p.flat;
    var k := (p.min - v + p.flat) * UCHAR_MAX;
    if p.min - v >= p.flat {
      BelowMinimumScaled(v, p);
      if k < d {
        DivModUnique(0, k, d);
      } else {
        DivModUnique(1, 0, d);
        DivMonotone(d, k, d);
      }
    }
  }

  lemma BelowMinimumScaled(v: int, p: AbsParms)
    requires p.Usable() && v < p.min && p.min - v >= p.flat
    ensures RawByte(v, p, '\0') == -((p.min - v + p.flat) * UCHAR_MAX / (p.diff - p.flat))
  {
    assert (v - p.flat - p.min) * UCHAR_MAX == -((p.min - v + p.flat) * UCHAR_MAX);
  }

  lemma BelowZeroUnscaled(v: int)
    requires v < 0
    ensures RawByte(v, MakeParms(0, 255, 0), '\0') == v
  {
    var k := -v;
    assert -((v - 0 - 0) * UCHAR_MAX) == k * 255 + 0;
    DivModUnique(k, 0, 255);
  }

  lemma ByteWraps(v: int, p: AbsParms, b: uint8)
    requires RawByte(v, p, '\0') == b as int - 256
    ensures ConvertValueByte(v, p, '\0') == b
  {
  }

  /** Any byte at all can come out: the reading b - 256 below a minimum of 0 gives b. */
  lemma AnyByteBelowMinimum(b: uint8) returns (v: int, p: AbsParms)
    ensures p.Usable() && v < p.min && ConvertValueByte(v, p, '\0') == b
  {
    v, p := b as int - 256, MakeParms(0, 255, 0);
    BelowZeroUnscaled(v);
    ByteWraps(v, p, b);
  }

  /** A half axis never reads more than 127, and the two halves never read non-zero together. */
  lemma HalfAxisReadings(v: int, p: AbsParms)
    ensures 0 <= RawByte(v, p, '+') <= 127
    ensures 0 <= RawByte(v, p, '-') <= 127
    ensures ConvertValueByte(v, p, '+') == 0 || ConvertValueByte(v, p, '-') == 0
  {
    var val := ConvertValue(v, p, false) as int;
    if val > 0 {
      assert val * 255 / 65535 <= 127;
    } else if val < 0 {
      assert (-val) * 255 / 65535 <= 127;
    }
  }

  /** The test evdev_handle_event makes before it presses a d-pad direction from an axis. */
  predicate DpadPressed(v: int, p: AbsParms, halfAxis: char)
  {
    ConvertValueByte(v, p, halfAxis) > 127
  }

  /** So a d-pad direction mapped to half an axis can never be pressed, while one mapped to a
      whole axis is pressed at its upper limit. */
  lemma DpadOnHalfAxisNeverPressed(p: AbsParms)
    ensures forall v, half | half == '+' || half == '-' :: !DpadPressed(v, p, half)
    ensures p.Usable() ==> DpadPressed(p.max, p, '\0')
  {
    forall v, half | half == '+' || half == '-' ensures !DpadPressed(v, p, half) {
      HalfAxisReadings(v, p);
    }
    if p.Usable() {
      TriggerFitsAndRises(p.max, p.max, p);
    }
  }
}
