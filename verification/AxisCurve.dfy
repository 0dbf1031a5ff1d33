/** The readings of an axis as a curve: where the stick rests, and how far a reading may lie from the
    straight line (src/input/evdev.c). */
module AxisCurve {

  import opened Arith
  import opened AxisConversion
  import opened CTypes

  /** How far a value lies along the scale that is left when the dead zone is cut out: from 0 at one
      limit to max - min - 2 * flat at the other. */
  function Along(min: int, max: int, flat: int, v: int, reverse: bool): int
  {
    var centre := TruncDiv(min + max, 2);
    if reverse then max - v - (if v < centre then 2 * flat else 0)
    else v - min - (if v > centre then 2 * flat else 0)
  }

  /** Strictly within flat of the centre a stick reads exactly 0, in both directions; outside, and
      between the limits, it reads the straight line from -32768 to 32767 rounded down; at and beyond
      the limits the ends of that line. */
  lemma StickCurve(v: int, p: AbsParms, reverse: bool)
    requires p.Usable()
    ensures var centre, r := TruncDiv(p.min + p.max, 2), ConvertValue(v, p, reverse) as int;
            var span, n := p.max - p.min - 2 * p.flat, Along(p.min, p.max, p.flat, v, reverse);
            && (-p.flat < v - centre < p.flat ==> r == 0)
            && (!(-p.flat < v - centre < p.flat) && p.min <= v <= p.max ==>
                  (r + 32768) * span <= n * 65535 < (r + 32769) * span)
            && (v >= p.max ==> r == if reverse then -32768 else 32767)
            && (v <= p.min ==> r == if reverse then 32767 else -32768)
  {
    StickFits(v, p, reverse);
    StickExtremes(v, p, reverse);
    if !p.Dead(v) && p.min <= v <= p.max {
      OffsetInSpan(v, p, reverse);
      Quotient(Offset(v, p, reverse) * 65535, p.Span());
    }
  }

  lemma Quotient(n: int, d: int)
    requires d > 0
    ensures n / d * d <= n < (n / d + 1) * d
  {
  }

  /** A trigger reads 0 strictly within flat of its minimum; from there to the maximum the straight
      line from 0 to 255 rounded down, and 255 beyond; below the minimum the same line goes on, toward
      zero, and the byte keeps its low eight bits. */
  lemma TriggerCurve(v: int, p: AbsParms)
    requires p.Usable()
    ensures var b, d := ConvertValueByte(v, p, '\0') as int, p.max - p.min - p.flat;
            && (-p.flat < v - p.min < p.flat ==> b == 0)
            && (p.min + p.flat <= v <= p.max ==> b * d <= (v - p.min - p.flat) * 255 < (b + 1) * d)
            && (v > p.max ==> b == 255)
            && (v <= p.min - p.flat && v < p.min ==>
                  var q := (p.min + p.flat - v) * 255 / d; b == (-q) % 256)
  {
    var d := p.diff - p.flat;
    if v >= p.min {
      TriggerFitsAndRises(v, v, p);
      FullTriggerOffset(v, p);
      Quotient((v - p.flat - p.min) * 255, d);
    } else if p.min - v >= p.flat {
      BelowMinimumScaled(v, p);
    }
  }

  /** Half an axis reads the part of the stick that its sign asks for, scaled from 65535 to 255 and
      rounded down. */
  lemma HalfAxisCurve(v: int, p: AbsParms)
    ensures var r := ConvertValue(v, p, false) as int;
            && ConvertValueByte(v, p, '+') as int == (if r > 0 then r * 255 / 65535 else 0)
            && ConvertValueByte(v, p, '-') as int == (if r < 0 then -r * 255 / 65535 else 0)
  {
    HalfAxisReadings(v, p);
  }

  /** An axis without limits rests at 0, whatever it reports. */
  lemma NoLimitsNoReading(v: int, p: AbsParms, reverse: bool, half: char)
    requires p.min == 0 && p.max == 0
    ensures ConvertValue(v, p, reverse) == 0 && (half == '\0' ==> ConvertValueByte(v, p, half) == 0)
  {
  }
}
