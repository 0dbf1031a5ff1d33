/** C's narrow integer types and the conversions to them. */
module CTypes {

  const SHRT_MIN := -32768
  const SHRT_MAX := 32767
  const UCHAR_MAX := 255

  newtype int16 = x: int | -32768 <= x < 32768
  newtype uint8 = x: int | 0 <= x < 256

  /** A byte of a buffer whose content is not looked into. */
  type Byte = x: int | 0 <= x < 256

  /** C's `/`: the quotient is rounded toward zero. */
  function TruncDiv(a: int, b: int): (q: int)
    requires b != 0
    ensures b > 0 && a >= 0 ==> q == a / b && q >= 0
    ensures b > 0 && a < 0 ==> q == -((-a) / b) && q <= 0
  {
    if a >= 0 then (if b > 0 then a / b else -(a / (-b)))
    else if b > 0 then -((-a) / b) else (-a) / (-b)
  }

  /** The implicit conversion of an int to `short`: the low sixteen bits, as two's complement. */
  function ToShort(x: int): (s: int16)
    ensures SHRT_MIN <= x <= SHRT_MAX ==> s as int == x
    ensures (s as int - x) % 65536 == 0
  {
    var w := x % 65536;
    if w < 32768 then w as int16 else (w - 65536) as int16
  }

  /** The implicit conversion of an int to `unsigned char`. */
  function ToByte(x: int): (b: uint8)
    ensures 0 <= x <= UCHAR_MAX ==> b as int == x
    ensures (b as int - x) % 256 == 0
  {
    (x % 256) as uint8
  }
}
