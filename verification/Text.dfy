/** The parts of C's formatted input and output that the text formats of the program use. */
module Text {

  /** isspace in the C locale */
  predicate IsSpace(c: char)
  {
    c == ' ' || c == '\t' || c == '\n' || c == '\r' || c as int == 11 || c as int == 12
  }

  predicate IsDigit(c: char) { '0' <= c <= '9' }

  function DigitChar(d: nat): (c: char)
    requires d < 10
    ensures IsDigit(c) && DigitValue(c) == d
  {
    ['0', '1', '2', '3', '4', '5', '6', '7', '8', '9'][d]
  }

  function DigitValue(c: char): (d: nat)
    requires IsDigit(c)
    ensures d < 10
  {
    c as int - '0' as int
  }

  /** printf("%d") of a non-negative number */
  function Digits(n: nat): (s: string)
    ensures s != [] && forall k :: 0 <= k < |s| ==> IsDigit(s[k])
    decreases n
  {
    if n < 10 then [DigitChar(n)] else Digits(n / 10) + [DigitChar(n % 10)]
  }

  /** printf("%d") */
  function PrintInt(n: int): (s: string)
    ensures s != [] && !IsSpace(s[0])
  {
    if n < 0 then ['-'] + Digits(-n) else Digits(n)
  }

  /** The number a run of digits stands for. */
  function DigitsValue(s: string): nat
    requires forall k :: 0 <= k < |s| ==> IsDigit(s[k])
  {
    if s == [] then 0 else DigitsValue(s[..|s| - 1]) * 10 + DigitValue(s[|s| - 1])
  }

  /** How many characters at the start are digits. */
  function DigitRun(s: string): (n: nat)
    ensures n <= |s|
    ensures forall k :: 0 <= k < n ==> IsDigit(s[k])
    ensures n < |s| ==> !IsDigit(s[n])
  {
    if s == [] || !IsDigit(s[0]) then 0 else 1 + DigitRun(s[1..])
  }

  /** How many characters at the start are white space. */
  function SpaceRun(s: string): (n: nat)
    ensures n <= |s|
    ensures forall k :: 0 <= k < n ==> IsSpace(s[k])
    ensures n < |s| ==> !IsSpace(s[n])
  {
    if s == [] || !IsSpace(s[0]) then 0 else 1 + SpaceRun(s[1..])
  }

  /** How many characters at the start are not white space. */
  function WordRun(s: string): (n: nat)
    ensures n <= |s|
    ensures forall k :: 0 <= k < n ==> !IsSpace(s[k])
    ensures n < |s| ==> IsSpace(s[n])
  {
    if s == [] || IsSpace(s[0]) then 0 else 1 + WordRun(s[1..])
  }

  function SkipSpaces(s: string): (t: string)
    ensures t == [] || !IsSpace(t[0])
  {
    s[SpaceRun(s)..]
  }

  /** The position of the first c, or the length. */
  function Until(s: string, c: char): (n: nat)
    ensures n <= |s|
    ensures forall k :: 0 <= k < n ==> s[k] != c
    ensures n < |s| ==> s[n] == c
  {
    if s == [] || s[0] == c then 0 else 1 + Until(s[1..], c)
  }

  /** A scanned number and what follows it. */
  datatype IntScan = NoNumber | Number(value: int, rest: string)

  /** A run of digits at the start. */
  function ScanDigits(s: string): IntScan
  {
    var n := DigitRun(s);
    if n == 0 then NoNumber else Number(DigitsValue(s[..n]), s[n..])
  }

  /** A number with an optional sign. */
  function ScanSigned(s: string): IntScan
  {
    if s != [] && s[0] == '-' then
      match ScanDigits(s[1..])
      case NoNumber => NoNumber
      case Number(value, rest) => Number(-value, rest)
    else if s != [] && s[0] == '+' then ScanDigits(s[1..])
    else ScanDigits(s)
  }

  /** scanf's %d, on numbers an int can hold. */
  function ScanInt(s: string): IntScan
  {
    ScanSigned(SkipSpaces(s))
  }

  /** atoi */
  function Atoi(s: string): int
  {
    match ScanInt(s)
    case NoNumber => 0
    case Number(value, _) => value
  }

  // ---------------------------------------------------------------------------------------
  // Reading back what was printed

  lemma {:induction false} DigitsReadBack(n: nat)
    ensures DigitsValue(Digits(n)) == n
    decreases n
  {
    var s := Digits(n);
    if n >= 10 {
      DigitsReadBack(n / 10);
      assert s[..|s| - 1] == Digits(n / 10);
    } else {
      assert s[..|s| - 1] == [];
    }
  }

  lemma {:induction false} DigitRunIs(s: string, n: nat)
    requires n <= |s| && (forall k :: 0 <= k < n ==> IsDigit(s[k])) && (n < |s| ==> !IsDigit(s[n]))
    ensures DigitRun(s) == n
    decreases n
  {
    if n > 0 { DigitRunIs(s[1..], n - 1); }
  }

  lemma {:induction false} WordRunIs(s: string, n: nat)
    requires n <= |s| && (forall k :: 0 <= k < n ==> !IsSpace(s[k])) && (n < |s| ==> IsSpace(s[n]))
    ensures WordRun(s) == n
    decreases n
  {
    if n > 0 { WordRunIs(s[1..], n - 1); }
  }

  lemma {:induction false} SpaceRunIs(s: string, n: nat)
    requires n <= |s| && (forall k :: 0 <= k < n ==> IsSpace(s[k])) && (n < |s| ==> !IsSpace(s[n]))
    ensures SpaceRun(s) == n
    decreases n
  {
    if n > 0 { SpaceRunIs(s[1..], n - 1); }
  }

  lemma {:induction false} UntilIs(s: string, c: char, n: nat)
    requires n <= |s| && (forall k :: 0 <= k < n ==> s[k] != c) && (n < |s| ==> s[n] == c)
    ensures Until(s, c) == n
    decreases n
  {
    if n > 0 { UntilIs(s[1..], c, n - 1); }
  }

  lemma UnsignedReadBack(n: nat, rest: string)
    requires rest == [] || !IsDigit(rest[0])
    ensures ScanDigits(Digits(n) + rest) == Number(n, rest)
  {
    var s, k := Digits(n) + rest, |Digits(n)|;
    DigitRunIs(s, k);
    DigitsReadBack(n);
    assert s[..k] == Digits(n) && s[k..] == rest;
  }

  lemma NoSpaceToSkip(s: string)
    requires s != [] && !IsSpace(s[0])
    ensures SkipSpaces(s) == s
  {
    SpaceRunIs(s, 0);
  }

  lemma ScanMinus(u: string)
    requires ScanDigits(u).Number?
    ensures ScanSigned(['-'] + u) == Number(-ScanDigits(u).value, ScanDigits(u).rest)
  {
    assert (['-'] + u)[1..] == u;
  }

  lemma ScanPlain(u: string)
    requires u != [] && IsDigit(u[0])
    ensures ScanSigned(u) == ScanDigits(u)
  {
  }

  lemma SignedReadBack(n: int, rest: string)
    requires rest == [] || !IsDigit(rest[0])
    ensures ScanSigned(PrintInt(n) + rest) == Number(n, rest)
  {
    if n < 0 {
      NegativeReadBack(-n, rest);
      assert PrintInt(n) == ['-'] + Digits(-n);
    } else {
      PlainReadBack(n, rest);
      assert PrintInt(n) == Digits(n);
    }
  }

  lemma NegativeReadBack(n: nat, rest: string)
    requires rest == [] || !IsDigit(rest[0])
    ensures ScanSigned(['-'] + Digits(n) + rest) == Number(-(n as int), rest)
  {
    UnsignedReadBack(n, rest);
    ScanMinus(Digits(n) + rest);
    MinusInFront(Digits(n), rest);
  }

  lemma PlainReadBack(n: nat, rest: string)
    requires rest == [] || !IsDigit(rest[0])
    ensures ScanSigned(Digits(n) + rest) == Number(n, rest)
  {
    UnsignedReadBack(n, rest);
    ScanPlain(Digits(n) + rest);
  }

  lemma MinusInFront(s: string, rest: string)
    ensures ['-'] + s + rest == ['-'] + (s + rest)
  {
  }

  /** %d reads back what %d printed, up to the first character that is no digit. */
  lemma IntReadBack(n: int, rest: string)
    requires rest == [] || !IsDigit(rest[0])
    ensures ScanInt(PrintInt(n) + rest) == Number(n, rest)
  {
    NoSpaceToSkip(PrintInt(n) + rest);
    SignedReadBack(n, rest);
  }

  lemma AtoiReadsBack(n: int)
    ensures Atoi(PrintInt(n)) == n
  {
    IntReadBack(n, []);
    assert PrintInt(n) + [] == PrintInt(n);
  }

  /** Printed numbers have no white space, comma, colon or newline in them. */
  lemma PrintIntChars(n: int)
    ensures forall k :: 0 <= k < |PrintInt(n)| ==> IsDigit(PrintInt(n)[k]) || PrintInt(n)[k] == '-'
    ensures forall k :: 0 <= k < |PrintInt(n)| ==> !IsSpace(PrintInt(n)[k]) && PrintInt(n)[k] != ','
  {
  }

  // ---------------------------------------------------------------------------------------
  // Numbers in decimal notation

  function PowerOfTen(k: nat): nat { if k == 0 then 1 else 10 * PowerOfTen(k - 1) }

  ghost predicate Decimal(s: string)
  {
    forall k :: 0 <= k < |s| ==> 48 <= s[k] as int <= 57
  }

  /** Each character weighs its digit times the power of ten of its place, the first one most. */
  ghost function Weighted(s: string): int
  {
    if s == [] then 0 else (s[0] as int - 48) * PowerOfTen(|s| - 1) + Weighted(s[1..])
  }

  lemma {:induction false} WeightedSnoc(s: string, c: char)
    ensures Weighted(s + [c]) == 10 * Weighted(s) + (c as int - 48)
    decreases |s|
  {
    var t := s + [c];
    if s == [] {
      assert t[1..] == [] && PowerOfTen(0) == 1;
    } else {
      WeightedSnoc(s[1..], c);
      assert t[1..] == s[1..] + [c];
      var d, p := s[0] as int - 48, PowerOfTen(|s| - 1);
      assert PowerOfTen(|t| - 1) == 10 * p;
      assert d * (10 * p) == 10 * (d * p);
    }
  }

  /** The number a run of digits stands for is the one they are the decimal notation of. */
  lemma {:induction false} DigitsWeigh(s: string)
    requires Decimal(s)
    ensures forall k :: 0 <= k < |s| ==> IsDigit(s[k])
    ensures DigitsValue(s) == Weighted(s)
    decreases |s|
  {
    if s != [] {
      var front, c := s[..|s| - 1], s[|s| - 1];
      DigitsWeigh(front);
      assert s == front + [c];
      WeightedSnoc(front, c);
    }
  }

  /** %d prints a non-negative number in decimal notation without leading zeros. */
  lemma {:induction false} PrintedIsDecimal(n: nat)
    ensures Decimal(PrintInt(n)) && Weighted(PrintInt(n)) == n && (PrintInt(n)[0] == '0' ==> n == 0)
    ensures PrintInt(-(n as int)) == if n == 0 then PrintInt(n) else "-" + PrintInt(n)
  {
    DigitsWeigh(Digits(n));
    DigitsReadBack(n);
    NoLeadingZero(n);
  }

  lemma {:induction false} NoLeadingZero(n: nat)
    ensures Digits(n)[0] == '0' ==> n == 0
    decreases n
  {
    if n >= 10 { NoLeadingZero(n / 10); }
  }

  /** White space of the C locale, by character codes. */
  ghost predicate AllBlank(s: string)
  {
    forall k :: 0 <= k < |s| ==> 9 <= s[k] as int <= 13 || s[k] as int == 32
  }

  ghost predicate NoDigitFirst(s: string)
  {
    s == [] || s[0] as int < 48 || s[0] as int > 57
  }

  ghost predicate SignFirst(s: string)
  {
    s != [] && (s[0] == '-' || s[0] == '+')
  }

  lemma SkipBlank(spaces: string, rest: string)
    requires AllBlank(spaces) && (rest == [] || !AllBlank([rest[0]]))
    ensures SkipSpaces(spaces + rest) == rest
  {
    assert rest != [] && IsSpace(rest[0]) ==> AllBlank([rest[0]]);
    SpaceRunIs(spaces + rest, |spaces|);
  }

  lemma DecimalScans(digits: string, rest: string)
    requires NoDigitFirst(rest) && digits != [] && Decimal(digits)
    ensures ScanDigits(digits + rest) == Number(Weighted(digits), rest)
  {
    DigitsWeigh(digits);
    var t := digits + rest;
    DigitRunIs(t, |digits|);
    assert t[..|digits|] == digits && t[|digits|..] == rest;
  }

  /** atoi: past white space and a sign, the digits up to the first other character are the number
      in decimal notation. */
  lemma AtoiUnsigned(spaces: string, digits: string, rest: string)
    requires AllBlank(spaces) && NoDigitFirst(rest) && digits != [] && Decimal(digits)
    ensures Atoi(spaces + (digits + rest)) == Weighted(digits)
  {
    var t := digits + rest;
    assert t[0] == digits[0] && !AllBlank([t[0]]) by { assert [t[0]][0] == t[0]; }
    SkipBlank(spaces, t);
    DecimalScans(digits, rest);
  }

  lemma AtoiSigned(spaces: string, sign: char, digits: string, rest: string)
    requires AllBlank(spaces) && NoDigitFirst(rest) && digits != [] && Decimal(digits) && sign in ['-', '+']
    ensures Atoi(spaces + ([sign] + (digits + rest))) == if sign == '-' then -Weighted(digits) else Weighted(digits)
  {
    var t := digits + rest;
    var u := [sign] + t;
    assert u[0] == sign && !AllBlank([u[0]]) by { assert [u[0]][0] == sign; }
    SkipBlank(spaces, u);
    DecimalScans(digits, rest);
    assert u[1..] == t;
  }

  /** Without a digit there, atoi gives 0. */
  lemma AtoiNothing(spaces: string, rest: string)
    requires AllBlank(spaces) && (rest == [] || !AllBlank([rest[0]]))
    requires NoDigitFirst(if SignFirst(rest) then rest[1..] else rest)
    ensures Atoi(spaces + rest) == 0
  {
    SkipBlank(spaces, rest);
  }
}
