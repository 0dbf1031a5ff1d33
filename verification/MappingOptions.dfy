/** What the options of a mapping line set, key by key (src/input/mapping.c): also those that are
    read and never printed. */
module MappingOptions {

  import opened CTypes
  import opened MappingFormat
  import opened Text
  import opened Wrappers

  /** The text of an axis option: an optional sign, the code, and an optional character after it. */
  function AxisOption(key: string, sign: string, n: int, mark: string): string
  {
    key + (":" + (sign + ("a" + (PrintInt(n) + mark))))
  }

  predicate SignOrNone(sign: string) { sign == "" || sign == "-" || sign == "+" }

  predicate MarkOrNone(mark: string)
  {
    mark == "" || (|mark| == 1 && !IsSpace(mark[0]) && !IsDigit(mark[0]))
  }

  /** The half of the axis that a sign asks for. */
  function HalfOf(sign: string): char
    requires SignOrNone(sign)
  {
    if sign == "-" then '-' else if sign == "+" then '+' else '\0'
  }

  lemma ReadsAxis(m: Mapping, key: string, sign: string, n: int, mark: string)
    requires KeyText(key) && key != "platform" && SignOrNone(sign) && MarkOrNone(mark)
    ensures OptionAssigned(m, AxisOption(key, sign, n, mark))
         == CodeAssigned(m, key, Axis(n, if mark == "" then '\0' else mark[0]), HalfOf(sign))
  {
    MarkedAxisReads(m, key, sign, n, mark);
  }

  // ---------------------------------------------------------------------------------------
  // The keys and the places they mean, in the order of the structure

  /** A stick: abs_leftx, abs_lefty, abs_rightx and abs_righty come first. */
  predicate StickKey(key: string, place: nat)
  {
    (key == "leftx" && place == 0) || (key == "lefty" && place == 1) ||
    (key == "rightx" && place == 2) || (key == "righty" && place == 3)
  }

  /** An axis of which half may be used: its index, and its place among the half axes. */
  predicate HalfKey(key: string, place: nat, half: nat)
  {
    (key == "lefttrigger" && place == 37 && half == 0) || (key == "righttrigger" && place == 38 && half == 1) ||
    (key == "dpright" && place == 16 && half == 2) || (key == "dpleft" && place == 17 && half == 3) ||
    (key == "dpup" && place == 18 && half == 4) || (key == "dpdown" && place == 19 && half == 5)
  }

  predicate HatKey(key: string, place: nat)
  {
    (key == "dpright" && place == 4) || (key == "dpleft" && place == 5) ||
    (key == "dpup" && place == 6) || (key == "dpdown" && place == 7)
  }

  predicate ButtonKey(key: string, place: nat)
  {
    (key == "a" && place == 20) || (key == "y" && place == 22) ||
    (key == "x" && place == 21) || (key == "b" && place == 23) ||
    (key == "back" && place == 24) || (key == "start" && place == 25) ||
    (key == "guide" && place == 26) || (key == "dpup" && place == 12) ||
    (key == "dpdown" && place == 13) || (key == "dpleft" && place == 14) ||
    (key == "dpright" && place == 15) || (key == "leftstick" && place == 27) ||
    (key == "rightstick" && place == 28) || (key == "leftshoulder" && place == 29) ||
    (key == "rightshoulder" && place == 30) || (key == "lefttrigger" && place == 39) ||
    (key == "righttrigger" && place == 40) || (key == "misc1" && place == 31) ||
    (key == "paddle1" && place == 32) || (key == "paddle2" && place == 33) ||
    (key == "paddle3" && place == 34) || (key == "paddle4" && place == 35) ||
    (key == "touchpad" && place == 36)
  }

  lemma StickPlace(key: string, place: nat)
    ensures StickSlot(key) == Some(place) <==> StickKey(key, place)
  {
  }

  lemma HalfPlace(key: string, place: nat, half: nat)
    ensures HalfAxisSlot(key) == Some(HalfSlot(place, half)) <==> HalfKey(key, place, half)
  {
  }

  lemma HatPlace(key: string, place: nat)
    ensures HatIndex(key) == Some(place) <==> HatKey(key, place)
  {
  }

  lemma ButtonPlace(key: string, place: nat)
    ensures ButtonSlot(key) == Some(place) <==> ButtonKey(key, place)
  {
  }

  // ---------------------------------------------------------------------------------------
  // What one option sets

  predicate OptionKey(key: string)
  {
    KeyText(key) && key != "platform"
  }

  /** An axis code under a stick key sets the index of the stick, and its reversal to whether the
      mark is a tilde; a sign in front makes no difference. */
  lemma StickOptionSets(m: Mapping, key: string, place: nat, sign: string, n: int, mark: string)
    requires OptionKey(key) && StickKey(key, place) && SignOrNone(sign) && MarkOrNone(mark)
    ensures OptionAssigned(m, AxisOption(key, sign, n, mark))
         == m.(index := m.index[place := ToShort(n)], reverse := m.reverse[place := mark == "~"])
  {
    ReadsAxis(m, key, sign, n, mark);
    StickPlace(key, place);
    StickAssigned(m, key, place, n, mark, HalfOf(sign));
  }

  lemma StickAssigned(m: Mapping, key: string, place: nat, n: int, mark: string, half: char)
    requires StickSlot(key) == Some(place) && MarkOrNone(mark)
    ensures CodeAssigned(m, key, Axis(n, if mark == "" then '\0' else mark[0]), half)
         == m.(index := m.index[place := ToShort(n)], reverse := m.reverse[place := mark == "~"])
  {
    assert mark != "" ==> mark == [mark[0]];
  }

  /** Under the key of an axis of which half may be used it sets that index, and the half to the
      sign in front; the mark makes no difference. */
  lemma HalfOptionSets(m: Mapping, key: string, place: nat, half: nat, sign: string, n: int, mark: string)
    requires OptionKey(key) && HalfKey(key, place, half) && SignOrNone(sign) && MarkOrNone(mark)
    ensures OptionAssigned(m, AxisOption(key, sign, n, mark))
         == m.(index := m.index[place := ToShort(n)], half := m.half[half := HalfOf(sign)])
  {
    ReadsAxis(m, key, sign, n, mark);
    HalfPlace(key, place, half);
    KindsDiffer(key);
    NoStick(key);
    HalfAssigned(m, key, place, half, n, if mark == "" then '\0' else mark[0], HalfOf(sign));
  }

  lemma HalfAssigned(m: Mapping, key: string, place: nat, half: nat, n: int, flag: char, sign: char)
    requires StickSlot(key) == None && HalfAxisSlot(key) == Some(HalfSlot(place, half))
    ensures CodeAssigned(m, key, Axis(n, flag), sign)
         == m.(index := m.index[place := ToShort(n)], half := m.half[half := sign])
  {
  }

  /** Under any other key it sets nothing. */
  lemma OtherAxisOptionSetsNothing(m: Mapping, key: string, sign: string, n: int, mark: string)
    requires OptionKey(key) && SignOrNone(sign) && MarkOrNone(mark)
    requires forall place: nat :: !StickKey(key, place)
    requires forall place: nat, half: nat :: !HalfKey(key, place, half)
    ensures OptionAssigned(m, AxisOption(key, sign, n, mark)) == m
  {
    ReadsAxis(m, key, sign, n, mark);
    NoStick(key);
    NoHalf(key);
    NothingForAxis(m, key, n, if mark == "" then '\0' else mark[0], HalfOf(sign));
  }

  lemma NothingForAxis(m: Mapping, key: string, n: int, flag: char, sign: char)
    requires StickSlot(key) == None && HalfAxisSlot(key) == None
    ensures CodeAssigned(m, key, Axis(n, flag), sign) == m
  {
  }

  lemma NoStick(key: string)
    requires forall place: nat :: !StickKey(key, place)
    ensures StickSlot(key) == None
  {
    if StickSlot(key).Some? { StickPlace(key, StickSlot(key).value); }
  }

  lemma NoHalf(key: string)
    requires forall place: nat, half: nat :: !HalfKey(key, place, half)
    ensures HalfAxisSlot(key) == None
  {
    if HalfAxisSlot(key).Some? { HalfPlace(key, HalfAxisSlot(key).value.slot, HalfAxisSlot(key).value.half); }
  }

  lemma KindsDiffer(key: string)
    ensures forall i: nat, place: nat, half: nat :: !(StickKey(key, i) && HalfKey(key, place, half))
  {
  }

  /** The text of a button or hat option: what follows the numbers makes no difference. */
  predicate AfterNumber(rest: string)
  {
    (rest != "" ==> !IsDigit(rest[0])) && forall k :: 0 <= k < |rest| ==> !IsSpace(rest[k])
  }

  lemma ReadsCode(m: Mapping, key: string, sign: string, letter: char, s: string, n: int, rest: string)
    requires OptionKey(key) && SignOrNone(sign) && !IsSign(letter) && !IsSpace(letter)
    requires s == PrintInt(n) + rest && AfterNumber(rest)
    ensures OptionAssigned(m, key + (":" + (sign + ([letter] + s))))
         == CodeAssigned(m, key, LetterCode(letter, n, rest), HalfOf(sign))
  {
    PrintIntChars(n);
    IntReadBack(n, rest);
    CodeScans(letter, s, n, rest);
    SignStripped(m, key, sign, [letter] + s);
  }

  /** A button code sets the index of its key, and nothing else; under a key that is none of a
      button it sets nothing. */
  lemma ButtonOptionSets(m: Mapping, key: string, place: nat, sign: string, n: int, rest: string)
    requires OptionKey(key) && ButtonKey(key, place) && SignOrNone(sign) && AfterNumber(rest)
    ensures OptionAssigned(m, key + (":" + (sign + ("b" + (PrintInt(n) + rest)))))
         == m.(index := m.index[place := ToShort(n)])
  {
    ReadsCode(m, key, sign, 'b', PrintInt(n) + rest, n, rest);
    ButtonPlace(key, place);
  }

  lemma OtherButtonOptionSetsNothing(m: Mapping, key: string, sign: string, n: int, rest: string)
    requires OptionKey(key) && SignOrNone(sign) && AfterNumber(rest)
    requires forall place: nat :: !ButtonKey(key, place)
    ensures OptionAssigned(m, key + (":" + (sign + ("b" + (PrintInt(n) + rest))))) == m
  {
    ReadsCode(m, key, sign, 'b', PrintInt(n) + rest, n, rest);
    if ButtonSlot(key).Some? { ButtonPlace(key, ButtonSlot(key).value); }
  }

  /** A hat code sets the hat of its key and, four indices later, the direction. */
  lemma HatOptionSets(m: Mapping, key: string, place: nat, sign: string, n: int, direction: int, rest: string)
    requires OptionKey(key) && HatKey(key, place) && SignOrNone(sign) && AfterNumber(rest)
    ensures OptionAssigned(m, key + (":" + (sign + ("h" + (PrintInt(n) + ("." + (PrintInt(direction) + rest)))))))
         == m.(index := m.index[place := ToShort(n)][place + 4 := ToShort(direction)])
  {
    var tail := PrintInt(direction) + rest;
    PrintIntChars(direction);
    IntReadBack(direction, rest);
    ReadsCode(m, key, sign, 'h', PrintInt(n) + ("." + tail), n, "." + tail);
    HatLetter(n, tail, direction, rest);
    HatPlace(key, place);
    HatAssigned(m, key, place, n, direction, HalfOf(sign));
  }

  lemma HatLetter(n: int, tail: string, direction: int, rest: string)
    requires ScanInt(tail) == Number(direction, rest)
    ensures LetterCode('h', n, "." + tail) == Hat(n, direction)
  {
    assert ("." + tail)[1..] == tail;
  }

  lemma HatAssigned(m: Mapping, key: string, place: nat, n: int, direction: int, half: char)
    requires HatIndex(key) == Some(place)
    ensures CodeAssigned(m, key, Hat(n, direction), half)
         == m.(index := m.index[place := ToShort(n)][place + 4 := ToShort(direction)])
  {
  }

  /** A code with another letter, as a crc has, sets nothing. */
  lemma OtherLetterSetsNothing(m: Mapping, key: string, sign: string, letter: char, n: int, rest: string)
    requires OptionKey(key) && SignOrNone(sign) && !IsSign(letter) && !IsSpace(letter) && AfterNumber(rest)
    requires letter != 'a' && letter != 'b' && letter != 'h'
    ensures OptionAssigned(m, key + (":" + (sign + ([letter] + (PrintInt(n) + rest))))) == m
  {
    ReadsCode(m, key, sign, letter, PrintInt(n) + rest, n, rest);
  }

  /** The platform is the first 32 characters of its value, without a sign in front. */
  lemma PlatformOptionSets(m: Mapping, sign: string, value: string)
    requires SignOrNone(sign) && value != "" && !IsSign(value[0])
    requires forall k :: 0 <= k < |value| ==> !IsSpace(value[k])
    ensures OptionAssigned(m, "platform" + (":" + (sign + value)))
         == m.(platform := if |value| <= 32 then value else value[..32])
  {
    PlatformIsKey();
    OptionScans("platform", sign + value, "");
    assert sign + value + "" == sign + value;
    if sign == "" { assert sign + value == value; } else { assert (sign + value)[1..] == value; }
  }

  /** An option without a colon, or with nothing in front of it or behind it, sets nothing. */
  lemma MalformedOptionSetsNothing(m: Mapping, option: string)
    requires ':' !in option || option[0] == ':' ||
             (exists n :: 0 <= n < |option| && option[n] == ':' && (forall k :: 0 <= k < n ==> option[k] != ':')
                          && forall k :: n < k < |option| ==> IsSpace(option[k]))
    ensures OptionAssigned(m, option) == m
  {
    var n := Until(option, ':');
    if ':' in option && option[0] != ':' {
      var c :| 0 <= c < |option| && option[c] == ':' && (forall k :: 0 <= k < c ==> option[k] != ':')
               && forall k :: c < k < |option| ==> IsSpace(option[k]);
      assert n == c;
      var t := option[n + 1..];
      SpaceRunIs(t, |t|);
      assert SkipSpaces(t) == [];
    }
  }

  // ---------------------------------------------------------------------------------------
  // The line

  /** Options are read from left to right; the last one needs no comma, and further commas are
      passed over. */
  lemma OptionsInOrder(m: Mapping, option: string, rest: string)
    requires option != "" && ',' !in option
    ensures OptionsAssigned(m, option + ("," + rest)) == OptionsAssigned(OptionAssigned(m, option), rest)
    ensures OptionsAssigned(m, option) == OptionAssigned(m, option)
    ensures OptionsAssigned(m, "," + rest) == OptionsAssigned(m, rest)
    ensures OptionsAssigned(m, "") == m
  {
    TokenBeforeComma(option, rest);
    LastToken(option);
    NothingAssigned(OptionAssigned(m, option));
    CommaPassedOver(rest);
  }

  lemma CommaPassedOver(rest: string)
    ensures NextToken("," + rest) == NextToken(rest)
  {
    var s := "," + rest;
    assert s[1..] == rest;
    assert s[CommaRun(s)..] == rest[CommaRun(rest)..];
  }

  /** The mapping that a line starts from: its two names, cut to 32 and 256 characters, and
      nothing set. */
  function Start(guid: string, name: string): Mapping
  {
    Mapping(if |guid| <= 32 then guid else guid[..32], if |name| <= 256 then name else name[..256], "",
            [false, false, false, false], ['\0', '\0', '\0', '\0', '\0', '\0'], seq(41, i => -1))
  }

  lemma StartIs(guid: string, name: string)
    ensures Blank(guid, name) == Start(guid, name)
  {
    assert Blank(guid, name).reverse == Start(guid, name).reverse;
    assert Blank(guid, name).half == Start(guid, name).half;
  }

  /** A line is its two names and then its options. */
  lemma NamesThenOptions(guid: string, name: string, options: string)
    requires NameOk(guid) && NameOk(name)
    ensures Parsed(guid + ("," + (name + ("," + options)))) == Some(OptionsAssigned(Start(guid, name), options))
  {
    TokenBeforeComma(guid, name + ("," + options));
    TokenBeforeComma(name, options);
    StartIs(guid, name);
  }

  /** Without both names there is no mapping. */
  lemma NoMappingWithoutNames(guid: string)
    requires NameOk(guid)
    ensures Parsed(guid) == None && Parsed("") == None
  {
    LastToken(guid);
  }
}
