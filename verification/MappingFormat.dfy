/** Controller mappings: the line that mapping_print writes and the one that mapping_parse reads
    (src/input/mapping.c). */
module MappingFormat {

  import opened CTypes
  import opened Text
  import opened Wrappers

  // ---------------------------------------------------------------------------------------
  // struct mapping

  /** The mapping indices, from abs_leftx to the last member before next, in their order. */
  type Indices = s: seq<int16> | |s| == 41 witness seq(41, i => 0)

  /** reverse_leftx, reverse_lefty, reverse_rightx, reverse_righty */
  type Reversals = s: seq<bool> | |s| == 4 witness seq(4, i => false)

  /** halfaxis_lefttrigger, righttrigger, dpright, dpleft, dpup, dpdown */
  type HalfAxes = s: seq<char> | |s| == 6 witness seq(6, i => '\0')

  datatype Mapping = Mapping(
    guid: string, name: string, platform: string,
    reverse: Reversals, half: HalfAxes, index: Indices)

  /** The character arrays of the structure hold at most so many characters. */
  predicate Fits(m: Mapping)
  {
    |m.guid| <= 32 && |m.name| <= 256 && |m.platform| <= 32
  }

  // ---------------------------------------------------------------------------------------
  // Keys

  /** The index that a key means for a button code. */
  function ButtonSlot(key: string): (slot: Option<nat>)
    ensures slot.Some? ==> 12 <= slot.value < 16 || 20 <= slot.value < 41
  {
    if key == "a" then Some(20)
    else if key == "y" then Some(22)
    else if key == "x" then Some(21)
    else if key == "b" then Some(23)
    else if key == "back" then Some(24)
    else if key == "start" then Some(25)
    else if key == "guide" then Some(26)
    else if key == "dpup" then Some(12)
    else if key == "dpdown" then Some(13)
    else if key == "dpleft" then Some(14)
    else if key == "dpright" then Some(15)
    else if key == "leftstick" then Some(27)
    else if key == "rightstick" then Some(28)
    else if key == "leftshoulder" then Some(29)
    else if key == "rightshoulder" then Some(30)
    else if key == "lefttrigger" then Some(39)
    else if key == "righttrigger" then Some(40)
    else if key == "misc1" then Some(31)
    else if key == "paddle1" then Some(32)
    else if key == "paddle2" then Some(33)
    else if key == "paddle3" then Some(34)
    else if key == "paddle4" then Some(35)
    else if key == "touchpad" then Some(36)
    else None
  }

  /** The index of a stick axis, which is also the number of its reversal. */
  function StickSlot(key: string): (slot: Option<nat>)
    ensures slot.Some? ==> slot.value < 4
  {
    if key == "leftx" then Some(0)
    else if key == "lefty" then Some(1)
    else if key == "rightx" then Some(2)
    else if key == "righty" then Some(3)
    else None
  }

  /** An axis that may be used by half: its index and the number of its half. */
  datatype HalfSlot = HalfSlot(slot: nat, half: nat)

  function HalfAxisSlot(key: string): (slot: Option<HalfSlot>)
    ensures slot.Some? ==> 12 <= slot.value.slot < 41 && slot.value.half < 6
  {
    if key == "lefttrigger" then Some(HalfSlot(37, 0))
    else if key == "righttrigger" then Some(HalfSlot(38, 1))
    else if key == "dpright" then Some(HalfSlot(16, 2))
    else if key == "dpleft" then Some(HalfSlot(17, 3))
    else if key == "dpup" then Some(HalfSlot(18, 4))
    else if key == "dpdown" then Some(HalfSlot(19, 5))
    else None
  }

  /** The index of a hat; its direction comes four indices later. */
  function HatIndex(key: string): (slot: Option<nat>)
    ensures slot.Some? ==> 4 <= slot.value < 8
  {
    if key == "dpright" then Some(4)
    else if key == "dpleft" then Some(5)
    else if key == "dpup" then Some(6)
    else if key == "dpdown" then Some(7)
    else None
  }

  // ---------------------------------------------------------------------------------------
  // Parsing

  datatype TokenScan = NoToken | Token(text: string, rest: string)

  function CommaRun(s: string): (n: nat)
    ensures n <= |s|
  {
    if s == "" || s[0] != ',' then 0 else 1 + CommaRun(s[1..])
  }

  /** strtok with "," */
  function NextToken(s: string): (t: TokenScan)
    ensures t.Token? ==> |t.rest| < |s| && t.text != "" && ',' !in t.text
  {
    var s := s[CommaRun(s)..];
    var n := Until(s, ',');
    if n == 0 then NoToken
    else Token(s[..n], if n < |s| then s[n + 1..] else "")
  }

  datatype KeyValue = KeyValue(key: string, value: string)

  /** sscanf with "%m[^:]:%ms", when both items are found. */
  function ScanOption(option: string): (pair: Option<KeyValue>)
    ensures pair.Some? ==> pair.value.value != ""
  {
    var n := Until(option, ':');
    if n == 0 || n == |option| then None
    else
      var t := SkipSpaces(option[n + 1..]);
      var w := WordRun(t);
      if w == 0 then None else Some(KeyValue(option[..n], t[..w]))
  }

  datatype Code = Button(n: int) | Axis(n: int, flag: char) | Hat(n: int, direction: int) | NoCode

  /** What follows the first number, by the letter in front of it. */
  function LetterCode(letter: char, n: int, rest: string): Code
  {
    if letter == 'b' then Button(n)
    else if letter == 'a' then Axis(n, if rest == "" then '\0' else rest[0])
    else if letter == 'h' && rest != "" && rest[0] == '.' then
      match ScanInt(rest[1..])
      case NoNumber => NoCode
      case Number(direction, _) => Hat(n, direction)
    else NoCode
  }

  /** sscanf with "b%d", with "a%d%c" and with "h%d.%d". */
  function ScanCode(value: string): Code
  {
    if value == "" then NoCode
    else match ScanInt(value[1..])
      case NoNumber => NoCode
      case Number(n, rest) => LetterCode(value[0], n, rest)
  }

  /** strncpy into a zeroed array with one more character. */
  function Truncated(s: string, n: nat): (t: string)
    ensures |t| <= n
  {
    if |s| <= n then s else s[..n]
  }

  predicate IsSign(c: char) { c == '-' || c == '+' }

  function WithIndex(m: Mapping, slot: nat, n: int): Mapping
    requires slot < 41
  {
    m.(index := m.index[slot := ToShort(n)])
  }

  function CodeAssigned(m: Mapping, key: string, code: Code, half: char): Mapping
  {
    match code
    case Button(n) =>
      if ButtonSlot(key).Some? then WithIndex(m, ButtonSlot(key).value, n) else m
    case Axis(n, flag) =>
      if StickSlot(key).Some? then
        var s := StickSlot(key).value;
        WithIndex(m, s, n).(reverse := m.reverse[s := flag == '~'])
      else if HalfAxisSlot(key).Some? then
        var s := HalfAxisSlot(key).value;
        WithIndex(m, s.slot, n).(half := m.half[s.half := half])
      else m
    case Hat(n, direction) =>
      if HatIndex(key).Some? then
        var s := HatIndex(key).value;
        WithIndex(WithIndex(m, s, n), s + 4, direction)
      else m
    case NoCode => m
  }

  /** One option of the line. */
  function OptionAssigned(m: Mapping, option: string): Mapping
  {
    match ScanOption(option)
    case None => m
    case Some(KeyValue(key, whole)) =>
      var half := if IsSign(whole[0]) then whole[0] else '\0';
      var value := if IsSign(whole[0]) then whole[1..] else whole;
      if key == "platform" then m.(platform := Truncated(value, 32))
      else CodeAssigned(m, key, ScanCode(value), half)
  }

  function OptionsAssigned(m: Mapping, line: string): Mapping
    decreases |line|
  {
    match NextToken(line)
    case NoToken => m
    case Token(option, rest) => OptionsAssigned(OptionAssigned(m, option), rest)
  }

  function Blank(guid: string, name: string): Mapping
  {
    Mapping(Truncated(guid, 32), Truncated(name, 256), "",
            seq(4, i => false), seq(6, i => '\0'), seq(41, i => -1))
  }

  /** mapping_parse */
  function Parsed(line: string): Option<Mapping>
  {
    match NextToken(line)
    case NoToken => None
    case Token(guid, rest) =>
      match NextToken(rest)
      case NoToken => None
      case Token(name, options) => Some(OptionsAssigned(Blank(guid, name), options))
  }

  // ---------------------------------------------------------------------------------------
  // Printing

  /** One line of mapping_print: the key it writes and the index it takes the code from; for a
      hat also the index of the direction. */
  datatype Item =
    | PrintBtn(key: string, slot: nat)
    | PrintAbs(key: string, slot: nat)
    | PrintHat(key: string, slot: nat, direction: nat)

  /** Everything mapping_print writes between the name and the platform, in its order. */
  const ITEMS: seq<Item> := [
    PrintBtn("a", 20), PrintBtn("b", 23), PrintBtn("x", 21), PrintBtn("y", 22),
    PrintBtn("start", 25), PrintBtn("guide", 26), PrintBtn("back", 24),
    PrintBtn("leftstick", 27), PrintBtn("rightstick", 28),
    PrintBtn("leftshoulder", 29), PrintBtn("rightshoulder", 30),
    PrintBtn("dpup", 12), PrintBtn("dpleft", 14), PrintBtn("dpdown", 13), PrintBtn("dpright", 15),
    PrintHat("dpup", 6, 10), PrintHat("dpleft", 5, 9),
    PrintHat("dpdown", 7, 11), PrintHat("dpright", 4, 8),
    PrintAbs("leftx", 0), PrintAbs("lefty", 1), PrintAbs("rightx", 2), PrintAbs("righty", 3),
    PrintAbs("lefttrigger", 37), PrintAbs("righttrigger", 38),
    PrintBtn("lefttrigger", 39), PrintBtn("righttrigger", 40), PrintBtn("misc1", 31),
    PrintBtn("paddle1", 32), PrintBtn("paddle2", 33), PrintBtn("paddle3", 34),
    PrintBtn("paddle4", 35), PrintBtn("touchpad", 36)
  ]

  /** A hat has its direction four indices later; the others are outside those indices, and
      outside the axes of the directional pad. */
  predicate InStruct(item: Item)
  {
    match item
    case PrintHat(_, slot, direction) => 4 <= slot < 8 && direction == slot + 4
    case _ => item.slot < 41 && !(4 <= item.slot < 12) && !(16 <= item.slot < 20)
  }

  /** printf("%d") of an index */
  function Decimal(m: Mapping, slot: nat): string
    requires slot < 41
  {
    PrintInt(m.index[slot] as int)
  }

  function ItemValue(m: Mapping, item: Item): string
    requires InStruct(item)
  {
    match item
    case PrintBtn(_, slot) => "b" + Decimal(m, slot)
    case PrintAbs(_, slot) => "a" + Decimal(m, slot)
    case PrintHat(_, slot, direction) => "h" + (Decimal(m, slot) + ("." + Decimal(m, direction)))
  }

  function ItemOption(m: Mapping, item: Item): string
    requires InStruct(item)
  {
    item.key + (":" + ItemValue(m, item))
  }

  function ItemText(m: Mapping, item: Item): string
    requires InStruct(item)
  {
    if m.index[item.slot] > -1 then ItemOption(m, item) + "," else ""
  }

  predicate AllInStruct(items: seq<Item>)
  {
    forall k :: 0 <= k < |items| ==> InStruct(items[k])
  }

  function ItemsText(m: Mapping, items: seq<Item>): string
    requires AllInStruct(items)
  {
    if items == [] then "" else ItemText(m, items[0]) + ItemsText(m, items[1..])
  }

  function PlatformText(platform: string): string
  {
    "platform" + (":" + (platform + "\n"))
  }

  /** What mapping_print writes, with its items and its platform as parameters. */
  function PrintedAs(m: Mapping, items: seq<Item>, platform: string): string
    requires AllInStruct(items)
  {
    m.guid + ("," + (m.name + ("," + (ItemsText(m, items) + PlatformText(platform)))))
  }

  // ---------------------------------------------------------------------------------------
  // Reading one printed item

  /** A field that a comma can end. */
  predicate NameOk(s: string)
  {
    s != "" && ',' !in s
  }

  predicate KeyText(key: string)
  {
    key != "" && forall k :: 0 <= k < |key| ==> key[k] != ':' && key[k] != ','
  }

  /** A mapping without anything that is not printed, as far as it is read. */
  function Plain(guid: string, name: string, index: Indices): Mapping
  {
    Mapping(guid, name, "", seq(4, i => false), seq(6, i => '\0'), index)
  }

  /** ix with what the item shows of m. */
  function Copied(ix: Indices, m: Mapping, item: Item): Indices
    requires InStruct(item)
  {
    if m.index[item.slot] <= -1 then ix
    else match item
      case PrintHat(_, slot, direction) =>
        ix[slot := m.index[slot]][direction := m.index[direction]]
      case _ => ix[item.slot := m.index[item.slot]]
  }

  lemma OptionScans(key: string, value: string, rest: string)
    requires KeyText(key)
    requires value != "" && forall k :: 0 <= k < |value| ==> !IsSpace(value[k])
    requires rest == "" || IsSpace(rest[0])
    ensures ScanOption(key + (":" + (value + rest))) == Some(KeyValue(key, value))
  {
    var text := value + rest;
    var option := key + (":" + text);
    UntilIs(option, ':', |key|);
    assert option[..|key|] == key && option[|key| + 1..] == text;
    NoSpaceToSkip(text);
    WordRunIs(text, |value|);
    assert text[..|value|] == value;
  }

  lemma NumberScans(m: Mapping, slot: nat, rest: string)
    requires slot < 41 && (rest == "" || !IsDigit(rest[0]))
    ensures ScanInt(Decimal(m, slot) + rest) == Number(m.index[slot] as int, rest)
  {
    IntReadBack(m.index[slot] as int, rest);
  }

  function ItemCode(m: Mapping, item: Item): Code
    requires InStruct(item)
  {
    match item
    case PrintBtn(_, slot) => Button(m.index[slot] as int)
    case PrintAbs(_, slot) => Axis(m.index[slot] as int, '\0')
    case PrintHat(_, slot, direction) => Hat(m.index[slot] as int, m.index[direction] as int)
  }

  lemma CodeScans(letter: char, s: string, n: int, rest: string)
    requires ScanInt(s) == Number(n, rest)
    ensures ScanCode([letter] + s) == LetterCode(letter, n, rest)
  {
    assert ([letter] + s)[1..] == s;
  }

  lemma DirectionScans(n: int, t: string, direction: int)
    requires ScanInt(t) == Number(direction, "")
    ensures LetterCode('h', n, "." + t) == Hat(n, direction)
  {
    assert ("." + t)[1..] == t;
  }

  lemma ItemScans(m: Mapping, item: Item)
    requires InStruct(item)
    ensures ScanCode(ItemValue(m, item)) == ItemCode(m, item)
  {
    var digits := Decimal(m, item.slot);
    assert digits + "" == digits;
    match item
    case PrintBtn(_, slot) =>
      NumberScans(m, slot, "");
      CodeScans('b', digits, m.index[slot] as int, "");
    case PrintAbs(_, slot) =>
      NumberScans(m, slot, "");
      CodeScans('a', digits, m.index[slot] as int, "");
    case PrintHat(_, slot, direction) =>
      var t := Decimal(m, direction);
      assert t + "" == t;
      NumberScans(m, slot, "." + t);
      NumberScans(m, direction, "");
      CodeScans('h', digits + ("." + t), m.index[slot] as int, "." + t);
      DirectionScans(m.index[slot] as int, t, m.index[direction] as int);
  }

  lemma ItemValueChars(m: Mapping, item: Item)
    requires InStruct(item)
    ensures var v := ItemValue(m, item);
      v != "" && !IsSign(v[0]) && (forall k :: 0 <= k < |v| ==> !IsSpace(v[k])) && ',' !in v
  {
    PrintIntChars(m.index[item.slot] as int);
    if item.PrintHat? { PrintIntChars(m.index[item.direction] as int); }
  }

  lemma StickCopies(p: Mapping, key: string, slot: nat, n: int16)
    requires StickSlot(key) == Some(slot) && p.reverse == seq(4, i => false)
    ensures CodeAssigned(p, key, Axis(n as int, '\0'), '\0') == p.(index := p.index[slot := n])
  {
    assert p.reverse[slot := false] == p.reverse;
  }

  lemma TriggerCopies(p: Mapping, key: string, slot: nat, half: nat, n: int16)
    requires StickSlot(key) == None && HalfAxisSlot(key) == Some(HalfSlot(slot, half))
    requires p.half == seq(6, i => '\0')
    ensures CodeAssigned(p, key, Axis(n as int, '\0'), '\0') == p.(index := p.index[slot := n])
  {
    assert p.half[half := '\0'] == p.half;
  }

  /** The printer's key means, to the parser, the index it was printed from. */
  predicate Agrees(item: Item)
  {
    match item
    case PrintBtn(key, slot) => ButtonSlot(key) == Some(slot)
    case PrintAbs(key, slot) =>
      StickSlot(key) == Some(slot) ||
      (StickSlot(key) == None && HalfAxisSlot(key).Some? && HalfAxisSlot(key).value.slot == slot)
    case PrintHat(key, slot, _) => HatIndex(key) == Some(slot)
  }

  lemma CodeCopies(guid: string, name: string, ix: Indices, m: Mapping, item: Item)
    requires InStruct(item) && Agrees(item) && m.index[item.slot] > -1
    ensures CodeAssigned(Plain(guid, name, ix), item.key, ItemCode(m, item), '\0')
         == Plain(guid, name, Copied(ix, m, item))
  {
    var p := Plain(guid, name, ix);
    if item.PrintAbs? {
      if StickSlot(item.key).Some? {
        StickCopies(p, item.key, item.slot, m.index[item.slot]);
      } else {
        TriggerCopies(p, item.key, item.slot, HalfAxisSlot(item.key).value.half, m.index[item.slot]);
      }
    }
  }

  predicate ReadsAs(guid: string, name: string, ix: Indices, m: Mapping, item: Item)
    requires InStruct(item)
  {
    m.index[item.slot] > -1 ==>
      OptionAssigned(Plain(guid, name, ix), ItemOption(m, item)) == Plain(guid, name, Copied(ix, m, item))
  }

  /** The parser reads a printed item as what was printed, whatever it has read before. */
  ghost predicate ReadBack(item: Item)
  {
    InStruct(item) && KeyText(item.key) &&
    forall guid, name, ix, m :: ReadsAs(guid, name, ix, m, item)
  }

  lemma AgreeingReadsBack(item: Item)
    requires InStruct(item) && KeyText(item.key) && item.key != "platform" && Agrees(item)
    ensures ReadBack(item)
  {
    forall guid, name, ix: Indices, m: Mapping
      ensures ReadsAs(guid, name, ix, m, item)
    {
      if m.index[item.slot] > -1 {
        ItemValueChars(m, item);
        OptionScans(item.key, ItemValue(m, item), "");
        assert ItemValue(m, item) + "" == ItemValue(m, item);
        ItemScans(m, item);
        CodeCopies(guid, name, ix, m, item);
      }
    }
  }

  lemma MarkedCodeScans(n: int, mark: string)
    requires mark == "" || !IsDigit(mark[0])
    ensures ScanCode("a" + (PrintInt(n) + mark)) == Axis(n, if mark == "" then '\0' else mark[0])
  {
    IntReadBack(n, mark);
    CodeScans('a', PrintInt(n) + mark, n, mark);
  }

  lemma MarkedCodeChars(n: int, mark: string)
    requires mark == "" || (|mark| == 1 && !IsSpace(mark[0]))
    ensures var value := "a" + (PrintInt(n) + mark);
            value != "" && !IsSign(value[0]) && forall k :: 0 <= k < |value| ==> !IsSpace(value[k])
  {
    PrintIntChars(n);
    var value := "a" + (PrintInt(n) + mark);
    forall k | 0 <= k < |value| ensures !IsSpace(value[k]) {
      if 0 < k <= |PrintInt(n)| { assert value[k] == PrintInt(n)[k - 1]; }
    }
  }

  lemma SignStripped(m: Mapping, key: string, sign: string, value: string)
    requires KeyText(key) && key != "platform" && value != "" && !IsSign(value[0])
    requires sign == "" || (|sign| == 1 && IsSign(sign[0]))
    requires forall k :: 0 <= k < |value| ==> !IsSpace(value[k])
    ensures OptionAssigned(m, key + (":" + (sign + value)))
         == CodeAssigned(m, key, ScanCode(value), if sign == "" then '\0' else sign[0])
  {
    var whole := sign + value;
    OptionScans(key, whole, "");
    assert whole + "" == whole;
    if sign == "" {
      assert whole == value;
    } else {
      assert whole[1..] == value;
    }
  }

  /** An axis option that no mapping prints: an optional sign in front of the code asks for half
      the axis, a mark behind it says whether a stick is reversed. */
  lemma MarkedAxisReads(m: Mapping, key: string, sign: string, n: int, mark: string)
    requires KeyText(key) && key != "platform"
    requires sign == "" || (|sign| == 1 && IsSign(sign[0]))
    requires mark == "" || (|mark| == 1 && !IsSpace(mark[0]) && !IsDigit(mark[0]))
    ensures var half := if sign == "" then '\0' else sign[0];
            var flag := if mark == "" then '\0' else mark[0];
            OptionAssigned(m, key + (":" + (sign + ("a" + (PrintInt(n) + mark)))))
            == CodeAssigned(m, key, Axis(n, flag), half)
  {
    MarkedCodeScans(n, mark);
    MarkedCodeChars(n, mark);
    SignStripped(m, key, sign, "a" + (PrintInt(n) + mark));
  }

  // ---------------------------------------------------------------------------------------
  // Reading the whole line

  lemma CommaRunIsZero(s: string)
    requires s != "" && s[0] != ','
    ensures CommaRun(s) == 0
  {
  }

  lemma TokenBeforeComma(word: string, rest: string)
    requires NameOk(word)
    ensures NextToken(word + ("," + rest)) == Token(word, rest)
  {
    var s := word + ("," + rest);
    CommaRunIsZero(s);
    UntilIs(s, ',', |word|);
    assert s[0..] == s && s[..|word|] == word && s[|word| + 1..] == rest;
  }

  lemma LastToken(word: string)
    requires NameOk(word)
    ensures NextToken(word) == Token(word, "")
  {
    CommaRunIsZero(word);
    UntilIs(word, ',', |word|);
    assert word[0..] == word && word[..|word|] == word;
  }

  ghost predicate AllReadBack(items: seq<Item>)
  {
    forall k :: 0 <= k < |items| ==> ReadBack(items[k])
  }

  function CopiedAll(ix: Indices, m: Mapping, items: seq<Item>): Indices
    requires AllInStruct(items)
    decreases |items|
  {
    if items == [] then ix else CopiedAll(Copied(ix, m, items[0]), m, items[1..])
  }

  lemma OptionIsName(key: string, value: string)
    requires KeyText(key) && ',' !in value
    ensures NameOk(key + (":" + value))
  {
  }

  lemma ItemToken(m: Mapping, item: Item, rest: string)
    requires ReadBack(item) && m.index[item.slot] > -1
    ensures NextToken(ItemText(m, item) + rest) == Token(ItemOption(m, item), rest)
  {
    var word := ItemOption(m, item);
    ItemValueChars(m, item);
    OptionIsName(item.key, ItemValue(m, item));
    TokenBeforeComma(word, rest);
    assert word + "," + rest == word + ("," + rest);
  }

  lemma ItemReadBack(
    guid: string, name: string, ix: Indices, m: Mapping, item: Item, rest: string)
    requires ReadBack(item)
    ensures OptionsAssigned(Plain(guid, name, ix), ItemText(m, item) + rest)
         == OptionsAssigned(Plain(guid, name, Copied(ix, m, item)), rest)
  {
    if m.index[item.slot] > -1 {
      ItemToken(m, item, rest);
      assert ReadsAs(guid, name, ix, m, item);
    } else {
      assert ItemText(m, item) + rest == rest;
    }
  }

  lemma {:induction false} ItemsReadBack(
    guid: string, name: string, ix: Indices, m: Mapping, items: seq<Item>, tail: string)
    requires AllReadBack(items)
    ensures OptionsAssigned(Plain(guid, name, ix), ItemsText(m, items) + tail)
         == OptionsAssigned(Plain(guid, name, CopiedAll(ix, m, items)), tail)
    decreases |items|
  {
    if items == [] {
      assert ItemsText(m, items) + tail == tail;
    } else {
      var text, rest := ItemText(m, items[0]), ItemsText(m, items[1..]);
      AppendAssociates(text, rest, tail);
      ItemReadBack(guid, name, ix, m, items[0], rest + tail);
      ItemsReadBack(guid, name, Copied(ix, m, items[0]), m, items[1..], tail);
    }
  }

  /** The last option names the platform. */
  predicate SaysPlatform(tail: string, platform: string)
  {
    NameOk(tail) && ScanOption(tail) == Some(KeyValue("platform", platform))
  }

  predicate PlatformOk(platform: string)
  {
    platform != "" && |platform| <= 32 && !IsSign(platform[0]) &&
    forall k :: 0 <= k < |platform| ==> !IsSpace(platform[k]) && platform[k] != ','
  }

  lemma TailSaysPlatform(platform: string)
    requires PlatformOk(platform)
    ensures SaysPlatform(PlatformText(platform), platform)
  {
    PlatformIsKey();
    OptionIsName("platform", platform + "\n");
    OptionScans("platform", platform, "\n");
  }

  lemma PlatformIsKey()
    ensures KeyText("platform")
  {
  }

  lemma NothingAssigned(m: Mapping)
    ensures OptionsAssigned(m, "") == m
  {
  }

  lemma PlatformAssigned(m: Mapping, option: string, platform: string)
    requires SaysPlatform(option, platform) && PlatformOk(platform)
    ensures OptionAssigned(m, option) == m.(platform := platform)
  {
  }

  lemma PlatformReadBack(m: Mapping, tail: string, platform: string)
    requires SaysPlatform(tail, platform) && PlatformOk(platform)
    ensures OptionsAssigned(m, tail) == m.(platform := platform)
  {
    LastToken(tail);
    PlatformAssigned(m, tail, platform);
    NothingAssigned(m.(platform := platform));
  }

  // ---------------------------------------------------------------------------------------
  // What survives

  /** The index that decides whether index s is printed: for a direction, the hat's. */
  function Guard(s: nat): nat
  {
    if 8 <= s < 12 then s - 4 else s
  }

  /** Index s as far as mapping_print shows it.  Indices 16 to 19, the axes of the directional
      pad, are never printed. */
  function KeptAt(m: Mapping, s: nat): int16
    requires s < 41
  {
    if !(16 <= s < 20) && m.index[Guard(s)] > -1 then m.index[s] else -1
  }

  /** What is left of a mapping: no reversals, no half axes, no axes of the directional pad, no
      direction of an absent hat, -1 for every negative code, and the platform it is printed for. */
  function KeptOn(m: Mapping, platform: string): Mapping
  {
    Mapping(m.guid, m.name, platform, seq(4, i => false), seq(6, i => '\0'), KeptIndex(m))
  }

  function KeptIndex(m: Mapping): Indices
  {
    seq(41, s requires 0 <= s < 41 => KeptAt(m, s))
  }

  predicate Writes(item: Item, s: nat)
  {
    item.slot == s || (item.PrintHat? && item.direction == s)
  }

  predicate WrittenBy(items: seq<Item>, s: nat)
  {
    exists k :: 0 <= k < |items| && Writes(items[k], s)
  }

  lemma CopiedOne(ix: Indices, m: Mapping, item: Item, s: nat)
    requires s < 41 && InStruct(item)
    ensures Copied(ix, m, item)[s]
         == if Writes(item, s) && m.index[Guard(s)] > -1 then m.index[s] else ix[s]
  {
  }

  lemma {:induction false} CopiedAt(ix: Indices, m: Mapping, items: seq<Item>, s: nat)
    requires s < 41 && AllReadBack(items)
    ensures CopiedAll(ix, m, items)[s]
         == if WrittenBy(items, s) && m.index[Guard(s)] > -1 then m.index[s] else ix[s]
    decreases |items|
  {
    if items != [] {
      CopiedOne(ix, m, items[0], s);
      CopiedAt(Copied(ix, m, items[0]), m, items[1..], s);
      assert WrittenBy(items, s) <==> Writes(items[0], s) || WrittenBy(items[1..], s);
    }
  }

  /** The items write every index but the axes of the directional pad. */
  predicate Cover(items: seq<Item>)
  {
    forall s :: 0 <= s < 41 ==> (WrittenBy(items, s) <==> !(16 <= s < 20))
  }

  lemma CopiedAllIsKept(m: Mapping, items: seq<Item>)
    requires AllReadBack(items) && Cover(items)
    ensures CopiedAll(seq(41, i => -1), m, items) == KeptIndex(m)
  {
    forall s | 0 <= s < 41
      ensures CopiedAll(seq(41, i => -1), m, items)[s] == KeptIndex(m)[s]
    {
      CopiedAt(seq(41, i => -1), m, items, s);
    }
  }

  lemma ParsedIs(guid: string, name: string, options: string)
    requires NameOk(guid) && NameOk(name) && |guid| <= 32 && |name| <= 256
    ensures Parsed(guid + ("," + (name + ("," + options))))
         == Some(OptionsAssigned(Plain(guid, name, seq(41, i => -1)), options))
  {
    TokenBeforeComma(guid, name + ("," + options));
    TokenBeforeComma(name, options);
  }

  lemma ReadsKept(m: Mapping, items: seq<Item>, platform: string)
    requires AllReadBack(items) && Cover(items) && PlatformOk(platform)
    requires Fits(m) && NameOk(m.guid) && NameOk(m.name)
    ensures Parsed(PrintedAs(m, items, platform)) == Some(KeptOn(m, platform))
  {
    var tail := PlatformText(platform);
    var blank: Indices := seq(41, i => -1);
    ParsedIs(m.guid, m.name, ItemsText(m, items) + tail);
    ItemsReadBack(m.guid, m.name, blank, m, items, tail);
    TailSaysPlatform(platform);
    PlatformReadBack(Plain(m.guid, m.name, CopiedAll(blank, m, items)), tail, platform);
    CopiedAllIsKept(m, items);
  }

  lemma CodeKeepsNames(m: Mapping, key: string, code: Code, half: char)
    ensures CodeAssigned(m, key, code, half).guid == m.guid
    ensures CodeAssigned(m, key, code, half).name == m.name
  {
  }

  lemma OptionKeepsNames(m: Mapping, option: string)
    ensures OptionAssigned(m, option).guid == m.guid && OptionAssigned(m, option).name == m.name
  {
    var scanned := ScanOption(option);
    if scanned.Some? {
      var key, whole := scanned.value.key, scanned.value.value;
      var half := if IsSign(whole[0]) then whole[0] else '\0';
      CodeKeepsNames(m, key, ScanCode(if IsSign(whole[0]) then whole[1..] else whole), half);
    }
  }

  lemma {:induction false} OptionsKeepNames(m: Mapping, line: string)
    ensures OptionsAssigned(m, line).guid == m.guid && OptionsAssigned(m, line).name == m.name
    decreases |line|
  {
    var token := NextToken(line);
    if token.Token? {
      OptionKeepsNames(m, token.text);
      OptionsKeepNames(OptionAssigned(m, token.text), token.rest);
    }
  }

  lemma TruncatedIsName(s: string, n: nat)
    requires NameOk(s) && n > 0
    ensures NameOk(Truncated(s, n))
  {
  }

  /** Whatever the parser reads has names that a comma can end. */
  lemma ParsedNames(line: string)
    ensures Parsed(line).Some? ==> NameOk(Parsed(line).value.guid) && NameOk(Parsed(line).value.name)
  {
    if Parsed(line).Some? {
      var guid := NextToken(line);
      var name := NextToken(guid.rest);
      OptionsKeepNames(Blank(guid.text, name.text), name.rest);
      TruncatedIsName(guid.text, 32);
      TruncatedIsName(name.text, 256);
    }
  }

  // ---------------------------------------------------------------------------------------
  // The items of mapping_print

  lemma ItemsReadBackFrom0()
    ensures forall k :: 0 <= k < 4 ==> ReadBack(ITEMS[k])
  {
    forall k | 0 <= k < 4 ensures ReadBack(ITEMS[k]) { AgreeingReadsBack(ITEMS[k]); }
  }

  lemma ItemsReadBackFrom4()
    ensures forall k :: 4 <= k < 8 ==> ReadBack(ITEMS[k])
  {
    forall k | 4 <= k < 8 ensures ReadBack(ITEMS[k]) { AgreeingReadsBack(ITEMS[k]); }
  }

  lemma ItemsReadBackFrom8()
    ensures forall k :: 8 <= k < 12 ==> ReadBack(ITEMS[k])
  {
    forall k | 8 <= k < 12 ensures ReadBack(ITEMS[k]) { AgreeingReadsBack(ITEMS[k]); }
  }

  lemma ItemsReadBackFrom12()
    ensures forall k :: 12 <= k < 15 ==> ReadBack(ITEMS[k])
  {
    forall k | 12 <= k < 15 ensures ReadBack(ITEMS[k]) { AgreeingReadsBack(ITEMS[k]); }
  }

  lemma ItemsReadBackFrom15()
    ensures forall k :: 15 <= k < 19 ==> ReadBack(ITEMS[k])
  {
    forall k | 15 <= k < 19 ensures ReadBack(ITEMS[k]) { AgreeingReadsBack(ITEMS[k]); }
  }

  lemma ItemsReadBackFrom19()
    ensures forall k :: 19 <= k < 25 ==> ReadBack(ITEMS[k])
  {
    forall k | 19 <= k < 25 ensures ReadBack(ITEMS[k]) { AgreeingReadsBack(ITEMS[k]); }
  }

  lemma ItemsReadBackFrom25()
    ensures forall k :: 25 <= k < 29 ==> ReadBack(ITEMS[k])
  {
    forall k | 25 <= k < 29 ensures ReadBack(ITEMS[k]) { AgreeingReadsBack(ITEMS[k]); }
  }

  lemma ItemsReadBackFrom29()
    ensures forall k :: 29 <= k < 33 ==> ReadBack(ITEMS[k])
  {
    forall k | 29 <= k < 33 ensures ReadBack(ITEMS[k]) { AgreeingReadsBack(ITEMS[k]); }
  }

  /** What the printer calls an item is what the parser knows it by. */
  lemma AllItemsReadBack()
    ensures AllReadBack(ITEMS)
  {
    ItemsReadBackFrom0();
    ItemsReadBackFrom4();
    ItemsReadBackFrom8();
    ItemsReadBackFrom12();
    ItemsReadBackFrom15();
    ItemsReadBackFrom19();
    ItemsReadBackFrom25();
    ItemsReadBackFrom29();
  }

  lemma HatItemsWrite(s: nat)
    requires 4 <= s < 12
    ensures WrittenBy(ITEMS, s)
  {
    assert Writes(ITEMS[18], 4); assert Writes(ITEMS[16], 5); assert Writes(ITEMS[15], 6);
    assert Writes(ITEMS[17], 7); assert Writes(ITEMS[18], 8); assert Writes(ITEMS[16], 9);
    assert Writes(ITEMS[15], 10); assert Writes(ITEMS[17], 11);
  }

  lemma LowItemsWrite(s: nat)
    requires s < 4 || 12 <= s < 16
    ensures WrittenBy(ITEMS, s)
  {
    assert Writes(ITEMS[19], 0); assert Writes(ITEMS[20], 1); assert Writes(ITEMS[21], 2);
    assert Writes(ITEMS[22], 3); assert Writes(ITEMS[11], 12); assert Writes(ITEMS[13], 13);
    assert Writes(ITEMS[12], 14); assert Writes(ITEMS[14], 15);
  }

  lemma HighItemsWrite(s: nat)
    requires 20 <= s < 41
    ensures WrittenBy(ITEMS, s)
  {
    assert Writes(ITEMS[0], 20); assert Writes(ITEMS[2], 21); assert Writes(ITEMS[3], 22);
    assert Writes(ITEMS[1], 23); assert Writes(ITEMS[6], 24); assert Writes(ITEMS[4], 25);
    assert Writes(ITEMS[5], 26); assert Writes(ITEMS[7], 27); assert Writes(ITEMS[8], 28);
    assert Writes(ITEMS[9], 29); assert Writes(ITEMS[10], 30); assert Writes(ITEMS[27], 31);
    assert Writes(ITEMS[28], 32); assert Writes(ITEMS[29], 33); assert Writes(ITEMS[30], 34);
    assert Writes(ITEMS[31], 35); assert Writes(ITEMS[32], 36); assert Writes(ITEMS[23], 37);
    assert Writes(ITEMS[24], 38); assert Writes(ITEMS[25], 39); assert Writes(ITEMS[26], 40);
  }

  lemma ItemsCover()
    ensures Cover(ITEMS)
  {
    AllItemsReadBack();
    forall s | 0 <= s < 41 && !(16 <= s < 20)
      ensures WrittenBy(ITEMS, s)
    {
      if 4 <= s < 12 { HatItemsWrite(s); } else if s < 16 { LowItemsWrite(s); } else { HighItemsWrite(s); }
    }
  }

  // ---------------------------------------------------------------------------------------
  // The round trip

  /** mapping_print */
  function Printed(m: Mapping): string
  {
    AllItemsReadBack();
    PrintedAs(m, ITEMS, "Linux")
  }

  function Kept(m: Mapping): Mapping
  {
    KeptOn(m, "Linux")
  }

  /** Reading back what mapping_print wrote gives the mapping with only the parts defaulted that
      are not printed, exactly when neither name is empty or has a comma in it. */
  lemma PrintedReadsBackIff(m: Mapping)
    requires Fits(m)
    ensures Parsed(Printed(m)) == Some(Kept(m)) <==> NameOk(m.guid) && NameOk(m.name)
  {
    if NameOk(m.guid) && NameOk(m.name) {
      PrintedReadsBack(m);
    } else {
      ParsedNames(Printed(m));
    }
  }

  lemma PrintedReadsBack(m: Mapping)
    requires Fits(m) && NameOk(m.guid) && NameOk(m.name)
    ensures Parsed(Printed(m)) == Some(Kept(m))
  {
    AllItemsReadBack();
    ItemsCover();
    ReadsKept(m, ITEMS, "Linux");
  }

  /** A mapping in which nothing is set that mapping_print does not show. */
  predicate ShownInFull(m: Mapping)
  {
    m.platform == "Linux" &&
    (forall i :: 0 <= i < 4 ==> !m.reverse[i]) &&
    (forall i :: 0 <= i < 6 ==> m.half[i] == '\0') &&
    forall s :: 0 <= s < 41 ==> ShownAt(m, s)
  }

  predicate ShownAt(m: Mapping, s: nat)
    requires s < 41
  {
    if 16 <= s < 20 then m.index[s] == -1
    else if 8 <= s < 12 then m.index[s - 4] == -1 ==> m.index[s] == -1
    else m.index[s] >= -1
  }

  lemma KeptIsSameIff(m: Mapping)
    ensures Kept(m) == m <==> ShownInFull(m)
  {
    var kept := KeptIndex(m);
    if ShownInFull(m) {
      forall s | 0 <= s < 41 ensures kept[s] == m.index[s]
      {
        assert ShownAt(m, s) && ShownAt(m, Guard(s));
      }
      assert kept == m.index && Kept(m).reverse == m.reverse && Kept(m).half == m.half;
    }
    if Kept(m) == m {
      forall s | 0 <= s < 41 ensures ShownAt(m, s)
      {
        assert kept[s] == KeptAt(m, s) && kept[Guard(s)] == KeptAt(m, Guard(s));
      }
      assert forall i :: 0 <= i < 4 ==> m.reverse[i] == Kept(m).reverse[i];
      assert forall i :: 0 <= i < 6 ==> m.half[i] == Kept(m).half[i];
    }
  }

  /** The mapping itself comes back exactly when its names allow it and nothing is set that is
      not printed. */
  lemma PrintedReadsBackUnchangedIff(m: Mapping)
    requires Fits(m)
    ensures Parsed(Printed(m)) == Some(m)
       <==> NameOk(m.guid) && NameOk(m.name) && ShownInFull(m)
  {
    KeptIsSameIff(m);
    if NameOk(m.guid) && NameOk(m.name) {
      PrintedReadsBack(m);
    } else {
      ParsedNames(Printed(m));
    }
  }

  lemma KeptItemText(m: Mapping, platform: string, item: Item)
    requires InStruct(item)
    ensures ItemText(KeptOn(m, platform), item) == ItemText(m, item)
  {
    var kept := KeptIndex(m);
    assert kept[item.slot] == KeptAt(m, item.slot);
    if m.index[item.slot] > -1 && item.PrintHat? {
      assert kept[item.direction] == KeptAt(m, item.direction) == m.index[item.direction];
    }
  }

  lemma {:induction false} KeptItemsText(m: Mapping, platform: string, items: seq<Item>)
    requires AllInStruct(items)
    ensures ItemsText(KeptOn(m, platform), items) == ItemsText(m, items)
    decreases |items|
  {
    if items != [] {
      KeptItemText(m, platform, items[0]);
      KeptItemsText(m, platform, items[1..]);
    }
  }

  /** What is not kept is not printed either. */
  lemma KeptPrintsAlike(m: Mapping)
    ensures Printed(Kept(m)) == Printed(m)
  {
    AllItemsReadBack();
    KeptItemsText(m, "Linux", ITEMS);
  }

  /** Printing, parsing and printing again gives the same text. */
  lemma PrintParsePrint(m: Mapping)
    requires Fits(m) && NameOk(m.guid) && NameOk(m.name)
    ensures Parsed(Printed(m)).Some? && Printed(Parsed(Printed(m)).value) == Printed(m)
  {
    PrintedReadsBack(m);
    KeptPrintsAlike(m);
  }

  // ---------------------------------------------------------------------------------------
  // The program

  /** struct mapping while it is filled in. */
  class MappingStruct {
    var guid: string
    var name: string
    var platform: string
    var reverse: Reversals
    var half: HalfAxes
    var index: Indices

    ghost function View(): Mapping
      reads this
    {
      Mapping(guid, name, platform, reverse, half, index)
    }

    /** calloc, strncpy of the names, memset of the indices */
    constructor (guid: string, name: string)
      ensures View() == Blank(guid, name)
    {
      this.guid, this.name, platform := Truncated(guid, 32), Truncated(name, 256), "";
      reverse, half := seq(4, i => false), seq(6, i => '\0');
      index := seq(41, i => -1);
    }

    method AssignCode(key: string, code: Code, halfAxis: char)
      modifies this
      ensures View() == CodeAssigned(old(View()), key, code, halfAxis)
    {
      match code
      case Button(n) =>
        var slot := ButtonSlot(key);
        if slot.Some? { index := index[slot.value := ToShort(n)]; }
      case Axis(n, flag) =>
        var stick, trigger := StickSlot(key), HalfAxisSlot(key);
        if stick.Some? {
          index := index[stick.value := ToShort(n)];
          reverse := reverse[stick.value := flag == '~'];
        } else if trigger.Some? {
          index := index[trigger.value.slot := ToShort(n)];
          half := half[trigger.value.half := halfAxis];
        }
      case Hat(n, direction) =>
        var slot := HatIndex(key);
        if slot.Some? {
          index := index[slot.value := ToShort(n)];
          index := index[slot.value + 4 := ToShort(direction)];
        }
      case NoCode =>
    }

    method AssignOption(option: string)
      modifies this
      ensures View() == OptionAssigned(old(View()), option)
    {
      match ScanOption(option)
      case None =>
      case Some(KeyValue(key, whole)) =>
        var value, halfAxis := whole, '\0';
        if IsSign(value[0]) {
          halfAxis := value[0];
          value := value[1..];
        }
        if key == "platform" {
          platform := Truncated(value, 32);
        } else {
          AssignCode(key, ScanCode(value), halfAxis);
        }
    }
  }

  /** mapping_parse */
  method Parse(line: string) returns (result: Option<Mapping>)
    ensures result == Parsed(line)
  {
    var guid := NextToken(line);
    if guid.NoToken? { return None; }
    var name := NextToken(guid.rest);
    if name.NoToken? { return None; }
    var map' := new MappingStruct(guid.text, name.text);
    var rest := name.rest;
    var option := NextToken(rest);
    while option.Token?
      invariant option == NextToken(rest)
      invariant OptionsAssigned(map'.View(), rest) == OptionsAssigned(Blank(guid.text, name.text), name.rest)
      decreases |rest|
    {
      map'.AssignOption(option.text);
      rest := option.rest;
      option := NextToken(rest);
    }
    return Some(Mapping(map'.guid, map'.name, map'.platform, map'.reverse, map'.half, map'.index));
  }

  lemma ItemsTextFrom(m: Mapping, items: seq<Item>, i: nat)
    requires AllInStruct(items) && i < |items|
    ensures ItemsText(m, items[i..]) == ItemText(m, items[i]) + ItemsText(m, items[i + 1..])
  {
    assert items[i..][1..] == items[i + 1..];
  }

  /** print_btn, print_abs and print_hat */
  method PrintItem(m: Mapping, item: Item) returns (text: string)
    requires InStruct(item)
    ensures text == ItemText(m, item)
  {
    text := "";
    if m.index[item.slot] > -1 { text := ItemOption(m, item) + ","; }
  }

  method PrintItems(m: Mapping, items: seq<Item>) returns (text: string)
    requires AllInStruct(items)
    ensures text == ItemsText(m, items)
  {
    text := "";
    assert items[0..] == items;
    for i := 0 to |items|
      invariant text + ItemsText(m, items[i..]) == ItemsText(m, items)
    {
      var next := PrintItem(m, items[i]);
      ItemsTextFrom(m, items, i);
      AppendAssociates(text, next, ItemsText(m, items[i + 1..]));
      text := text + next;
    }
  }

  lemma AppendAssociates(a: string, b: string, c: string)
    ensures a + b + c == a + (b + c)
  {
  }

  /** mapping_print */
  method Print(m: Mapping) returns (text: string)
    ensures text == Printed(m)
  {
    AllItemsReadBack();
    var items := PrintItems(m, ITEMS);
    text := m.guid + ("," + (m.name + ("," + (items + PlatformText("Linux")))));
  }
}
