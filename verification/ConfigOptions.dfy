/** Which lines of a configuration file count, and what each key does to the configuration, without
    the option table and its codes (src/config.c). */
module ConfigOptions {

  import opened ConfigFile
  import opened Text
  import opened Wrappers

  // ---------------------------------------------------------------------------------------
  // Keys

  /** What the table needs to hold for these keys; its own literals stay out of sight. */
  predicate KeysOk(options: seq<LongOption>)
  {
    && TableOk(options)
    && Has(options, 0, LongOption("720", false, 'a'))
    && Has(options, 1, LongOption("1080", false, 'b'))
    && Has(options, 2, LongOption("4k", false, '0'))
    && Has(options, 10, LongOption("nosops", false, 'l'))
  }

  lemma OnlyNamedFirst(k: nat)
    requires k < 3
    ensures OnlyNamed(LONG_OPTIONS, k)
  {
  }

  lemma OnlyNamed10()
    ensures OnlyNamed(LONG_OPTIONS, 10)
  {
  }

  lemma KeysAreOk()
    ensures KeysOk(LONG_OPTIONS)
  {
    TableIsOk();
    OnlyNamedFirst(0);
    OnlyNamedFirst(1);
    OnlyNamedFirst(2);
    OnlyNamed10();
    FlagPlaces();
  }

  lemma FlagPlaces()
    ensures LONG_OPTIONS[0] == LongOption("720", false, 'a') && LONG_OPTIONS[1] == LongOption("1080", false, 'b')
    ensures LONG_OPTIONS[2] == LongOption("4k", false, '0') && LONG_OPTIONS[10] == LongOption("nosops", false, 'l')
  {
  }

  lemma OneKey(options: seq<LongOption>, c: Config, value: string, k: nat, o: LongOption)
    requires Has(options, k, o) && o.name != "address" && o.name != "sops"
    ensures Assign(options, c, o.name, value)
         == if o.takesValue || value == "true" then Argument(c, o.code, value) else c
  {
    OnlyOption(c, options, o.name, value, k);
  }

  lemma NumberKey(options: seq<LongOption>, c: Config, number: Number, value: string)
    requires KeysOk(options)
    ensures Assign(options, c, NumberOption(number).name, value) == WithNumber(c, number, Atoi(value))
  {
    NumberIsOption(number);
    ArgumentSetsNumber(c, number, value);
    OneKey(options, c, value, NumberPlace(number), NumberOption(number));
  }

  lemma FlagIsOption(flag: Flag)
    ensures var o := FlagOption(flag); !o.takesValue && o.name != "address" && o.name != "sops"
  {
  }

  lemma ArgumentSetsFlag(c: Config, flag: Flag, value: string)
    ensures Argument(c, FlagOption(flag).code, value) == WithFlag(c, flag)
  {
  }

  lemma FlagKey(options: seq<LongOption>, c: Config, flag: Flag, value: string)
    requires KeysOk(options)
    ensures Assign(options, c, FlagOption(flag).name, value) == if value == "true" then WithFlag(c, flag) else c
  {
    FlagIsOption(flag);
    ArgumentSetsFlag(c, flag, value);
    OneKey(options, c, value, FlagPlace(flag), FlagOption(flag));
  }

  /** The keys with a number take what atoi reads. */
  lemma NumberKeys(c: Config, value: string)
    ensures Assign(LONG_OPTIONS, c, "width", value) == c.(width := Atoi(value))
    ensures Assign(LONG_OPTIONS, c, "height", value) == c.(height := Atoi(value))
    ensures Assign(LONG_OPTIONS, c, "fps", value) == c.(fps := Atoi(value))
    ensures Assign(LONG_OPTIONS, c, "bitrate", value) == c.(bitrate := Atoi(value))
    ensures Assign(LONG_OPTIONS, c, "packetsize", value) == c.(packetSize := Atoi(value))
    ensures Assign(LONG_OPTIONS, c, "rotate", value) == c.(rotate := Atoi(value))
  {
    KeysAreOk();
    NumbersIn(LONG_OPTIONS, c, value);
  }

  lemma NumbersIn(options: seq<LongOption>, c: Config, value: string)
    requires KeysOk(options)
    ensures Assign(options, c, "width", value) == c.(width := Atoi(value))
    ensures Assign(options, c, "height", value) == c.(height := Atoi(value))
    ensures Assign(options, c, "fps", value) == c.(fps := Atoi(value))
    ensures Assign(options, c, "bitrate", value) == c.(bitrate := Atoi(value))
    ensures Assign(options, c, "packetsize", value) == c.(packetSize := Atoi(value))
    ensures Assign(options, c, "rotate", value) == c.(rotate := Atoi(value))
  {
    NumberKey(options, c, Width, value);
    NumberKey(options, c, Height, value);
    NumberKey(options, c, Fps, value);
    NumberKey(options, c, Bitrate, value);
    NumberKey(options, c, PacketSize, value);
    NumberKey(options, c, Rotate, value);
  }

  /** The keys with a text of their own. */
  lemma TextKeys(c: Config, value: string)
    ensures Assign(LONG_OPTIONS, c, "address", value) == c.(address := Some(value))
    ensures Assign(LONG_OPTIONS, c, "sops", value) == c.(sops := value == "true")
    ensures Assign(LONG_OPTIONS, c, "app", value) == c.(app := value)
  {
    TableIsOk();
    AssignApp(LONG_OPTIONS, c, value);
  }

  /** A flag counts with the value "true" only. */
  lemma FlagKeys(c: Config, value: string)
    ensures Assign(LONG_OPTIONS, c, "localaudio", value) == if value == "true" then c.(localaudio := true) else c
    ensures Assign(LONG_OPTIONS, c, "quitappafter", value) == if value == "true" then c.(quitappafter := true) else c
    ensures Assign(LONG_OPTIONS, c, "viewonly", value) == if value == "true" then c.(viewonly := true) else c
  {
    KeysAreOk();
    FlagsIn(LONG_OPTIONS, c, value);
  }

  lemma FlagsIn(options: seq<LongOption>, c: Config, value: string)
    requires KeysOk(options)
    ensures Assign(options, c, "localaudio", value) == if value == "true" then c.(localaudio := true) else c
    ensures Assign(options, c, "quitappafter", value) == if value == "true" then c.(quitappafter := true) else c
    ensures Assign(options, c, "viewonly", value) == if value == "true" then c.(viewonly := true) else c
  {
    FlagKey(options, c, Localaudio, value);
    FlagKey(options, c, Quitappafter, value);
    FlagKey(options, c, Viewonly, value);
  }

  /** So do the three picture sizes and the flag against the host's settings. */
  lemma SizeKeys(c: Config, value: string)
    ensures Assign(LONG_OPTIONS, c, "720", value) == if value == "true" then c.(width := 1280, height := 720) else c
    ensures Assign(LONG_OPTIONS, c, "1080", value) == if value == "true" then c.(width := 1920, height := 1080) else c
    ensures Assign(LONG_OPTIONS, c, "4k", value) == if value == "true" then c.(width := 3840, height := 2160) else c
    ensures Assign(LONG_OPTIONS, c, "nosops", value) == if value == "true" then c.(sops := false) else c
  {
    KeysAreOk();
    SizesIn(LONG_OPTIONS, c, value);
  }

  lemma SizesIn(options: seq<LongOption>, c: Config, value: string)
    requires KeysOk(options)
    ensures Assign(options, c, "720", value) == if value == "true" then c.(width := 1280, height := 720) else c
    ensures Assign(options, c, "1080", value) == if value == "true" then c.(width := 1920, height := 1080) else c
    ensures Assign(options, c, "4k", value) == if value == "true" then c.(width := 3840, height := 2160) else c
    ensures Assign(options, c, "nosops", value) == if value == "true" then c.(sops := false) else c
  {
    OneKey(options, c, value, 0, LongOption("720", false, 'a'));
    OneKey(options, c, value, 1, LongOption("1080", false, 'b'));
    OneKey(options, c, value, 2, LongOption("4k", false, '0'));
    OneKey(options, c, value, 10, LongOption("nosops", false, 'l'));
  }

  lemma {:induction false} NoEffect(c: Config, options: seq<LongOption>, key: string, value: string)
    requires forall j :: 0 <= j < |options| && options[j].name == key ==> Argument(c, options[j].code, value) == c
    ensures OptionsIn(c, options, key, value) == c
    decreases |options|
  {
    if options != [] {
      assert options[0].name == key ==> Argument(c, options[0].code, value) == c;
      NoEffect(c, options[1..], key, value);
    }
  }

  const SAVED_CODES: set<char> := {'a', 'b', '0', 'c', 'd', 'g', 'h', 'i', 'l', 'n', 'v', '1', '2', '3'}

  const SAVED_KEYS: set<string> := {
    "720", "1080", "4k", "width", "height", "bitrate", "packetsize", "app", "nosops", "localaudio", "fps",
    "quitappafter", "viewonly", "rotate"}

  lemma OtherCode(c: Config, code: char, value: string)
    requires code !in SAVED_CODES
    ensures Argument(c, code, value) == c
  {
  }

  predicate OtherOk(o: LongOption)
  {
    o.code in SAVED_CODES ==> o.name in SAVED_KEYS
  }

  lemma OtherNamesFrom(from: nat)
    requires from % 4 == 0 && from < 32
    ensures forall j :: from <= j < from + 4 ==> OtherOk(LONG_OPTIONS[j])
  {
  }

  lemma OtherNames()
    ensures OthersOk(LONG_OPTIONS)
  {
    forall j | 0 <= j < |LONG_OPTIONS| ensures OtherOk(LONG_OPTIONS[j]) {
      OtherNamesFrom(j / 4 * 4);
    }
  }

  /** No entry of another name has a code that sets one of these members. */
  predicate OthersOk(options: seq<LongOption>)
  {
    forall j :: 0 <= j < |options| ==> OtherOk(options[j])
  }

  lemma OtherKeyIn(options: seq<LongOption>, c: Config, key: string, value: string)
    requires OthersOk(options) && key !in SAVED_KEYS && key != "address" && key != "sops"
    ensures Assign(options, c, key, value) == c
  {
    forall j | 0 <= j < |options| && options[j].name == key ensures Argument(c, options[j].code, value) == c {
      OtherCode(c, options[j].code, value);
    }
    NoEffect(c, options, key, value);
  }

  /** Every other key leaves these members as they are. */
  lemma OtherKeys(c: Config, key: string, value: string)
    requires key !in SAVED_KEYS && key != "address" && key != "sops"
    ensures Assign(LONG_OPTIONS, c, key, value) == c
  {
    OtherNames();
    OtherKeyIn(LONG_OPTIONS, c, key, value);
  }

  // ---------------------------------------------------------------------------------------
  // Lines

  ghost predicate BlankFirst(s: string)
  {
    s != "" && AllBlank(s[..1])
  }

  ghost predicate Unblank(s: string)
  {
    forall k :: 0 <= k < |s| ==> !(9 <= s[k] as int <= 13) && s[k] as int != 32
  }

  /** A key, white space, an equals sign and a value up to the end of the line.  Without the white
      space the equals sign would be part of the key; around the three any is allowed. */
  ghost predicate Splits(
    line: string, before: string, key: string, gap: string, after: string, value: string, rest: string)
  {
    && line == before + (key + (gap + ("=" + (after + (value + rest)))))
    && AllBlank(before) && AllBlank(gap) && AllBlank(after) && gap != ""
    && key != "" && Unblank(key)
    && value != "" && !BlankFirst(value) && '\n' !in value && (rest == "" || rest[0] == '\n')
  }

  lemma UnblankWord(key: string, rest: string)
    requires key != "" && Unblank(key) && (rest == "" || BlankFirst(rest))
    ensures !AllBlank([(key + rest)[0]]) && WordRun(key + rest) == |key|
    ensures (key + rest)[..|key|] == key && (key + rest)[|key|..] == rest
  {
    var s := key + rest;
    assert s[0] == key[0] && [s[0]][0] == s[0];
    if rest != "" { assert rest[..1][0] == rest[0] && s[|key|] == rest[0]; }
    WordRunIs(s, |key|);
  }

  lemma BlankGap(gap: string, rest: string)
    requires gap != "" && AllBlank(gap)
    ensures BlankFirst(gap + rest)
  {
    assert (gap + rest)[..1][0] == gap[0];
  }

  lemma ValueTo(value: string, rest: string)
    requires value != "" && !BlankFirst(value) && '\n' !in value && (rest == "" || rest[0] == '\n')
    ensures !AllBlank([(value + rest)[0]]) && Until(value + rest, '\n') == |value|
    ensures (value + rest)[..|value|] == value
  {
    assert value[..1] == [(value + rest)[0]];
    UntilIs(value + rest, '\n', |value|);
  }

  lemma ScanParts(line: string, s: string, k: nat, t: string, u: string, v: nat)
    requires SkipSpaces(line) == s && WordRun(s) == k > 0 && SkipSpaces(s[k..]) == t
    requires t != "" && t[0] == '=' && SkipSpaces(t[1..]) == u && Until(u, '\n') == v > 0
    ensures ScanLine(line) == Some(Entry(s[..k], u[..v]))
  {
  }

  lemma SplitScans(
    line: string, before: string, key: string, gap: string, after: string, value: string, rest: string)
    requires Splits(line, before, key, gap, after, value, rest)
    ensures ScanLine(line) == Some(Entry(key, value))
  {
    var u := value + rest;
    var t := "=" + (after + u);
    var s := key + (gap + t);
    BlankGap(gap, t);
    UnblankWord(key, gap + t);
    ValueTo(value, rest);
    SkipBlank(before, s);
    assert [t[0]][0] == '=';
    SkipBlank(gap, t);
    SkipBlank(after, u);
    assert t[1..] == after + u;
    ScanParts(line, s, |key|, t, u, |value|);
  }

  lemma SkippedBlank(s: string) returns (spaces: string)
    ensures s == spaces + SkipSpaces(s) && AllBlank(spaces)
    ensures SkipSpaces(s) == "" || !AllBlank(SkipSpaces(s)[..1])
  {
    spaces := s[..SpaceRun(s)];
    var t := SkipSpaces(s);
    if t != "" { assert !IsSpace(t[0]) && t[..1][0] == t[0]; }
  }

  lemma FirstWord(s: string)
    ensures Unblank(s[..WordRun(s)]) && (WordRun(s) < |s| ==> BlankFirst(s[WordRun(s)..]))
  {
    WordBeforeBlank(s, WordRun(s));
  }

  lemma WordBeforeBlank(s: string, k: nat)
    requires k <= |s| && (forall j :: 0 <= j < k ==> !IsSpace(s[j])) && (k < |s| ==> IsSpace(s[k]))
    ensures Unblank(s[..k]) && (k < |s| ==> BlankFirst(s[k..]))
  {
    if k < |s| { assert s[k..][..1] == [s[k]]; }
  }

  lemma GapIsThere(gap: string, t: string)
    requires t != "" && BlankFirst(gap + t) && !AllBlank(t[..1])
    ensures gap != ""
  {
    assert gap == "" ==> gap + t == t;
  }

  lemma FirstLine(u: string)
    requires Until(u, '\n') > 0 && !AllBlank(u[..1])
    ensures var value, rest := u[..Until(u, '\n')], u[Until(u, '\n')..];
            u == value + rest && !BlankFirst(value) && '\n' !in value && (rest == "" || rest[0] == '\n')
  {
    assert u[..Until(u, '\n')][..1] == u[..1];
  }

  lemma Regroup(line: string, before: string, key: string, gap: string, after: string, value: string, rest: string,
                s: string, k: nat, t: string, u: string)
    requires line == before + s && k <= |s| && key == s[..k] && s[k..] == gap + t
    requires t != "" && t[0] == '=' && t[1..] == after + u && u == value + rest
    ensures line == before + (key + (gap + ("=" + (after + (value + rest)))))
  {
    assert s == key + (gap + t);
    assert t == "=" + (after + u);
  }

  /** The steps of a scan that finds both items. */
  lemma ScanSteps(line: string) returns (s: string, k: nat, t: string, u: string, v: nat)
    requires ScanLine(line).Some?
    ensures s == SkipSpaces(line) && k == WordRun(s) && 0 < k && t == SkipSpaces(s[k..]) && t != "" && t[0] == '='
    ensures u == SkipSpaces(t[1..]) && v == Until(u, '\n') && 0 < v && ScanLine(line).value == Entry(s[..k], u[..v])
  {
    s := SkipSpaces(line);
    k := WordRun(s);
    t := SkipSpaces(s[k..]);
    u := SkipSpaces(t[1..]);
    v := Until(u, '\n');
  }

  lemma ScannedSplits(line: string)
    returns (before: string, gap: string, after: string, rest: string)
    requires ScanLine(line).Some?
    ensures var e := ScanLine(line).value; Splits(line, before, e.key, gap, after, e.value, rest)
  {
    var s, k, t, u, v := ScanSteps(line);
    before := SkippedBlank(line);
    FirstWord(s);
    gap := SkippedBlank(s[k..]);
    GapIsThere(gap, t);
    after := SkippedBlank(t[1..]);
    rest := u[v..];
    FirstLine(u);
    Regroup(line, before, s[..k], gap, after, u[..v], rest, s, k, t, u);
  }

  /** Such a line sets its key to its value; every other line is passed over. */
  lemma LineCountsIff(c: Config, line: string)
    ensures ScanLine(line).Some? <==>
            exists before, key, gap, after, value, rest :: Splits(line, before, key, gap, after, value, rest)
    ensures forall before, key, gap, after, value, rest :: Splits(line, before, key, gap, after, value, rest) ==>
            LineApplied(LONG_OPTIONS, c, line) == Assign(LONG_OPTIONS, c, key, value)
    ensures (forall before, key, gap, after, value, rest :: !Splits(line, before, key, gap, after, value, rest)) ==>
            LineApplied(LONG_OPTIONS, c, line) == c
  {
    forall before, key, gap, after, value, rest | Splits(line, before, key, gap, after, value, rest)
      ensures ScanLine(line) == Some(Entry(key, value))
    {
      SplitScans(line, before, key, gap, after, value, rest);
    }
    if ScanLine(line).Some? {
      var before, gap, after, rest := ScannedSplits(line);
    }
  }

  // ---------------------------------------------------------------------------------------
  // The saved text

  function When(written: bool, line: string): string { if written then line else "" }

  lemma OneMore(before: Lines, written: bool, key: string, value: string, text: string)
    requires Rendered(before) == text
    ensures Rendered(Then(before, written, key, value)) == text + When(written, key + " = " + value + "\n")
  {
    assert text + "" == text;
  }

  /** The text of the numbers that come first. */
  function NumberText(c: Config): string
  {
    "" + When(c.width != 1280, "width" + " = " + PrintInt(c.width) + "\n")
       + When(c.height != 720, "height" + " = " + PrintInt(c.height) + "\n")
       + When(c.fps != 60, "fps" + " = " + PrintInt(c.fps) + "\n")
       + When(c.bitrate != -1, "bitrate" + " = " + PrintInt(c.bitrate) + "\n")
       + When(c.packetSize != 1024, "packetsize" + " = " + PrintInt(c.packetSize) + "\n")
  }

  lemma NumberLinesText(c: Config)
    ensures Rendered(NumberLines(c)) == NumberText(c)
  {
    var l4 := NumberLines(c).before;
    var l3 := l4.before;
    var l2 := l3.before;
    OneMore(NoLines, c.width != 1280, "width", PrintInt(c.width), Rendered(NoLines));
    OneMore(l2.before, c.height != 720, "height", PrintInt(c.height), Rendered(l2.before));
    OneMore(l2, c.fps != 60, "fps", PrintInt(c.fps), Rendered(l2));
    OneMore(l3, c.bitrate != -1, "bitrate", PrintInt(c.bitrate), Rendered(l3));
    OneMore(l4, c.packetSize != 1024, "packetsize", PrintInt(c.packetSize), Rendered(l4));
  }

  /** The saved text, line by line: a line is left out when its value is the one on its left. */
  lemma SavedText(c: Config)
    ensures Rendered(LinesOf(c)) == NumberText(c)
      + When(!c.sops, "sops" + " = " + "false" + "\n")
      + When(c.localaudio, "localaudio" + " = " + "true" + "\n")
      + When(c.quitappafter, "quitappafter" + " = " + "true" + "\n")
      + When(c.viewonly, "viewonly" + " = " + "true" + "\n")
      + When(c.rotate != 0, "rotate" + " = " + PrintInt(c.rotate) + "\n")
      + When(c.app != "Steam", "app" + " = " + c.app + "\n")
  {
    var l10 := LinesOf(c).before;
    var l9 := l10.before;
    var l8 := l9.before;
    var l7 := l8.before;
    var l6 := l7.before;
    NumberLinesText(c);
    OneMore(NumberLines(c), !c.sops, "sops", BoolText(c.sops), Rendered(NumberLines(c)));
    OneMore(l6, c.localaudio, "localaudio", BoolText(c.localaudio), Rendered(l6));
    OneMore(l7, c.quitappafter, "quitappafter", BoolText(c.quitappafter), Rendered(l7));
    OneMore(l8, c.viewonly, "viewonly", BoolText(c.viewonly), Rendered(l8));
    OneMore(l9, c.rotate != 0, "rotate", PrintInt(c.rotate), Rendered(l9));
    OneMore(l10, c.app != "Steam", "app", c.app, Rendered(l10));
  }
}
