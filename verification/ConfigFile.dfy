/** The configuration file: what config_save writes and config_file_parse reads (src/config.c). */
module ConfigFile {

  import opened Text
  import opened Wrappers

  /** The members of CONFIGURATION that config_save writes, and the address. */
  datatype Config = Config(
    width: int, height: int, fps: int, bitrate: int, packetSize: int, rotate: int,
    sops: bool, localaudio: bool, quitappafter: bool, viewonly: bool, app: string,
    address: Option<string>)

  /** The defaults of config_parse. */
  const DEFAULTS: Config := Config(
    1280, 720, 60, -1, 1392, 0, true, false, false, false, "Steam", None)

  // ---------------------------------------------------------------------------------------
  // Options

  datatype LongOption = LongOption(name: string, takesValue: bool, code: char)

  const LONG_OPTIONS: seq<LongOption> := [
    LongOption("720", false, 'a'),
    LongOption("1080", false, 'b'),
    LongOption("4k", false, '0'),
    LongOption("width", true, 'c'),
    LongOption("height", true, 'd'),
    LongOption("bitrate", true, 'g'),
    LongOption("packetsize", true, 'h'),
    LongOption("app", true, 'i'),
    LongOption("input", true, 'j'),
    LongOption("mapping", true, 'k'),
    LongOption("nosops", false, 'l'),
    LongOption("audio", true, 'm'),
    LongOption("localaudio", false, 'n'),
    LongOption("config", true, 'o'),
    LongOption("platform", true, 'p'),
    LongOption("save", true, 'q'),
    LongOption("keydir", true, 'r'),
    LongOption("remote", true, 's'),
    LongOption("windowed", false, 't'),
    LongOption("surround", true, 'u'),
    LongOption("fps", true, 'v'),
    LongOption("codec", true, 'x'),
    LongOption("nounsupported", false, 'y'),
    LongOption("quitappafter", false, '1'),
    LongOption("viewonly", false, '2'),
    LongOption("rotate", true, '3'),
    LongOption("verbose", false, 'z'),
    LongOption("debug", false, 'Z'),
    LongOption("nomouseemulation", false, '4'),
    LongOption("pin", true, '5'),
    LongOption("port", true, '6'),
    LongOption("hdr", false, '7')]

  /** parse_argument; the options left out here do not touch these members. */
  function Argument(c: Config, code: char, value: string): Config
  {
    match code
    case 'a' => c.(width := 1280, height := 720)
    case 'b' => c.(width := 1920, height := 1080)
    case '0' => c.(width := 3840, height := 2160)
    case 'c' => c.(width := Atoi(value))
    case 'd' => c.(height := Atoi(value))
    case 'g' => c.(bitrate := Atoi(value))
    case 'h' => c.(packetSize := Atoi(value))
    case 'i' => c.(app := value)
    case 'l' => c.(sops := false)
    case 'n' => c.(localaudio := true)
    case 'v' => c.(fps := Atoi(value))
    case '1' => c.(quitappafter := true)
    case '2' => c.(viewonly := true)
    case '3' => c.(rotate := Atoi(value))
    case _ => c
  }

  function TryOption(c: Config, o: LongOption, key: string, value: string): Config
  {
    if o.name == key && (o.takesValue || value == "true") then Argument(c, o.code, value) else c
  }

  /** Every option of that name, in the order of the table. */
  function OptionsIn(c: Config, options: seq<LongOption>, key: string, value: string): Config
    decreases |options|
  {
    if options == [] then c
    else OptionsIn(TryOption(c, options[0], key, value), options[1..], key, value)
  }

  /** One "key = value" line; options is the option table. */
  function Assign(options: seq<LongOption>, c: Config, key: string, value: string): Config
  {
    if key == "address" then c.(address := Some(value))
    else if key == "sops" then c.(sops := value == "true")
    else OptionsIn(c, options, key, value)
  }

  // ---------------------------------------------------------------------------------------
  // Reading

  datatype Entry = Entry(key: string, value: string)

  /** sscanf with "%ms = %m[^\n]", when both items are found. */
  function ScanLine(line: string): Option<Entry>
  {
    var s := SkipSpaces(line);
    var k := WordRun(s);
    var t := SkipSpaces(s[k..]);
    if k == 0 || t == "" || t[0] != '=' then None
    else
      var u := SkipSpaces(t[1..]);
      var v := Until(u, '\n');
      if v == 0 then None else Some(Entry(s[..k], u[..v]))
  }

  function LineApplied(options: seq<LongOption>, c: Config, line: string): Config
  {
    match ScanLine(line)
    case None => c
    case Some(Entry(key, value)) => Assign(options, c, key, value)
  }

  /** How much of the text getline takes: through the first newline. */
  function LineLength(text: string): (n: nat)
    requires text != ""
    ensures 0 < n <= |text|
  {
    var n := Until(text, '\n');
    if n < |text| then n + 1 else n
  }

  function Loaded(options: seq<LongOption>, c: Config, text: string): Config
    decreases |text|
  {
    if text == "" then c
    else Loaded(options, LineApplied(options, c, text[..LineLength(text)]), text[LineLength(text)..])
  }

  // ---------------------------------------------------------------------------------------
  // Writing

  /** The lines written so far, and the ones left out because the value is not to be saved. */
  datatype Lines = NoLines | Then(before: Lines, written: bool, key: string, value: string)

  function Line(key: string, value: string): string
  {
    key + " = " + value + "\n"
  }

  function Rendered(l: Lines): string
  {
    match l
    case NoLines => ""
    case Then(before, written, key, value) =>
      if written then Rendered(before) + Line(key, value) else Rendered(before)
  }

  function BoolText(b: bool): string { if b then "true" else "false" }

  function NumberLines(c: Config): Lines
  {
    var l := NoLines;
    var l := Then(l, c.width != 1280, "width", PrintInt(c.width));
    var l := Then(l, c.height != 720, "height", PrintInt(c.height));
    var l := Then(l, c.fps != 60, "fps", PrintInt(c.fps));
    var l := Then(l, c.bitrate != -1, "bitrate", PrintInt(c.bitrate));
    Then(l, c.packetSize != 1024, "packetsize", PrintInt(c.packetSize))
  }

  /** The lines of a saved file. */
  function LinesOf(c: Config): Lines
  {
    var l := NumberLines(c);
    var l := Then(l, !c.sops, "sops", BoolText(c.sops));
    var l := Then(l, c.localaudio, "localaudio", BoolText(c.localaudio));
    var l := Then(l, c.quitappafter, "quitappafter", BoolText(c.quitappafter));
    var l := Then(l, c.viewonly, "viewonly", BoolText(c.viewonly));
    var l := Then(l, c.rotate != 0, "rotate", PrintInt(c.rotate));
    Then(l, c.app != "Steam", "app", c.app)
  }

  // ---------------------------------------------------------------------------------------
  // The program

  class Configuration {
    const options: seq<LongOption>
    var width: int
    var height: int
    var fps: int
    var bitrate: int
    var packetSize: int
    var rotate: int
    var sops: bool
    var localaudio: bool
    var quitappafter: bool
    var viewonly: bool
    var app: string
    var address: Option<string>

    ghost function View(): Config
      reads this
    {
      Config(width, height, fps, bitrate, packetSize, rotate, sops, localaudio, quitappafter,
             viewonly, app, address)
    }

    /** The defaults at the start of config_parse. */
    constructor ()
      ensures View() == DEFAULTS && options == LONG_OPTIONS
    {
      options := LONG_OPTIONS;
      width, height, fps, bitrate, packetSize, rotate := 1280, 720, 60, -1, 1392, 0;
      sops, localaudio, quitappafter, viewonly, app := true, false, false, false, "Steam";
      address := None;
    }

    method ParseArgument(code: char, value: string)
      modifies this
      ensures View() == Argument(old(View()), code, value)
    {
      match code
      case 'a' => width, height := 1280, 720;
      case 'b' => width, height := 1920, 1080;
      case '0' => width, height := 3840, 2160;
      case 'c' => width := Atoi(value);
      case 'd' => height := Atoi(value);
      case 'g' => bitrate := Atoi(value);
      case 'h' => packetSize := Atoi(value);
      case 'i' => app := value;
      case 'l' => sops := false;
      case 'n' => localaudio := true;
      case 'v' => fps := Atoi(value);
      case '1' => quitappafter := true;
      case '2' => viewonly := true;
      case '3' => rotate := Atoi(value);
      case _ =>
    }

    method AssignKey(key: string, value: string)
      modifies this
      ensures View() == Assign(options, old(View()), key, value)
    {
      if key == "address" {
        address := Some(value);
      } else if key == "sops" {
        sops := value == "true";
      } else {
        for i := 0 to |options|
          invariant OptionsIn(View(), options[i..], key, value) == OptionsIn(old(View()), options, key, value)
        {
          assert options[i..][1..] == options[i + 1..];
          if options[i].name == key {
            if options[i].takesValue || value == "true" {
              ParseArgument(options[i].code, value);
            }
          }
        }
      }
    }

    /** config_file_parse; no text when the file cannot be opened. */
    method ParseFile(file: Option<string>) returns (parsed: bool)
      modifies this
      ensures parsed == file.Some?
      ensures View() == if parsed then Loaded(options, old(View()), file.value) else old(View())
    {
      if file.None? { return false; }
      var text := file.value;
      while text != ""
        invariant Loaded(options, View(), text) == Loaded(options, old(View()), file.value)
        decreases |text|
      {
        var n := LineLength(text);
        match ScanLine(text[..n]) {
          case None =>
          case Some(Entry(key, value)) => AssignKey(key, value);
        }
        text := text[n..];
      }
      return true;
    }
  }

  /** A file written line by line; each writer is given the test that guards its line. */
  class OutputFile {
    var text: string
    ghost var lines: Lines

    ghost predicate Valid()
      reads this
    {
      text == Rendered(lines)
    }

    constructor ()
      ensures Valid() && lines == NoLines
    {
      text, lines := "", NoLines;
    }

    method WriteString(written: bool, key: string, value: string)
      requires Valid()
      modifies this
      ensures Valid() && lines == Then(old(lines), written, key, value)
    {
      if written { text := text + Line(key, value); }
      lines := Then(lines, written, key, value);
    }

    method WriteInt(written: bool, key: string, value: int)
      requires Valid()
      modifies this
      ensures Valid() && lines == Then(old(lines), written, key, PrintInt(value))
    {
      WriteString(written, key, PrintInt(value));
    }

    method WriteBool(written: bool, key: string, value: bool)
      requires Valid()
      modifies this
      ensures Valid() && lines == Then(old(lines), written, key, BoolText(value))
    {
      WriteString(written, key, BoolText(value));
    }
  }

  method SaveNumbers(file: OutputFile, c: Config)
    requires file.Valid() && file.lines == NoLines
    modifies file
    ensures file.Valid() && file.lines == NumberLines(c)
  {
    file.WriteInt(c.width != 1280, "width", c.width);
    file.WriteInt(c.height != 720, "height", c.height);
    file.WriteInt(c.fps != 60, "fps", c.fps);
    file.WriteInt(c.bitrate != -1, "bitrate", c.bitrate);
    file.WriteInt(c.packetSize != 1024, "packetsize", c.packetSize);
  }

  /** config_save */
  method Save(c: Config) returns (text: string)
    ensures text == Rendered(LinesOf(c))
  {
    var file := new OutputFile();
    SaveNumbers(file, c);
    file.WriteBool(!c.sops, "sops", c.sops);
    file.WriteBool(c.localaudio, "localaudio", c.localaudio);
    file.WriteBool(c.quitappafter, "quitappafter", c.quitappafter);
    file.WriteBool(c.viewonly, "viewonly", c.viewonly);
    file.WriteInt(c.rotate != 0, "rotate", c.rotate);
    file.WriteString(c.app != "Steam", "app", c.app);
    text := file.text;
  }

  // ---------------------------------------------------------------------------------------
  // Reading what was written

  predicate KeyOk(key: string)
  {
    key != "" && forall k :: 0 <= k < |key| ==> !IsSpace(key[k])
  }

  /** A value that survives being written to a line and read back. */
  predicate ValueOk(value: string)
  {
    value != "" && !IsSpace(value[0]) && forall k :: 0 <= k < |value| ==> value[k] != '\n'
  }

  lemma ScanKey(key: string, rest: string)
    requires KeyOk(key) && rest != "" && IsSpace(rest[0])
    ensures SkipSpaces(key + rest) == key + rest && WordRun(key + rest) == |key|
    ensures (key + rest)[..|key|] == key && (key + rest)[|key|..] == rest
  {
    NoSpaceToSkip(key + rest);
    WordRunIs(key + rest, |key|);
  }

  lemma SkipOne(s: string)
    requires s != "" && !IsSpace(s[0])
    ensures SkipSpaces(" " + s) == s
  {
    SpaceRunIs(" " + s, 1);
  }

  lemma ScanValue(value: string)
    requires ValueOk(value)
    ensures SkipSpaces(" " + (value + "\n")) == value + "\n"
    ensures Until(value + "\n", '\n') == |value| && (value + "\n")[..|value|] == value
  {
    SkipOne(value + "\n");
    UntilIs(value + "\n", '\n', |value|);
  }

  lemma LineScans(key: string, value: string)
    requires KeyOk(key) && ValueOk(value)
    ensures ScanLine(Line(key, value)) == Some(Entry(key, value))
  {
    var tail := "=" + (" " + (value + "\n"));
    assert Line(key, value) == key + (" " + tail);
    ScanKey(key, " " + tail);
    SkipOne(tail);
    ScanValue(value);
    assert tail[1..] == " " + (value + "\n");
  }

  predicate FullLines(text: string)
  {
    text == "" || text[|text| - 1] == '\n'
  }

  /** Complete lines are read one after the other, whatever follows. */
  lemma {:induction false} LoadedAppend(options: seq<LongOption>, c: Config, text: string, rest: string)
    requires FullLines(text)
    ensures Loaded(options, c, text + rest) == Loaded(options, Loaded(options, c, text), rest)
    decreases |text|
  {
    if text == "" {
      assert text + rest == rest;
    } else {
      var n := LineLength(text);
      UntilIs(text + rest, '\n', n - 1);
      assert (text + rest)[..n] == text[..n] && (text + rest)[n..] == text[n..] + rest;
      LoadedAppend(options, LineApplied(options, c, text[..n]), text[n..], rest);
    }
  }

  lemma LoadedLast(options: seq<LongOption>, c: Config, line: string, n: nat)
    requires 0 < n == |line| == LineLength(line)
    ensures Loaded(options, c, line) == LineApplied(options, c, line[..n])
  {
    assert line[n..] == "";
  }

  lemma LoadedLine(options: seq<LongOption>, c: Config, key: string, value: string)
    requires KeyOk(key) && ValueOk(value)
    ensures Loaded(options, c, Line(key, value)) == Assign(options, c, key, value)
  {
    LineIsOneLine(key, value);
    LoadedLast(options, c, Line(key, value), |Line(key, value)|);
    LineScans(key, value);
    ScannedApplies(options, c, Line(key, value), key, value);
  }

  lemma LineIsOneLine(key: string, value: string)
    requires KeyOk(key) && ValueOk(value)
    ensures var line := Line(key, value);
            line != "" && LineLength(line) == |line| && line[..|line|] == line
  {
    var text := key + " = " + value;
    UntilIs(text + "\n", '\n', |text|);
  }

  lemma ScannedApplies(options: seq<LongOption>, c: Config, line: string, key: string, value: string)
    requires ScanLine(line) == Some(Entry(key, value))
    ensures LineApplied(options, c, line) == Assign(options, c, key, value)
  {
  }

  /** What the lines assign, in their order. */
  function Assigned(options: seq<LongOption>, c: Config, l: Lines): Config
  {
    match l
    case NoLines => c
    case Then(before, written, key, value) =>
      if written then Assign(options, Assigned(options, c, before), key, value) else Assigned(options, c, before)
  }

  predicate LinesOk(l: Lines)
  {
    l.Then? ==> LinesOk(l.before) && (l.written ==> KeyOk(l.key) && ValueOk(l.value))
  }

  lemma {:induction false} LoadedRendered(options: seq<LongOption>, c: Config, l: Lines)
    requires LinesOk(l)
    ensures FullLines(Rendered(l)) && Loaded(options, c, Rendered(l)) == Assigned(options, c, l)
    decreases l
  {
    if l.Then? {
      LoadedRendered(options, c, l.before);
      if l.written {
        LoadedAppend(options, c, Rendered(l.before), Line(l.key, l.value));
        LoadedLine(options, Assigned(options, c, l.before), l.key, l.value);
      }
    }
  }

  // ---------------------------------------------------------------------------------------
  // Which option a key names

  /** No other entry has the name of entry k. */
  predicate OnlyNamed(options: seq<LongOption>, k: nat)
    requires k < |options|
  {
    forall j :: 0 <= j < |options| && j != k ==> options[j].name != options[k].name
  }

  lemma {:induction false} NoOption(c: Config, options: seq<LongOption>, key: string, value: string)
    requires forall j :: 0 <= j < |options| ==> options[j].name != key
    ensures OptionsIn(c, options, key, value) == c
    decreases |options|
  {
    if options != [] { NoOption(c, options[1..], key, value); }
  }

  lemma {:induction false} OnlyOption(
    c: Config, options: seq<LongOption>, key: string, value: string, k: nat)
    requires k < |options| && OnlyNamed(options, k) && options[k].name == key
    ensures OptionsIn(c, options, key, value) == TryOption(c, options[k], key, value)
    decreases k
  {
    if k == 0 {
      NoOption(TryOption(c, options[0], key, value), options[1..], key, value);
    } else {
      OnlyOption(c, options[1..], key, value, k - 1);
    }
  }

  /** The saved members that are numbers, and those that are flags. */
  datatype Number = Width | Height | Fps | Bitrate | PacketSize | Rotate
  datatype Flag = Localaudio | Quitappafter | Viewonly

  function NumberPlace(number: Number): nat
  {
    match number
    case Width => 3
    case Height => 4
    case Fps => 20
    case Bitrate => 5
    case PacketSize => 6
    case Rotate => 25
  }

  function NumberOption(number: Number): LongOption
  {
    match number
    case Width => LongOption("width", true, 'c')
    case Height => LongOption("height", true, 'd')
    case Fps => LongOption("fps", true, 'v')
    case Bitrate => LongOption("bitrate", true, 'g')
    case PacketSize => LongOption("packetsize", true, 'h')
    case Rotate => LongOption("rotate", true, '3')
  }

  function FlagPlace(flag: Flag): nat
  {
    match flag
    case Localaudio => 12
    case Quitappafter => 23
    case Viewonly => 24
  }

  function FlagOption(flag: Flag): LongOption
  {
    match flag
    case Localaudio => LongOption("localaudio", false, 'n')
    case Quitappafter => LongOption("quitappafter", false, '1')
    case Viewonly => LongOption("viewonly", false, '2')
  }

  function WithNumber(c: Config, number: Number, n: int): Config
  {
    match number
    case Width => c.(width := n)
    case Height => c.(height := n)
    case Fps => c.(fps := n)
    case Bitrate => c.(bitrate := n)
    case PacketSize => c.(packetSize := n)
    case Rotate => c.(rotate := n)
  }

  function WithFlag(c: Config, flag: Flag): Config
  {
    match flag
    case Localaudio => c.(localaudio := true)
    case Quitappafter => c.(quitappafter := true)
    case Viewonly => c.(viewonly := true)
  }

  /** The table has option o in place k, and nowhere else one of that name. */
  predicate Has(options: seq<LongOption>, k: nat, o: LongOption)
  {
    k < |options| && options[k] == o && OnlyNamed(options, k)
  }

  /** The table has the options that saved files use. */
  predicate TableOk(options: seq<LongOption>)
  {
    && (forall number: Number :: Has(options, NumberPlace(number), NumberOption(number)))
    && (forall flag: Flag :: Has(options, FlagPlace(flag), FlagOption(flag)))
    && Has(options, 7, LongOption("app", true, 'i'))
  }

  lemma OnlyNamedFrom3()
    ensures forall k :: 3 <= k < 6 ==> OnlyNamed(LONG_OPTIONS, k)
  {
  }

  lemma OnlyNamedFrom6()
    ensures forall k :: 6 <= k < 8 ==> OnlyNamed(LONG_OPTIONS, k)
  {
  }

  lemma OnlyNamed12And20()
    ensures OnlyNamed(LONG_OPTIONS, 12) && OnlyNamed(LONG_OPTIONS, 20)
  {
  }

  lemma OnlyNamedFrom23()
    ensures forall k :: 23 <= k < 26 ==> OnlyNamed(LONG_OPTIONS, k)
  {
  }

  lemma NumbersInPlace()
    ensures forall number: Number :: LONG_OPTIONS[NumberPlace(number)] == NumberOption(number)
  {
  }

  lemma FlagsInPlace()
    ensures forall flag: Flag :: LONG_OPTIONS[FlagPlace(flag)] == FlagOption(flag)
    ensures LONG_OPTIONS[7] == LongOption("app", true, 'i')
  {
  }

  lemma NumbersOk()
    ensures forall number: Number :: Has(LONG_OPTIONS, NumberPlace(number), NumberOption(number))
  {
    OnlyNamedFrom3();
    OnlyNamedFrom6();
    OnlyNamed12And20();
    OnlyNamedFrom23();
    NumbersInPlace();
  }

  lemma TableIsOk()
    ensures TableOk(LONG_OPTIONS)
  {
    NumbersOk();
    OnlyNamedFrom6();
    OnlyNamed12And20();
    OnlyNamedFrom23();
    FlagsInPlace();
  }

  lemma NumberIsOption(number: Number)
    ensures var o := NumberOption(number); o.takesValue && o.name != "address" && o.name != "sops"
  {
  }

  lemma ArgumentSetsNumber(c: Config, number: Number, value: string)
    ensures Argument(c, NumberOption(number).code, value) == WithNumber(c, number, Atoi(value))
  {
  }

  lemma AssignNumber(options: seq<LongOption>, c: Config, number: Number, n: int)
    requires TableOk(options)
    ensures Assign(options, c, NumberOption(number).name, PrintInt(n)) == WithNumber(c, number, n)
  {
    NumberIsOption(number);
    ArgumentSetsNumber(c, number, PrintInt(n));
    AtoiReadsBack(n);
    OnlyOption(c, options, NumberOption(number).name, PrintInt(n), NumberPlace(number));
  }

  lemma AssignFlag(options: seq<LongOption>, c: Config, flag: Flag)
    requires TableOk(options)
    ensures Assign(options, c, FlagOption(flag).name, "true") == WithFlag(c, flag)
  {
    OnlyOption(c, options, FlagOption(flag).name, "true", FlagPlace(flag));
  }

  lemma AssignApp(options: seq<LongOption>, c: Config, app: string)
    requires TableOk(options)
    ensures Assign(options, c, "app", app) == c.(app := app)
  {
    OnlyOption(c, options, "app", app, 7);
  }

  // ---------------------------------------------------------------------------------------
  // The round trip

  /** The saved members have their default values; the others may have any. */
  predicate StartsFromDefaults(d: Config)
  {
    d == DEFAULTS.(address := d.address)
  }

  /** d with the members that a file keeps taken from c. */
  function Restored(d: Config, c: Config): Config
  {
    c.(address := d.address)
  }

  /** A line with a number, and one with a flag that is written when it is set. */
  lemma NumberLine(options: seq<LongOption>, d: Config, before: Lines, number: Number, written: bool, n: int)
    requires TableOk(options)
    ensures var e := Assigned(options, d, before);
            Assigned(options, d, Then(before, written, NumberOption(number).name, PrintInt(n)))
            == if written then WithNumber(e, number, n) else e
  {
    AssignNumber(options, Assigned(options, d, before), number, n);
  }

  lemma FlagLine(options: seq<LongOption>, d: Config, before: Lines, flag: Flag, b: bool)
    requires TableOk(options)
    ensures var e := Assigned(options, d, before);
            Assigned(options, d, Then(before, b, FlagOption(flag).name, BoolText(b)))
            == if b then WithFlag(e, flag) else e
  {
    AssignFlag(options, Assigned(options, d, before), flag);
  }

  lemma AssignedNumbers(options: seq<LongOption>, d: Config, c: Config)
    requires StartsFromDefaults(d) && TableOk(options)
    ensures Assigned(options, d, NumberLines(c))
         == d.(width := c.width, height := c.height, fps := c.fps, bitrate := c.bitrate,
               packetSize := if c.packetSize == 1024 then 1392 else c.packetSize)
  {
    var l4 := NumberLines(c).before;
    var l3 := l4.before;
    var l2 := l3.before;
    NumberLine(options, d, NoLines, Width, c.width != 1280, c.width);
    NumberLine(options, d, l2.before, Height, c.height != 720, c.height);
    NumberLine(options, d, l2, Fps, c.fps != 60, c.fps);
    NumberLine(options, d, l3, Bitrate, c.bitrate != -1, c.bitrate);
    NumberLine(options, d, l4, PacketSize, c.packetSize != 1024, c.packetSize);
  }

  lemma AssignedFlags(options: seq<LongOption>, d: Config, c: Config)
    requires StartsFromDefaults(d) && TableOk(options)
    ensures Assigned(options, d, LinesOf(c).before.before)
         == Assigned(options, d, NumberLines(c)).(
              sops := c.sops, localaudio := c.localaudio, quitappafter := c.quitappafter, viewonly := c.viewonly)
  {
    AssignedNumbers(options, d, c);
    var l9 := LinesOf(c).before.before;
    var l8 := l9.before;
    var l7 := l8.before;
    assert Assigned(options, d, l7.before) == Assigned(options, d, NumberLines(c)).(sops := c.sops);
    FlagLine(options, d, l7.before, Localaudio, c.localaudio);
    FlagLine(options, d, l7, Quitappafter, c.quitappafter);
    FlagLine(options, d, l8, Viewonly, c.viewonly);
  }

  lemma AssignedLines(options: seq<LongOption>, d: Config, c: Config)
    requires StartsFromDefaults(d) && TableOk(options)
    ensures Assigned(options, d, LinesOf(c))
         == Restored(d, c).(packetSize := if c.packetSize == 1024 then 1392 else c.packetSize)
  {
    AssignedNumbers(options, d, c);
    AssignedFlags(options, d, c);
    var l10 := LinesOf(c).before;
    NumberLine(options, d, l10.before, Rotate, c.rotate != 0, c.rotate);
    AssignApp(options, Assigned(options, d, l10), c.app);
  }

  lemma NumberIsValue(n: int)
    ensures ValueOk(PrintInt(n))
  {
    PrintIntChars(n);
  }

  lemma NumberLinesOk(c: Config)
    ensures LinesOk(NumberLines(c))
  {
    NumberIsValue(c.width);
    NumberIsValue(c.height);
    NumberIsValue(c.fps);
    NumberIsValue(c.bitrate);
    NumberIsValue(c.packetSize);
    var l3 := NumberLines(c).before.before;
    assert LinesOk(l3.before.before);
    assert LinesOk(l3.before);
    assert LinesOk(l3);
  }

  lemma FlagWordsOk()
    ensures KeyOk("sops") && KeyOk("localaudio") && KeyOk("quitappafter") && KeyOk("viewonly")
    ensures ValueOk("true") && ValueOk("false")
  {
  }

  lemma ThenOk(l: Lines, b: bool, key: string, value: string)
    requires LinesOk(l) && KeyOk(key) && ValueOk(value)
    ensures LinesOk(Then(l, b, key, value))
  {
  }

  lemma FlagLinesOk(c: Config)
    ensures LinesOk(LinesOf(c).before.before)
  {
    NumberLinesOk(c);
    FlagWordsOk();
    var l9 := LinesOf(c).before.before;
    var l8 := l9.before;
    var l7 := l8.before;
    ThenOk(l7.before.before, !c.sops, "sops", BoolText(c.sops));
    ThenOk(l7.before, c.localaudio, "localaudio", BoolText(c.localaudio));
    ThenOk(l7, c.quitappafter, "quitappafter", BoolText(c.quitappafter));
    ThenOk(l8, c.viewonly, "viewonly", BoolText(c.viewonly));
  }

  lemma SavedLinesOk(c: Config)
    requires ValueOk(c.app)
    ensures LinesOk(LinesOf(c))
  {
    FlagLinesOk(c);
    NumberIsValue(c.rotate);
    assert LinesOk(LinesOf(c).before);
  }

  lemma ArgumentApp(c: Config, code: char, value: string)
    ensures Argument(c, code, value).app == if code == 'i' then value else c.app
  {
  }

  lemma TryKeepsApp(c: Config, o: LongOption, key: string, value: string)
    requires ValueOk(c.app) && ValueOk(value)
    ensures ValueOk(TryOption(c, o, key, value).app)
  {
    ArgumentApp(c, o.code, value);
    var app := TryOption(c, o, key, value).app;
    assert app == value || app == c.app;
  }

  /** Loading never gives an app name other than one that can be saved. */
  lemma {:induction false} OptionsKeepApp(
    c: Config, options: seq<LongOption>, key: string, value: string)
    requires ValueOk(c.app) && ValueOk(value)
    ensures ValueOk(OptionsIn(c, options, key, value).app)
    decreases |options|
  {
    if options != [] {
      TryKeepsApp(c, options[0], key, value);
      OptionsKeepApp(TryOption(c, options[0], key, value), options[1..], key, value);
    }
  }

  lemma ScannedIsValue(line: string)
    ensures ScanLine(line).Some? ==> ValueOk(ScanLine(line).value.value)
  {
  }

  lemma AssignKeepsApp(options: seq<LongOption>, c: Config, key: string, value: string)
    requires ValueOk(c.app) && ValueOk(value)
    ensures ValueOk(Assign(options, c, key, value).app)
  {
    OptionsKeepApp(c, options, key, value);
  }

  lemma LineKeepsApp(options: seq<LongOption>, c: Config, line: string)
    requires ValueOk(c.app)
    ensures ValueOk(LineApplied(options, c, line).app)
  {
    ScannedIsValue(line);
    var scanned := ScanLine(line);
    if scanned.Some? { AssignKeepsApp(options, c, scanned.value.key, scanned.value.value); }
  }

  lemma {:induction false} LoadedApp(options: seq<LongOption>, c: Config, text: string)
    requires ValueOk(c.app)
    ensures ValueOk(Loaded(options, c, text).app)
    decreases |text|
  {
    if text != "" {
      var n := LineLength(text);
      LineKeepsApp(options, c, text[..n]);
      LoadedApp(options, LineApplied(options, c, text[..n]), text[n..]);
    }
  }

  lemma AppNotRestored(options: seq<LongOption>, d: Config, c: Config)
    requires StartsFromDefaults(d) && !ValueOk(c.app)
    ensures Loaded(options, d, Rendered(LinesOf(c))).app != c.app
  {
    assert ValueOk(DEFAULTS.app);
    LoadedApp(options, d, Rendered(LinesOf(c)));
  }

  lemma RestoredButPacketSize(options: seq<LongOption>, d: Config, c: Config)
    requires StartsFromDefaults(d) && TableOk(options) && ValueOk(c.app)
    ensures Loaded(options, d, Rendered(LinesOf(c)))
         == Restored(d, c).(packetSize := if c.packetSize == 1024 then 1392 else c.packetSize)
  {
    SavedLinesOk(c);
    LoadedRendered(options, d, LinesOf(c));
    AssignedLines(options, d, c);
  }

  /** Loading a saved file over the defaults restores what was saved, and nothing else changes,
      exactly when the packet size is not the one that is never written although it is not the
      default, and the app name is a value that can be written to one line. */
  lemma SavedFileRestores(d: Config, c: Config)
    requires StartsFromDefaults(d)
    ensures Loaded(LONG_OPTIONS, d, Rendered(LinesOf(c))) == Restored(d, c)
       <==> c.packetSize != 1024 && ValueOk(c.app)
  {
    if ValueOk(c.app) {
      SavedFileRestoresBut(d, c);
    } else {
      AppNotRestored(LONG_OPTIONS, d, c);
    }
  }

  /** What comes back whenever the app name can be written. */
  lemma SavedFileRestoresBut(d: Config, c: Config)
    requires StartsFromDefaults(d) && ValueOk(c.app)
    ensures Loaded(LONG_OPTIONS, d, Rendered(LinesOf(c)))
         == Restored(d, c).(packetSize := if c.packetSize == 1024 then 1392 else c.packetSize)
  {
    TableIsOk();
    RestoredButPacketSize(LONG_OPTIONS, d, c);
  }
}
