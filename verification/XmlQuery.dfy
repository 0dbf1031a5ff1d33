/** The event handlers that read the host's XML answers (libgamestream/xml.c).

    The XML parser reports a document as a stream of start tags, end tags and pieces of text,
    and may cut a text into pieces anywhere.  The handlers fold that stream into a buffer, a
    counter and a list.  The theorems say what the folds compute on the document tree. */
module XmlQuery {

  import opened Text
  import opened Wrappers

  datatype Event = Start(name: string) | End(name: string) | Data(text: string)

  /** A document: elements, and texts in the pieces in which the parser reports them. */
  datatype Node = Element(name: string, children: Forest) | Characters(chunks: seq<string>)
  datatype Forest = Nil | Cons(head: Node, tail: Forest)

  function Joined(chunks: seq<string>): (s: string)
  {
    if chunks == [] then "" else chunks[0] + Joined(chunks[1..])
  }

  function DataEvents(chunks: seq<string>): (events: seq<Event>)
    ensures |events| == |chunks|
  {
    if chunks == [] then [] else [Data(chunks[0])] + DataEvents(chunks[1..])
  }

  /** What the parser reports for a piece of document. */
  function Events(f: Forest): (events: seq<Event>)
  {
    match f
    case Nil => []
    case Cons(Element(name, children), tail) =>
      [Start(name)] + Events(children) + [End(name)] + Events(tail)
    case Cons(Characters(chunks), tail) => DataEvents(chunks) + Events(tail)
  }

  // ---------------------------------------------------------------------------------------
  // The state of a query

  /** An allocated buffer, without content as long as nothing was written to it. */
  datatype Buffer = Garbage | Held(text: string)

  function Content(b: Buffer): string
  {
    match b
    case Garbage => ""
    case Held(text) => text
  }

  /** An entry of the application list.  The id is None when it was read from a buffer without
      content; the name is None while it is a null pointer. */
  datatype App = App(id: Option<int>, name: Option<Buffer>)

  /** struct xml_query; apps is the linked list, its head first. */
  datatype Query = Query(memory: Buffer, start: int, apps: seq<App>)

  /** _xml_write_data */
  function Write(q: Query, s: string): Query
  {
    if q.start > 0 then q.(memory := Held(Content(q.memory) + s)) else q
  }

  /** The handlers of xml_search. */
  function SearchStep(q: Query, node: string, e: Event): Query
  {
    match e
    case Start(name) => if name == node then q.(start := q.start + 1) else q
    case End(name) => if name == node then q.(start := q.start - 1) else q
    case Data(s) => Write(q, s)
  }

  function SearchRun(q: Query, node: string, events: seq<Event>): Query
    decreases |events|
  {
    if events == [] then q else SearchRun(SearchStep(q, node, events[0]), node, events[1..])
  }

  /** atoi of a buffer; what it gives for a buffer without content is not determined. */
  function ReadId(b: Buffer): Option<int>
  {
    match b
    case Garbage => None
    case Held(text) => Some(Atoi(text))
  }

  /** The handlers of xml_applist. */
  function ApplistStep(q: Query, e: Event): Query
  {
    match e
    case Start(name) =>
      if name == "App" then q.(apps := [App(Some(0), None)] + q.apps)
      else if name == "ID" || name == "AppTitle" then q.(memory := Garbage, start := 1)
      else q
    case End(name) =>
      if q.start == 0 || q.apps == [] then q
      else if name == "ID" then
        Query(Garbage, 0, [q.apps[0].(id := ReadId(q.memory))] + q.apps[1..])
      else if name == "AppTitle" then
        q.(start := 0, apps := [q.apps[0].(name := Some(q.memory))] + q.apps[1..])
      else q.(start := 0)
    case Data(s) => Write(q, s)
  }

  function ApplistRun(q: Query, events: seq<Event>): Query
    decreases |events|
  {
    if events == [] then q else ApplistRun(ApplistStep(q, events[0]), events[1..])
  }

  const FRESH: Query := Query(Held(""), 0, [])

  // ---------------------------------------------------------------------------------------
  // The handlers

  class Parser {
    var memory: Buffer
    var start: int
    var apps: seq<App>

    ghost function View(): Query
      reads this
    {
      Query(memory, start, apps)
    }

    constructor ()
      ensures View() == FRESH
    {
      memory, start, apps := Held(""), 0, [];
    }

    method StartElement(node: string, name: string)
      modifies this
      ensures View() == SearchStep(old(View()), node, Start(name))
    {
      if node == name { start := start + 1; }
    }

    method EndElement(node: string, name: string)
      modifies this
      ensures View() == SearchStep(old(View()), node, End(name))
    {
      if node == name { start := start - 1; }
    }

    method StartApplistElement(name: string)
      modifies this
      ensures View() == ApplistStep(old(View()), Start(name))
    {
      if name == "App" {
        apps := [App(Some(0), None)] + apps;
      } else if name == "ID" || name == "AppTitle" {
        memory := Garbage;
        start := 1;
      }
    }

    method EndApplistElement(name: string)
      modifies this
      ensures View() == ApplistStep(old(View()), End(name))
    {
      if start != 0 {
        if apps == [] { return; }
        if name == "ID" {
          apps := apps[0 := apps[0].(id := ReadId(memory))];
          memory := Garbage;
        } else if name == "AppTitle" {
          apps := apps[0 := apps[0].(name := Some(memory))];
        }
        start := 0;
      }
    }

    method WriteData(s: string)
      modifies this
      ensures View() == Write(old(View()), s)
    {
      if start > 0 { memory := Held(Content(memory) + s); }
    }

    /** The parser hands over one event after the other. */
    method Search(node: string, events: seq<Event>)
      modifies this
      ensures View() == SearchRun(old(View()), node, events)
    {
      for i := 0 to |events|
        invariant SearchRun(View(), node, events[i..]) == SearchRun(old(View()), node, events)
      {
        assert events[i..][0] == events[i] && events[i..][1..] == events[i + 1..];
        match events[i]
        case Start(name) => StartElement(node, name);
        case End(name) => EndElement(node, name);
        case Data(s) => WriteData(s);
      }
    }

    method Applist(events: seq<Event>)
      modifies this
      ensures View() == ApplistRun(old(View()), events)
    {
      for i := 0 to |events|
        invariant ApplistRun(View(), events[i..]) == ApplistRun(old(View()), events)
      {
        assert events[i..][0] == events[i] && events[i..][1..] == events[i + 1..];
        match events[i]
        case Start(name) => StartApplistElement(name);
        case End(name) => EndApplistElement(name);
        case Data(s) => WriteData(s);
      }
    }
  }

  /** xml_search: nothing when the document is malformed, and the events end early. */
  method XmlSearch(events: seq<Event>, wellFormed: bool, node: string)
    returns (result: Option<string>)
    ensures result == if wellFormed then Some(Content(SearchRun(FRESH, node, events).memory)) else None
  {
    var parser := new Parser();
    parser.Search(node, events);
    if !wellFormed { return None; }
    return Some(Content(parser.memory));
  }

  /** xml_applist */
  method XmlApplist(events: seq<Event>, wellFormed: bool) returns (result: Option<seq<App>>)
    ensures result == if wellFormed then Some(ApplistRun(FRESH, events).apps) else None
  {
    var parser := new Parser();
    parser.Applist(events);
    if !wellFormed { return None; }
    return Some(parser.apps);
  }

  // ---------------------------------------------------------------------------------------
  // Searching

  lemma {:induction false} SearchRunAppend(q: Query, node: string, a: seq<Event>, b: seq<Event>)
    ensures SearchRun(q, node, a + b) == SearchRun(SearchRun(q, node, a), node, b)
    decreases |a|
  {
    if a == [] {
      assert a + b == b;
    } else {
      assert (a + b)[1..] == a[1..] + b;
      SearchRunAppend(SearchStep(q, node, a[0]), node, a[1..], b);
    }
  }

  lemma SearchRunOne(q: Query, node: string, e: Event)
    ensures SearchRun(q, node, [e]) == SearchStep(q, node, e)
  {
    assert [e][1..] == [];
  }

  /** All text of f, in document order, that has an element called node above it. */
  function TextBelow(f: Forest, above: set<string>, node: string): string
  {
    match f
    case Nil => ""
    case Cons(Element(name, children), tail) =>
      TextBelow(children, above + {name}, node) + TextBelow(tail, above, node)
    case Cons(Characters(chunks), tail) =>
      (if node in above then Joined(chunks) else "") + TextBelow(tail, above, node)
  }

  function Extended(q: Query, s: string): Query
  {
    if s == "" then q else q.(memory := Held(Content(q.memory) + s))
  }

  lemma {:induction false} SearchData(q: Query, node: string, chunks: seq<string>)
    requires q.memory.Held?
    ensures SearchRun(q, node, DataEvents(chunks))
         == Extended(q, if q.start > 0 then Joined(chunks) else "")
    decreases |chunks|
  {
    if chunks != [] {
      var events := DataEvents(chunks);
      assert events[1..] == DataEvents(chunks[1..]);
      var next := SearchStep(q, node, events[0]);
      SearchData(next, node, chunks[1..]);
      assert q.memory.text + chunks[0] + Joined(chunks[1..]) == q.memory.text + (chunks[0] + Joined(chunks[1..]));
    }
  }

  /** The counter is the number of open elements of that name: whatever it was before a piece of
      document it is again after it, and only text below such an element was collected. */
  lemma {:induction false} SearchCollects(q: Query, f: Forest, above: set<string>, node: string)
    requires q.memory.Held? && 0 <= q.start && (q.start > 0 <==> node in above)
    ensures SearchRun(q, node, Events(f)) == Extended(q, TextBelow(f, above, node))
    decreases f, 0
  {
    match f
    case Nil =>
    case Cons(Element(name, children), tail) =>
      SearchElement(q, name, children, above, node);
      var inner := [Start(name)] + Events(children) + [End(name)];
      var middle := SearchRun(q, node, inner);
      SearchRunAppend(q, node, inner, Events(tail));
      SearchCollects(middle, tail, above, node);
      ExtendTwice(q, TextBelow(children, above + {name}, node), TextBelow(tail, above, node));
    case Cons(Characters(chunks), tail) =>
      SearchRunAppend(q, node, DataEvents(chunks), Events(tail));
      SearchData(q, node, chunks);
      var own := if q.start > 0 then Joined(chunks) else "";
      SearchCollects(Extended(q, own), tail, above, node);
      ExtendTwice(q, own, TextBelow(tail, above, node));
  }

  lemma {:induction false} SearchElement(
    q: Query, name: string, children: Forest, above: set<string>, node: string)
    requires q.memory.Held? && 0 <= q.start && (q.start > 0 <==> node in above)
    ensures SearchRun(q, node, [Start(name)] + Events(children) + [End(name)])
         == Extended(q, TextBelow(children, above + {name}, node))
    decreases children, 1
  {
    var inside := SearchStep(q, node, Start(name));
    SearchRunAppend(q, node, [Start(name)] + Events(children), [End(name)]);
    SearchRunAppend(q, node, [Start(name)], Events(children));
    SearchRunOne(q, node, Start(name));
    SearchCollects(inside, children, above + {name}, node);
    SearchRunOne(SearchRun(inside, node, Events(children)), node, End(name));
  }

  lemma ExtendTwice(q: Query, s: string, t: string)
    requires q.memory.Held?
    ensures Extended(Extended(q, s), t) == Extended(q, s + t)
  {
    assert q.memory.text + s + t == q.memory.text + (s + t);
    assert s == "" ==> s + t == t;
    assert t == "" ==> s + t == s;
    assert s != "" ==> s + t != "";
  }

  /** xml_search returns the text below the elements of the given name, in document order, and
      the nesting counter is back at zero. */
  lemma SearchFindsText(f: Forest, node: string)
    ensures SearchRun(FRESH, node, Events(f)).start == 0
    ensures SearchRun(FRESH, node, Events(f)).memory == Held(TextBelow(f, {}, node))
  {
    SearchCollects(FRESH, f, {}, node);
    assert "" + TextBelow(f, {}, node) == TextBelow(f, {}, node);
  }

  /** The same document with every text in one piece. */
  function Whole(f: Forest): Forest
  {
    match f
    case Nil => Nil
    case Cons(Element(name, children), tail) => Cons(Element(name, Whole(children)), Whole(tail))
    case Cons(Characters(chunks), tail) => Cons(Characters([Joined(chunks)]), Whole(tail))
  }

  lemma JoinedOne(s: string)
    ensures Joined([s]) == s
  {
    assert [s][1..] == [];
  }

  lemma {:induction false} WholeTextBelow(f: Forest, above: set<string>, node: string)
    ensures TextBelow(Whole(f), above, node) == TextBelow(f, above, node)
    decreases f
  {
    match f
    case Nil =>
    case Cons(Element(name, children), tail) =>
      WholeTextBelow(children, above + {name}, node);
      WholeTextBelow(tail, above, node);
    case Cons(Characters(chunks), tail) =>
      JoinedOne(Joined(chunks));
      WholeTextBelow(tail, above, node);
  }

  /** How the parser cuts the texts into pieces makes no difference. */
  lemma SearchIgnoresCuts(f: Forest, g: Forest, node: string)
    requires Whole(f) == Whole(g)
    ensures SearchRun(FRESH, node, Events(f)) == SearchRun(FRESH, node, Events(g))
  {
    SearchCollects(FRESH, f, {}, node);
    SearchCollects(FRESH, g, {}, node);
    WholeTextBelow(f, {}, node);
    WholeTextBelow(g, {}, node);
  }

  // ---------------------------------------------------------------------------------------
  // The application list

  predicate Special(name: string)
  {
    name == "App" || name == "ID" || name == "AppTitle"
  }

  /** Text only, as below an ID or AppTitle element. */
  predicate TextOnly(f: Forest)
  {
    match f
    case Nil => true
    case Cons(Element(_, _), _) => false
    case Cons(Characters(_), tail) => TextOnly(tail)
  }

  /** The buffer after the text was written to a new one. */
  function Written(b: Buffer, f: Forest): Buffer
    requires TextOnly(f)
    decreases f
  {
    match f
    case Nil => b
    case Cons(Characters(chunks), tail) =>
      Written(if chunks == [] then b else Held(Content(b) + Joined(chunks)), tail)
  }

  /** What may be below an App element: no further App, and text only below ID and AppTitle. */
  predicate AppBody(f: Forest)
  {
    match f
    case Nil => true
    case Cons(Element(name, children), tail) =>
      name != "App" && AppBody(tail) &&
      (if Special(name) then TextOnly(children) else AppBody(children))
    case Cons(Characters(_), tail) => AppBody(tail)
  }

  /** ID and AppTitle are found below App elements only. */
  predicate AppDocument(f: Forest)
  {
    match f
    case Nil => true
    case Cons(Element(name, children), tail) =>
      AppDocument(tail) &&
      (if name == "App" then AppBody(children) else !Special(name) && AppDocument(children))
    case Cons(Characters(_), tail) => AppDocument(tail)
  }

  /** An application as its element describes it: the last ID and the last AppTitle count. */
  function Described(app: App, f: Forest): App
    requires AppBody(f)
    decreases f
  {
    match f
    case Nil => app
    case Cons(Element(name, children), tail) =>
      var first :=
        if name == "ID" then app.(id := ReadId(Written(Garbage, children)))
        else if name == "AppTitle" then app.(name := Some(Written(Garbage, children)))
        else Described(app, children);
      Described(first, tail)
    case Cons(Characters(_), tail) => Described(app, tail)
  }

  /** The applications of a document, in document order. */
  function Apps(f: Forest): seq<App>
    requires AppDocument(f)
  {
    match f
    case Nil => []
    case Cons(Element(name, children), tail) =>
      (if name == "App" then [Described(App(Some(0), None), children)] else Apps(children)) + Apps(tail)
    case Cons(Characters(_), tail) => Apps(tail)
  }

  function Reversed<T>(s: seq<T>): (r: seq<T>)
    ensures |r| == |s| && forall k :: 0 <= k < |s| ==> r[k] == s[|s| - 1 - k]
  {
    if s == [] then [] else Reversed(s[1..]) + [s[0]]
  }

  lemma {:induction false} ApplistRunAppend(q: Query, a: seq<Event>, b: seq<Event>)
    ensures ApplistRun(q, a + b) == ApplistRun(ApplistRun(q, a), b)
    decreases |a|
  {
    if a == [] {
      assert a + b == b;
    } else {
      assert (a + b)[1..] == a[1..] + b;
      ApplistRunAppend(ApplistStep(q, a[0]), a[1..], b);
    }
  }

  lemma {:induction false} ApplistRunElement(q: Query, name: string, inner: seq<Event>, rest: seq<Event>)
    ensures ApplistRun(q, [Start(name)] + inner + [End(name)] + rest)
         == ApplistRun(ApplistStep(ApplistRun(ApplistStep(q, Start(name)), inner), End(name)), rest)
  {
    var all := [Start(name)] + inner + [End(name)] + rest;
    assert all[1..] == inner + ([End(name)] + rest);
    ApplistRunAppend(ApplistStep(q, Start(name)), inner, [End(name)] + rest);
    assert ([End(name)] + rest)[1..] == rest;
  }

  lemma {:induction false} ApplistData(q: Query, chunks: seq<string>)
    ensures ApplistRun(q, DataEvents(chunks))
         == if q.start > 0 && chunks != [] then q.(memory := Held(Content(q.memory) + Joined(chunks))) else q
    decreases |chunks|
  {
    if chunks != [] {
      var events := DataEvents(chunks);
      assert events[1..] == DataEvents(chunks[1..]);
      ApplistData(ApplistStep(q, events[0]), chunks[1..]);
      assert Content(q.memory) + chunks[0] + Joined(chunks[1..])
          == Content(q.memory) + (chunks[0] + Joined(chunks[1..]));
      assert chunks[1..] == [] ==> chunks[0] + Joined(chunks[1..]) == chunks[0];
    }
  }

  lemma {:induction false} ApplistLeaf(q: Query, f: Forest)
    requires TextOnly(f) && q.start > 0
    ensures ApplistRun(q, Events(f)) == q.(memory := Written(q.memory, f))
    decreases f
  {
    if f.Cons? {
      var chunks := f.head.chunks;
      ApplistRunAppend(q, DataEvents(chunks), Events(f.tail));
      ApplistData(q, chunks);
      ApplistLeaf(ApplistRun(q, DataEvents(chunks)), f.tail);
    }
  }

  /** Outside ID and AppTitle, the buffer may be anything; what counts is the list. */
  predicate Idle(q: Query, apps: seq<App>)
  {
    q.start == 0 && q.apps == apps
  }

  /** Below an App element, only the first entry of the list changes. */
  lemma {:induction false} BodyFillsHead(q: Query, f: Forest)
    requires AppBody(f) && q.start == 0 && q.apps != []
    ensures Idle(ApplistRun(q, Events(f)), [Described(q.apps[0], f)] + q.apps[1..])
    decreases f
  {
    match f
    case Nil =>
    case Cons(Element(name, children), tail) =>
      ApplistRunElement(q, name, Events(children), Events(tail));
      var enter := ApplistStep(q, Start(name));
      if Special(name) {
        ApplistLeaf(enter, children);
      } else {
        BodyFillsHead(enter, children);
      }
      BodyFillsHead(ApplistStep(ApplistRun(enter, Events(children)), End(name)), tail);
    case Cons(Characters(chunks), tail) =>
      ApplistRunAppend(q, DataEvents(chunks), Events(tail));
      ApplistData(q, chunks);
      BodyFillsHead(q, tail);
  }

  lemma ReversedAppend<T>(a: seq<T>, b: seq<T>)
    ensures Reversed(a + b) == Reversed(b) + Reversed(a)
  {
  }

  lemma {:induction false} DocumentPushes(q: Query, f: Forest)
    requires AppDocument(f) && q.start == 0
    ensures Idle(ApplistRun(q, Events(f)), Reversed(Apps(f)) + q.apps)
    decreases f, 1
  {
    match f
    case Nil =>
    case Cons(Element(name, children), tail) =>
      var after := ElementPushes(q, f);
      DocumentPushes(after, tail);
      PushTwice(FirstApps(f), Apps(tail), q.apps);
    case Cons(Characters(chunks), tail) =>
      ApplistRunAppend(q, DataEvents(chunks), Events(tail));
      ApplistData(q, chunks);
      DocumentPushes(q, tail);
  }

  /** The applications of the first element. */
  function FirstApps(f: Forest): seq<App>
    requires AppDocument(f) && f.Cons? && f.head.Element?
  {
    if f.head.name == "App" then [Described(App(Some(0), None), f.head.children)] else Apps(f.head.children)
  }

  lemma {:induction false} ElementPushes(q: Query, f: Forest) returns (after: Query)
    requires AppDocument(f) && q.start == 0 && f.Cons? && f.head.Element?
    ensures Idle(after, Reversed(FirstApps(f)) + q.apps)
    ensures ApplistRun(q, Events(f)) == ApplistRun(after, Events(f.tail))
    decreases f, 0
  {
    var name, children := f.head.name, f.head.children;
    var enter := ApplistStep(q, Start(name));
    ApplistRunElement(q, name, Events(children), Events(f.tail));
    if name == "App" {
      BodyFillsHead(enter, children);
      assert enter.apps[1..] == q.apps;
    } else {
      DocumentPushes(enter, children);
    }
    after := ApplistStep(ApplistRun(enter, Events(children)), End(name));
  }

  lemma PushTwice(a: seq<App>, b: seq<App>, c: seq<App>)
    ensures Reversed(b) + (Reversed(a) + c) == Reversed(a + b) + c
  {
    ReversedAppend(a, b);
  }

  /** xml_applist returns the applications in reverse document order, each one as its own
      element describes it. */
  lemma ApplistReverses(f: Forest)
    requires AppDocument(f)
    ensures ApplistRun(FRESH, Events(f)).apps == Reversed(Apps(f))
  {
    DocumentPushes(FRESH, f);
    assert Reversed(Apps(f)) + [] == Reversed(Apps(f));
  }

  // ---------------------------------------------------------------------------------------
  // What an application's element says

  /** The texts of the elements of one name below an App element, in document order. */
  function Leaves(f: Forest, leaf: string): (buffers: seq<Buffer>)
    requires AppBody(f)
    decreases f
  {
    match f
    case Nil => []
    case Cons(Element(name, children), tail) =>
      (if name == leaf && Special(name) then [Written(Garbage, children)]
       else if Special(name) then []
       else Leaves(children, leaf)) + Leaves(tail, leaf)
    case Cons(Characters(_), tail) => Leaves(tail, leaf)
  }

  function LastId(ids: seq<Buffer>, otherwise: Option<int>): Option<int>
  {
    if ids == [] then otherwise else ReadId(ids[|ids| - 1])
  }

  function LastName(names: seq<Buffer>, otherwise: Option<Buffer>): Option<Buffer>
  {
    if names == [] then otherwise else Some(names[|names| - 1])
  }

  lemma LastOfBoth(a: seq<Buffer>, b: seq<Buffer>, id: Option<int>, name: Option<Buffer>)
    ensures LastId(a + b, id) == LastId(b, LastId(a, id))
    ensures LastName(a + b, name) == LastName(b, LastName(a, name))
  {
    assert b == [] ==> a + b == a;
  }

  /** Whatever else is below an App element, its last ID and its last AppTitle are what the
      application gets; without an ID the id stays 0, without an AppTitle the name stays null. */
  lemma {:induction false} DescribedByLast(app: App, f: Forest)
    requires AppBody(f)
    ensures Described(app, f)
         == App(LastId(Leaves(f, "ID"), app.id), LastName(Leaves(f, "AppTitle"), app.name))
    decreases f
  {
    match f
    case Nil =>
    case Cons(Element(name, children), tail) =>
      var ids, names := HeadLeaves(f, "ID"), HeadLeaves(f, "AppTitle");
      if !Special(name) { DescribedByLast(app, children); }
      DescribedByLast(App(LastId(ids, app.id), LastName(names, app.name)), tail);
      LastOfBoth(ids, Leaves(tail, "ID"), app.id, app.name);
      LastOfBoth(names, Leaves(tail, "AppTitle"), app.id, app.name);
    case Cons(Characters(_), tail) => DescribedByLast(app, tail);
  }

  function HeadLeaves(f: Forest, leaf: string): seq<Buffer>
    requires AppBody(f) && f.Cons? && f.head.Element?
  {
    if f.head.name == leaf && Special(leaf) then [Written(Garbage, f.head.children)]
    else if Special(f.head.name) then []
    else Leaves(f.head.children, leaf)
  }

  predicate HasText(f: Forest)
    requires TextOnly(f)
  {
    f.Cons? && (f.head.chunks != [] || HasText(f.tail))
  }

  /** The buffer holds all the text below the element; it has content unless there was none. */
  lemma {:induction false} WrittenIs(b: Buffer, f: Forest, above: string)
    requires TextOnly(f)
    ensures Written(b, f)
         == if HasText(f) then Held(Content(b) + TextBelow(f, {above}, above)) else b
    decreases f
  {
    if f.Cons? {
      var chunks := f.head.chunks;
      var next := if chunks == [] then b else Held(Content(b) + Joined(chunks));
      WrittenIs(next, f.tail, above);
      NoText(f.tail, above);
      var own, rest := Joined(chunks), TextBelow(f.tail, {above}, above);
      assert TextBelow(f, {above}, above) == own + rest;
      AppendTwice(Content(b), own, rest);
      if chunks == [] { assert own + rest == rest; }
      if rest == "" { assert own + rest == own; }
    }
  }

  lemma AppendTwice(a: string, b: string, c: string)
    ensures a + b + c == a + (b + c)
  {
  }

  lemma {:induction false} NoText(f: Forest, above: string)
    requires TextOnly(f)
    ensures !HasText(f) ==> TextBelow(f, {above}, above) == ""
    decreases f
  {
    if f.Cons? { NoText(f.tail, above); }
  }

  /** One App element by itself: an entry whose id is 0 without an ID element and not determined
      when the last one is empty, and whose name is the text of the last AppTitle, or null. */
  lemma AppAlone(body: Forest)
    requires AppBody(body)
    ensures var apps := ApplistRun(FRESH, Events(Cons(Element("App", body), Nil))).apps;
            var ids, names := Leaves(body, "ID"), Leaves(body, "AppTitle");
            |apps| == 1
            && (ids == [] ==> apps[0].id == Some(0))
            && (ids != [] && ids[|ids| - 1] == Garbage ==> apps[0].id == None)
            && apps[0].name == if names == [] then None else Some(names[|names| - 1])
  {
    var f := Cons(Element("App", body), Nil);
    ApplistReverses(f);
    DescribedByLast(App(Some(0), None), body);
    assert Apps(f) == [Described(App(Some(0), None), body)];
  }

  /** The id is the number at the start of the last ID's text: decimal, after white space and
      with at most a sign, up to the first character that is no digit; without one it is 0. */
  lemma IdIsNumber(app: App, body: Forest, spaces: string, digits: string, rest: string)
    requires AppBody(body) && Leaves(body, "ID") != []
    requires AllBlank(spaces) && NoDigitFirst(rest) && digits != [] && Decimal(digits)
    ensures var id, last := Described(app, body).id, Leaves(body, "ID")[|Leaves(body, "ID")| - 1];
            && (last == Held(spaces + (digits + rest)) ==> id == Some(Weighted(digits)))
            && (last == Held(spaces + (['+'] + (digits + rest))) ==> id == Some(Weighted(digits)))
            && (last == Held(spaces + (['-'] + (digits + rest))) ==> id == Some(-Weighted(digits)))
            && (last == Held(spaces + rest) && !SignFirst(rest) && (rest == [] || !AllBlank([rest[0]])) ==>
                  id == Some(0))
  {
    DescribedByLast(app, body);
    AtoiUnsigned(spaces, digits, rest);
    AtoiSigned(spaces, '+', digits, rest);
    AtoiSigned(spaces, '-', digits, rest);
    if !SignFirst(rest) && (rest == [] || !AllBlank([rest[0]])) { AtoiNothing(spaces, rest); }
  }
}
