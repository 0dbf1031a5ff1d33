/** The cache of NV12 images imported in one piece, and the layout check in front of it
    (src/video/egl.c). */
module ExternalImages {

  import opened Counting
  import opened Arith
  import opened DmaBuf

  /** Everything an import depends on. */
  datatype Key = Key(fd: int, width: int, height: int, pitch: int, uvOffset: int, useBt709: bool, fullRange: bool)

  datatype Entry = Entry(key: Key, image: Image)

  /** The arguments of draw_dmabuf_nv12_external that the import depends on. */
  datatype Frame = Frame(fd: int, size: nat, width: int, height: int, pitch: int, uvOffset: int)

  // ---------------------------------------------------------------------------------------
  // The layout check

  /** The rows of a chroma plane, and the bytes of one of its rows. */
  function ChromaRows(height: int): int { (height + 1) / 2 }

  function ChromaBytes(width: int): int { 2 * ((width + 1) / 2) }

  /** The test at the top of draw_dmabuf_nv12_external, on the frame alone; its products are taken
      in 64 bits, where 32-bit operands cannot overflow. */
  predicate LayoutAccepted(f: Frame)
  {
    && f.fd >= 0 && f.width > 0 && f.height > 0
    && f.pitch > 0 && f.pitch >= f.width && f.pitch >= ChromaBytes(f.width)
    && f.uvOffset >= 0 && f.uvOffset % f.pitch == 0 && f.uvOffset >= f.pitch * f.height
    && f.uvOffset + f.pitch * ChromaRows(f.height) <= f.size
  }

  function LumaByte(f: Frame, x: int, y: int): int { y * f.pitch + x }

  function ChromaByte(f: Frame, b: int, row: int): int { f.uvOffset + row * f.pitch + b }

  /** Both planes lie inside the buffer, luma entirely before chroma, and neither overlaps itself. */
  ghost predicate PlanesFit(f: Frame)
  {
    && (forall x, y :: 0 <= x < f.width && 0 <= y < f.height ==> 0 <= LumaByte(f, x, y) < f.uvOffset)
    && (forall b, row :: 0 <= b < ChromaBytes(f.width) && 0 <= row < ChromaRows(f.height) ==>
          f.uvOffset <= ChromaByte(f, b, row) < f.size)
    && (forall x, y, x', y' :: 0 <= x < f.width && 0 <= x' < f.width ==>
          LumaByte(f, x, y) == LumaByte(f, x', y') ==> x == x' && y == y')
    && (forall b, row, b', row' :: 0 <= b < ChromaBytes(f.width) && 0 <= b' < ChromaBytes(f.width) ==>
          ChromaByte(f, b, row) == ChromaByte(f, b', row') ==> b == b' && row == row')
  }

  lemma RowInside(row: int, rows: int, b: int, pitch: int)
    requires 0 <= row < rows && 0 <= b < pitch
    ensures 0 <= row * pitch + b < pitch * rows
  {
    assert (row + 1) * pitch <= rows * pitch;
    assert (row + 1) * pitch == row * pitch + pitch;
    assert row * pitch >= 0;
  }

  lemma SameByteSameRow(row: int, b: int, row': int, b': int, pitch: int)
    requires 0 <= b < pitch && 0 <= b' < pitch && row * pitch + b == row' * pitch + b'
    ensures row == row' && b == b'
  {
    DivModUnique(row, b, pitch);
    DivModUnique(row', b', pitch);
  }

  lemma AcceptedLayoutFits(f: Frame)
    requires LayoutAccepted(f)
    ensures PlanesFit(f)
  {
    forall x, y | 0 <= x < f.width && 0 <= y < f.height ensures 0 <= LumaByte(f, x, y) < f.uvOffset {
      RowInside(y, f.height, x, f.pitch);
    }
    forall b, row | 0 <= b < ChromaBytes(f.width) && 0 <= row < ChromaRows(f.height)
      ensures f.uvOffset <= ChromaByte(f, b, row) < f.size
    {
      RowInside(row, ChromaRows(f.height), b, f.pitch);
    }
    forall x, y, x', y' | 0 <= x < f.width && 0 <= x' < f.width && LumaByte(f, x, y) == LumaByte(f, x', y')
      ensures x == x' && y == y'
    {
      SameByteSameRow(y, x, y', x', f.pitch);
    }
    forall b, row, b', row' | 0 <= b < ChromaBytes(f.width) && 0 <= b' < ChromaBytes(f.width)
                              && ChromaByte(f, b, row) == ChromaByte(f, b', row')
      ensures b == b' && row == row'
    {
      SameByteSameRow(row, b, row', b', f.pitch);
    }
  }

  // ---------------------------------------------------------------------------------------
  // The cache

  /** The cache, the colour mode, and the book-keeping the statements need: the key each image was
      made for, the images destroyed, and for each entry the frame whose check let it in. */
  datatype State = State(entries: seq<Entry>, useBt709: bool, fullRange: bool,
                         made: seq<Key>, destroyed: seq<nat>, frames: seq<Frame>, tries: seq<Key>)

  datatype Event =
    | Draw(frame: Frame, imported: bool)   // imported: EGL accepts the import, if it is tried
    | SetColorMode(useBt709: bool, fullRange: bool)
    | Reset                                // dmabuf_nv12_external_reset

  function KeyOf(s: State, f: Frame): Key
  {
    Key(f.fd, f.width, f.height, f.pitch, f.uvOffset, s.useBt709, s.fullRange)
  }

  /** The first entry with a key, or the number of entries. */
  function Find(entries: seq<Entry>, key: Key): (i: nat)
    ensures i <= |entries|
    ensures i < |entries| ==> entries[i].key == key
    ensures forall j :: 0 <= j < i ==> entries[j].key != key
  {
    if entries == [] || entries[0].key == key then 0 else 1 + Find(entries[1..], key)
  }

  /** The image the draw uses. */
  function Result(s: State, f: Frame, imported: bool): Image
  {
    var i := Find(s.entries, KeyOf(s, f));
    if !LayoutAccepted(f) then NoImage
    else if i < |s.entries| then s.entries[i].image
    else if |s.entries| >= DMABUF_MAX_IMAGES || !imported then NoImage
    else Image(|s.made|)
  }

  function ImagesOf(entries: seq<Entry>): seq<nat>
  {
    if entries == [] then []
    else ImagesOf(entries[..|entries| - 1]) + match entries[|entries| - 1].image
                                              case NoImage => []
                                              case Image(id) => [id]
  }

  function Step(s: State, e: Event): State
  {
    match e
    case Draw(f, imported) =>
      var key := KeyOf(s, f);
      if !LayoutAccepted(f) || Find(s.entries, key) < |s.entries| || |s.entries| >= DMABUF_MAX_IMAGES then s
      else
        s.(entries := s.entries + [Entry(key, if imported then Image(|s.made|) else NoImage)],
           made := if imported then s.made + [key] else s.made,
           frames := s.frames + [f],
           tries := s.tries + [key])
    case SetColorMode(useBt709, fullRange) => s.(useBt709 := useBt709, fullRange := fullRange)
    case Reset => s.(entries := [], destroyed := s.destroyed + ImagesOf(s.entries), frames := [], tries := [])
  }

  function Initial(useBt709: bool, fullRange: bool): State { State([], useBt709, fullRange, [], [], [], []) }

  function After(s: State, es: seq<Event>): State
    decreases |es|
  {
    if es == [] then s else After(Step(s, es[0]), es[1..])
  }

  // ---------------------------------------------------------------------------------------
  // What every run keeps

  ghost predicate KeysDistinct(s: State)
  {
    forall j, k :: 0 <= j < k < |s.entries| ==> s.entries[j].key != s.entries[k].key
  }

  /** Each entry's image was made for the entry's key. */
  ghost predicate MadeForKey(s: State)
  {
    forall k :: 0 <= k < |s.entries| && s.entries[k].image.Image? ==>
      s.entries[k].image.id < |s.made| && s.made[s.entries[k].image.id] == s.entries[k].key
  }

  /** Each entry passed the layout check for its own frame. */
  ghost predicate LetIn(s: State)
  {
    && |s.frames| == |s.entries| == |s.tries|
    && forall k :: 0 <= k < |s.entries| ==>
         && LayoutAccepted(s.frames[k])
         && s.entries[k].key == KeyOf(s, s.frames[k]).(useBt709 := s.entries[k].key.useBt709,
                                                       fullRange := s.entries[k].key.fullRange)
         && s.tries[k] == s.entries[k].key
  }

  /** Every image made is either cached or destroyed, in one place and once. */
  ghost predicate Ledger(s: State)
  {
    forall id: nat :: Times(ImagesOf(s.entries), id) + Times(s.destroyed, id) == if id < |s.made| then 1 else 0
  }

  ghost predicate Inv(s: State)
  {
    |s.entries| <= DMABUF_MAX_IMAGES && KeysDistinct(s) && MadeForKey(s) && LetIn(s) && Ledger(s)
  }

  lemma DrawKeepsLedger(s: State, f: Frame, imported: bool)
    requires Inv(s)
    ensures Ledger(Step(s, Draw(f, imported)))
  {
    var t := Step(s, Draw(f, imported));
    if t != s {
      assert t.entries[..|s.entries|] == s.entries;
      forall id: nat ensures Times(ImagesOf(t.entries), id) + Times(t.destroyed, id) == if id < |t.made| then 1 else 0 {
        assert Times(ImagesOf(s.entries), id) + Times(s.destroyed, id) == if id < |s.made| then 1 else 0;
        if imported {
          TimesConcat(ImagesOf(s.entries), [|s.made|], id);
          assert [|s.made|][..0] == [];
        } else {
          assert ImagesOf(s.entries) + [] == ImagesOf(s.entries);
        }
      }
    }
  }

  lemma ResetKeepsLedger(s: State)
    requires Inv(s)
    ensures Ledger(Step(s, Reset))
  {
    var t := Step(s, Reset);
    forall id: nat ensures Times(ImagesOf(t.entries), id) + Times(t.destroyed, id) == if id < |t.made| then 1 else 0 {
      assert Times(ImagesOf(s.entries), id) + Times(s.destroyed, id) == if id < |s.made| then 1 else 0;
      TimesConcat(s.destroyed, ImagesOf(s.entries), id);
    }
  }

  lemma StepKeepsInv(s: State, e: Event)
    requires Inv(s)
    ensures Inv(Step(s, e))
  {
    match e
    case Draw(f, imported) => DrawKeepsLedger(s, f, imported);
    case SetColorMode(_, _) =>
    case Reset => ResetKeepsLedger(s);
  }

  lemma {:induction false} RunKeepsInv(s: State, es: seq<Event>)
    requires Inv(s)
    ensures Inv(After(s, es))
    decreases |es|
  {
    if es != [] {
      StepKeepsInv(s, es[0]);
      RunKeepsInv(Step(s, es[0]), es[1..]);
    }
  }

  /** The layouts that are accepted; an offset past the luma rows is not negative. */
  lemma LayoutIs(f: Frame)
    ensures LayoutAccepted(f) <==>
              && f.fd >= 0 && f.width > 0 && f.height > 0 && f.pitch > 0 && f.pitch >= f.width
              && f.pitch >= 2 * ((f.width + 1) / 2) && f.uvOffset % f.pitch == 0 && f.uvOffset >= f.pitch * f.height
              && f.uvOffset + f.pitch * ((f.height + 1) / 2) <= f.size
  {
    if f.pitch > 0 && f.height > 0 { assert f.pitch * f.height >= 0; }
  }

  /** When a draw has an image, and which: the one held for its key, be it that none was made; or,
      when the key is new and there is room, the next one if the import succeeds. */
  lemma ResultIff(s: State, f: Frame, imported: bool, id: nat)
    requires Inv(s)
    ensures var key := Key(f.fd, f.width, f.height, f.pitch, f.uvOffset, s.useBt709, s.fullRange);
            Result(s, f, imported) == Image(id) <==>
              && f.fd >= 0 && f.width > 0 && f.height > 0 && f.pitch > 0 && f.pitch >= f.width
              && f.pitch >= 2 * ((f.width + 1) / 2) && f.uvOffset % f.pitch == 0 && f.uvOffset >= f.pitch * f.height
              && f.uvOffset + f.pitch * ((f.height + 1) / 2) <= f.size
              && (Entry(key, Image(id)) in s.entries ||
                  (imported && id == |s.made| && |s.entries| < 64 && forall e :: e in s.entries ==> e.key != key))
  {
    var key, i := KeyOf(s, f), Find(s.entries, KeyOf(s, f));
    if Entry(key, Image(id)) in s.entries {
      var j :| 0 <= j < |s.entries| && s.entries[j] == Entry(key, Image(id));
      assert i == j;
    }
    if i < |s.entries| { assert s.entries[i] in s.entries; }
    LayoutIs(f);
  }

  /** What a draw uses was made for its own key. */
  lemma ResultMadeForKey(s: State, f: Frame, imported: bool)
    requires Inv(s) && Result(s, f, imported).Image?
    ensures var id, t := Result(s, f, imported).id, Step(s, Draw(f, imported));
            id < |t.made| && t.made[id] == KeyOf(s, f)
  {
    assert Find(s.entries, KeyOf(s, f)) == |s.entries| || MadeForKey(s);
  }

  /** Over every run of draws, colour-mode changes and resets: full keys are distinct, every image
      is cached or destroyed exactly once, and what a draw uses was made for exactly its own key,
      by an import that had both planes inside the buffer it was checked against. */
  lemma DrawUsesOwnImage(useBt709: bool, fullRange: bool, es: seq<Event>, f: Frame, imported: bool)
    ensures var s := After(Initial(useBt709, fullRange), es);
            var t := Step(s, Draw(f, imported));
            && KeysDistinct(t) && Ledger(t)
            && (Result(s, f, imported).Image? ==>
                  && Result(s, f, imported).id < |t.made| && t.made[Result(s, f, imported).id] == KeyOf(s, f)
                  && Times(t.destroyed, Result(s, f, imported).id) == 0
                  && PlanesFit(f)
                  && exists k :: 0 <= k < |t.entries| && t.entries[k] == Entry(KeyOf(s, f), Result(s, f, imported)))
  {
    var s := After(Initial(useBt709, fullRange), es);
    var t := Step(s, Draw(f, imported));
    RunKeepsInv(Initial(useBt709, fullRange), es);
    StepKeepsInv(s, Draw(f, imported));
    if Result(s, f, imported).Image? {
      AcceptedLayoutFits(f);
      var k := Find(s.entries, KeyOf(s, f));
      assert t.entries[k] == Entry(KeyOf(s, f), Result(s, f, imported));
      CachedIsLive(t, k);
    }
  }

  lemma CachedIsLive(s: State, k: nat)
    requires Ledger(s) && k < |s.entries| && s.entries[k].image.Image?
    ensures s.entries[k].image.id < |s.made| && Times(s.destroyed, s.entries[k].image.id) == 0
  {
    var id := s.entries[k].image.id;
    ImagesHas(s.entries, k);
    TimesIn(ImagesOf(s.entries), id);
    assert Times(ImagesOf(s.entries), id) + Times(s.destroyed, id) == if id < |s.made| then 1 else 0;
  }

  lemma {:induction false} ImagesHas(entries: seq<Entry>, k: nat)
    requires k < |entries| && entries[k].image.Image?
    ensures entries[k].image.id in ImagesOf(entries)
    decreases |entries|
  {
    var n := |entries| - 1;
    if k < n { ImagesHas(entries[..n], k); }
  }

  /** Between resets no key is imported twice, whether or not its import succeeded; and a draw
      whose import once failed does not try again. */
  lemma ImportedOnce(useBt709: bool, fullRange: bool, es: seq<Event>)
    ensures var s := After(Initial(useBt709, fullRange), es);
            && (forall j, k :: 0 <= j < k < |s.tries| ==> s.tries[j] != s.tries[k])
            && forall f, imported :: KeyOf(s, f) in s.tries ==> Step(s, Draw(f, imported)) == s
  {
    RunKeepsInv(Initial(useBt709, fullRange), es);
    var s := After(Initial(useBt709, fullRange), es);
    forall f, imported | KeyOf(s, f) in s.tries ensures Step(s, Draw(f, imported)) == s {
      var k :| 0 <= k < |s.tries| && s.tries[k] == KeyOf(s, f);
      assert s.entries[k].key == KeyOf(s, f);
    }
  }

  // ---------------------------------------------------------------------------------------
  // The program's own table

  class Cache {
    const entries: array<Entry>
    var count: nat
    var useBt709: bool
    var fullRange: bool
    ghost var made: seq<Key>
    ghost var destroyed: seq<nat>
    ghost var frames: seq<Frame>
    ghost var tries: seq<Key>

    ghost predicate Valid()
      reads this
    {
      entries.Length == DMABUF_MAX_IMAGES && count <= DMABUF_MAX_IMAGES
    }

    ghost function Fields(): State
      reads this, entries
      requires Valid()
    {
      State(entries[..count], useBt709, fullRange, made, destroyed, frames, tries)
    }

    constructor (useBt709: bool, fullRange: bool)
      ensures Valid() && Fields() == Initial(useBt709, fullRange) && fresh(entries)
    {
      entries := new Entry[DMABUF_MAX_IMAGES](_ => Entry(Key(0, 0, 0, 0, 0, false, false), NoImage));
      count := 0;
      this.useBt709, this.fullRange := useBt709, fullRange;
      made, destroyed, frames, tries := [], [], [], [];
    }

    method SetMode(useBt709: bool, fullRange: bool)
      requires Valid()
      modifies this
      ensures Valid() && Fields() == Step(old(Fields()), SetColorMode(useBt709, fullRange))
    {
      this.useBt709 := useBt709;
      this.fullRange := fullRange;
    }

    /** dmabuf_get_nv12_external; `created` is what EGL answers to an import, if one is tried. */
    method GetImage(f: Frame, created: Image) returns (image: Image)
      requires Valid() && LayoutAccepted(f)
      requires created.Image? ==> created.id == |made|
      modifies this, entries
      ensures Valid() && Fields() == Step(old(Fields()), Draw(f, created.Image?))
      ensures image == Result(old(Fields()), f, created.Image?)
    {
      ghost var s := Fields();
      ghost var key := KeyOf(s, f);
      var i := 0;
      while i < count
        invariant 0 <= i <= count && Fields() == s
        invariant forall j :: 0 <= j < i ==> entries[j].key != key
      {
        var k := entries[i].key;
        if k.fd == f.fd && k.width == f.width && k.height == f.height && k.pitch == f.pitch &&
           k.uvOffset == f.uvOffset && k.useBt709 == useBt709 && k.fullRange == fullRange {
          FindFirst(s.entries, key, i);
          return entries[i].image;
        }
        i := i + 1;
      }
      if count >= DMABUF_MAX_IMAGES {
        return NoImage;
      }
      // a failed import is remembered like any other
      entries[count] := Entry(Key(f.fd, f.width, f.height, f.pitch, f.uvOffset, useBt709, fullRange), created);
      count := count + 1;
      if created.Image? {
        made := made + [key];
      }
      frames, tries := frames + [f], tries + [key];
      assert entries[..count] == s.entries + [Entry(key, created)];
      image := created;
    }

    /** draw_dmabuf_nv12_external up to the draw itself. */
    method DrawFrame(f: Frame, created: Image) returns (image: Image)
      requires Valid()
      requires created.Image? ==> created.id == |made|
      modifies this, entries
      ensures Valid() && Fields() == Step(old(Fields()), Draw(f, created.Image?))
      ensures image == Result(old(Fields()), f, created.Image?)
    {
      if f.fd < 0 || f.width <= 0 || f.height <= 0 || f.pitch <= 0 || f.pitch < f.width ||
         f.pitch < 2 * ((f.width + 1) / 2) || f.uvOffset < 0 || f.uvOffset % f.pitch != 0 ||
         f.uvOffset < f.pitch * f.height {
        return NoImage;
      }
      var required := f.uvOffset + f.pitch * ((f.height + 1) / 2);
      if required > f.size {
        return NoImage;
      }
      image := GetImage(f, created);
    }

    /** dmabuf_nv12_external_reset; the external path is only available with a destroy function. */
    method Clear()
      requires Valid()
      modifies this
      ensures Valid() && Fields() == Step(old(Fields()), Reset)
    {
      ghost var s := Fields();
      var i := 0;
      while i < count
        invariant Valid() && count == |s.entries| && 0 <= i <= count && entries[..count] == s.entries
        invariant destroyed == s.destroyed + ImagesOf(s.entries[..i])
        invariant useBt709 == s.useBt709 && fullRange == s.fullRange && made == s.made
      {
        assert s.entries[..i + 1][..i] == s.entries[..i];
        if entries[i].image != NoImage {
          destroyed := destroyed + [entries[i].image.id];
        }
        i := i + 1;
      }
      assert s.entries[..i] == s.entries;
      count := 0;
      frames, tries := [], [];
    }
  }

  lemma {:induction false} FindFirst(entries: seq<Entry>, key: Key, i: nat)
    requires i < |entries| && entries[i].key == key && forall j :: 0 <= j < i ==> entries[j].key != key
    ensures Find(entries, key) == i
    decreases i
  {
    if i > 0 {
      FindFirst(entries[1..], key, i - 1);
    }
  }
}
