/** When a frame is drawn, and from what: the answers of the zero-copy branch (src/video/x11.c,
    src/video/egl.c, src/video/ffmpeg_vaapi.c) told by what the tables hold and what the libraries
    say, rather than by the steps that find it out. */
module DrawnFrames {

  import opened DmaBuf
  import External = ExternalImages
  import opened SurfaceImages
  import opened Wrappers

  /** The frame has the size that is remembered, so that the caches are not emptied. */
  predicate SameSize(s: State, f: Frame)
  {
    f.width == s.lastWidth && f.height == s.lastHeight
  }

  /** The descriptor of the frame's surface: one it was exported with before, or, with room for
      another export, the one the library hands out now. */
  ghost predicate HasDescriptor(s: State, f: Frame, d: Descriptor)
  {
    Export(f.surface, d) in s.exports ||
    (f.answers.exported == Some(d) && |s.exports| < 64 && forall x :: x in s.exports ==> x.surface != f.surface)
  }

  /** The planes of descriptor d, given what is held and how many images were made: both images of
      its entry; or, when it has none and there is room, two new ones if both imports succeed. */
  ghost predicate GivesPlanes(held: seq<Entry>, made: nat, d: Descriptor, a: Answers, y: nat, uv: nat)
  {
    Entry(d.fd, Image(y), Image(uv)) in held ||
    (a.yOk && a.uvOk && y == made && uv == made + 1 && |held| < 64 && forall e :: e in held ==> e.fd != d.fd)
  }

  ghost predicate GivesTile(held: seq<Tile>, made: nat, d: Descriptor, a: Answers, id: nat)
  {
    Tile(d.fd, id) in held ||
    (a.tileOk && id == made && |held| < 64 && forall tile :: tile in held ==> tile.fd != d.fd)
  }

  /** Both planes of the frame, by rows of the pitch, lie one after the other in the buffer. */
  predicate LayoutFits(d: Descriptor, f: Frame)
  {
    && d.fd >= 0 && f.width > 0 && f.height > 0
    && d.pitch >= f.width && d.pitch >= 2 * ((f.width + 1) / 2) && d.uvOffset >= d.pitch * f.height
    && d.uvOffset + d.pitch * ((f.height + 1) / 2) <= d.size
  }

  function WholeKey(s: State, d: Descriptor, f: Frame): External.Key
  {
    External.Key(d.fd, f.width, f.height, d.pitch, d.uvOffset, s.external.useBt709, s.external.fullRange)
  }

  /** The whole-frame image, for a layout that the external path accepts. */
  ghost predicate GivesWhole(held: seq<External.Entry>, s: State, d: Descriptor, f: Frame, id: nat)
  {
    var key := WholeKey(s, d, f);
    LayoutFits(d, f) &&
    (External.Entry(key, Image(id)) in held ||
      (f.answers.externalOk && id == |s.external.made| && |held| < 64 && forall e :: e in held ==> e.key != key))
  }

  /** A row of the frame fits the pitch, and the chroma plane starts with a row. */
  predicate PitchFits(d: Descriptor, f: Frame)
  {
    d.pitch > 0 && d.pitch >= f.width && d.uvOffset % d.pitch == 0
  }

  /** A frame with descriptor d is drawn from one image of all of it. */
  ghost predicate DrawnWhole(s: State, f: Frame, d: Descriptor, id: nat)
  {
    !d.tiled && s.settings.external && PitchFits(d, f) && f.answers.drawOk &&
    GivesWhole(if SameSize(s, f) then s.external.entries else [], s, d, f, id)
  }

  /** It is drawn from two planes. */
  ghost predicate DrawnPlanes(s: State, f: Frame, d: Descriptor, y: nat, uv: nat)
  {
    && !d.tiled && s.settings.twoPlane && PitchFits(d, f) && (forall id :: !DrawnWhole(s, f, d, id))
    && GivesPlanes(if SameSize(s, f) then s.entries else [], |s.made|, d, f.answers, y, uv)
  }

  /** It is drawn from the image of a tiled buffer. */
  ghost predicate DrawnTiled(s: State, f: Frame, d: Descriptor, id: nat)
  {
    d.tiled && s.settings.tiled && d.pitch > 0 &&
    GivesTile(if SameSize(s, f) then s.tiles else [], |s.made|, d, f.answers, id)
  }

  // ---------------------------------------------------------------------------------------
  // The three caches

  lemma PlanesIff(s: State, d: Descriptor, f: Frame, y: nat, uv: nat)
    requires FdsDistinct(s) && d.fd in s.open
    ensures var drawn := GetPlanes(s, d, f).1;
            && (drawn == Planes(y, uv) <==> GivesPlanes(s.entries, |s.made|, d, f.answers, y, uv))
            && (drawn.Planes? || drawn.Nothing?)
  {
    var i := FindEntry(s.entries, d.fd);
    if Entry(d.fd, Image(y), Image(uv)) in s.entries {
      var j :| 0 <= j < |s.entries| && s.entries[j] == Entry(d.fd, Image(y), Image(uv));
      assert i == j;
    }
    if i < |s.entries| { assert s.entries[i] in s.entries; }
  }

  lemma TileIff(s: State, d: Descriptor, f: Frame, id: nat)
    requires FdsDistinct(s) && d.fd in s.open && d.pitch > 0
    ensures var drawn := GetTile(s, d, f).1;
            && (drawn == Tiled(id) <==> GivesTile(s.tiles, |s.made|, d, f.answers, id))
            && (drawn.Tiled? || drawn.Nothing?)
  {
    var i := FindTile(s.tiles, d.fd);
    if Tile(d.fd, id) in s.tiles {
      var j :| 0 <= j < |s.tiles| && s.tiles[j] == Tile(d.fd, id);
      assert i == j;
    }
    if i < |s.tiles| { assert s.tiles[i] in s.tiles; }
  }

  lemma WholeIff(s: State, d: Descriptor, f: Frame, id: nat)
    requires External.Inv(s.external) && d.fd in s.open && PitchFits(d, f)
    ensures GetWhole(s, d, f).1 == Image(id) <==> GivesWhole(s.external.entries, s, d, f, id)
  {
    External.ResultIff(s.external, ExternalFrame(d, f.width, f.height), f.answers.externalOk, id);
  }

  // ---------------------------------------------------------------------------------------
  // The frame

  lemma LinearWholeIff(surfaces: Surfaces, s: State, f: Frame, d: Descriptor, id: nat)
    requires Inv(surfaces, s) && d.fd in s.open && !d.tiled
    ensures DrawLinear(s, d, f).1 == Whole(id) <==> DrawnWhole(s, f, d, id)
  {
    var t := ResizeLinear(s, f.width, f.height);
    ResizeKeepsInv(surfaces, s, f.width, f.height);
    if PitchFits(d, f) {
      WholeIff(t, d, f, id);
      PlanesOrNothing(t, d, f);
      PlanesOrNothing(GetWhole(t, d, f).0, d, f);
    }
  }

  lemma PlanesOrNothing(s: State, d: Descriptor, f: Frame)
    requires d.fd in s.open
    ensures !GetPlanes(s, d, f).1.Whole? && !GetPlanes(s, d, f).1.Tiled?
  {
  }

  lemma LinearPlanesIff(surfaces: Surfaces, s: State, f: Frame, d: Descriptor, y: nat, uv: nat)
    requires Inv(surfaces, s) && d.fd in s.open && !d.tiled
    requires forall id :: DrawLinear(s, d, f).1 == Whole(id) <==> DrawnWhole(s, f, d, id)
    ensures DrawLinear(s, d, f).1 == Planes(y, uv) <==> DrawnPlanes(s, f, d, y, uv)
  {
    var t := ResizeLinear(s, f.width, f.height);
    ResizeKeepsInv(surfaces, s, f.width, f.height);
    PlanesIff(t, d, f, y, uv);
    if s.settings.external {
      PlanesIff(GetWhole(t, d, f).0, d, f, y, uv);
    }
  }

  lemma LinearIff(surfaces: Surfaces, s: State, f: Frame, d: Descriptor)
    requires Inv(surfaces, s) && d.fd in s.open && !d.tiled
    ensures var drawn := DrawLinear(s, d, f).1;
            && (forall id :: drawn == Whole(id) <==> DrawnWhole(s, f, d, id))
            && (forall y, uv :: drawn == Planes(y, uv) <==> DrawnPlanes(s, f, d, y, uv))
            && !drawn.Tiled?
  {
    var drawn := DrawLinear(s, d, f).1;
    forall id: nat ensures drawn == Whole(id) <==> DrawnWhole(s, f, d, id) {
      LinearWholeIff(surfaces, s, f, d, id);
    }
    forall y: nat, uv: nat ensures drawn == Planes(y, uv) <==> DrawnPlanes(s, f, d, y, uv) {
      LinearPlanesIff(surfaces, s, f, d, y, uv);
    }
  }

  lemma SomeDescriptor(s: State, f: Frame)
    ensures var i := FindExport(s.exports, f.surface);
            && (i < |s.exports| ==> HasDescriptor(s, f, s.exports[i].desc))
            && (i == |s.exports| && f.answers.exported.Some? && |s.exports| < 64 ==>
                  HasDescriptor(s, f, f.answers.exported.value))
  {
    var i := FindExport(s.exports, f.surface);
    if i < |s.exports| { assert s.exports[i] in s.exports; }
  }

  /** Without a descriptor nothing is drawn. */
  lemma NoDescriptorNothing(surfaces: Surfaces, s: State, f: Frame)
    requires Inv(surfaces, s) && forall d :: !HasDescriptor(s, f, d)
    ensures DrawFrame(surfaces, s, f) == (s, Nothing)
  {
    SomeDescriptor(s, f);
  }

  lemma ExportIs(surfaces: Surfaces, s: State, f: Frame, d: Descriptor)
    requires Inv(surfaces, s) && HasDescriptor(s, f, d)
    ensures var (t, desc) := ExportSurface(surfaces, s, f);
            && desc == Some(d) && d.fd in t.open
            && t == s.(exports := t.exports, open := t.open)
            && t.exports == (if Export(f.surface, d) in s.exports then s.exports
                             else s.exports + [Export(f.surface, d)])
  {
    var i := FindExport(s.exports, f.surface);
    if Export(f.surface, d) in s.exports {
      var j :| 0 <= j < |s.exports| && s.exports[j] == Export(f.surface, d);
      assert i == j;
    }
  }

  /** When a frame is drawn, and from what: in every state of every run, for every frame and
      whatever the libraries answer. */
  lemma DrawnIff(surfaces: Surfaces, s: State, f: Frame, d: Descriptor)
    requires Inv(surfaces, s) && Possible(surfaces, s, Show(f)) && HasDescriptor(s, f, d)
    ensures var drawn := DrawFrame(surfaces, s, f).1;
            && (forall id :: drawn == Whole(id) <==> DrawnWhole(s, f, d, id))
            && (forall y, uv :: drawn == Planes(y, uv) <==> DrawnPlanes(s, f, d, y, uv))
            && (forall id :: drawn == Tiled(id) <==> DrawnTiled(s, f, d, id))
  {
    ExportIs(surfaces, s, f, d);
    ExportKeepsInv(surfaces, s, f);
    var t := ExportSurface(surfaces, s, f).0;
    SameCaches(s, t, f, d);
    if d.tiled { TiledIff(surfaces, t, f, d); } else { LinearIff(surfaces, t, f, d); }
  }

  lemma SameCaches(s: State, t: State, f: Frame, d: Descriptor)
    requires t == s.(exports := t.exports, open := t.open)
    ensures forall id :: DrawnWhole(s, f, d, id) <==> DrawnWhole(t, f, d, id)
    ensures forall y, uv :: DrawnPlanes(s, f, d, y, uv) <==> DrawnPlanes(t, f, d, y, uv)
    ensures forall id :: DrawnTiled(s, f, d, id) <==> DrawnTiled(t, f, d, id)
  {
    assert forall id :: GivesWhole(s.external.entries, s, d, f, id) <==> GivesWhole(t.external.entries, t, d, f, id);
    assert forall id :: GivesWhole([], s, d, f, id) <==> GivesWhole([], t, d, f, id);
    assert forall id :: DrawnWhole(s, f, d, id) <==> DrawnWhole(t, f, d, id);
  }

  lemma TiledIff(surfaces: Surfaces, s: State, f: Frame, d: Descriptor)
    requires Inv(surfaces, s) && d.fd in s.open && d.tiled
    ensures var drawn := SurfaceImages.DrawTiled(s, d, f).1;
            && (forall id :: drawn == Tiled(id) <==> DrawnTiled(s, f, d, id))
            && (drawn.Tiled? || drawn.Nothing?)
  {
    var t := ResizeTiled(s, f.width, f.height);
    ResizeKeepsInv(surfaces, s, f.width, f.height);
    forall id: nat | d.pitch > 0
      ensures GetTile(t, d, f).1 == Tiled(id) <==> GivesTile(t.tiles, |s.made|, d, f.answers, id)
    {
      TileIff(t, d, f, id);
    }
  }

  // ---------------------------------------------------------------------------------------
  // What is held afterwards

  /** The frame passes the checks of the linear path. */
  predicate TakesLinear(s: State, f: Frame, d: Descriptor)
  {
    !d.tiled && (s.settings.twoPlane || s.settings.external) && PitchFits(d, f)
  }

  /** Planes are looked up: the frame is not drawn from an external image. */
  ghost predicate LooksUpPlanes(s: State, f: Frame, d: Descriptor)
  {
    TakesLinear(s, f, d) && s.settings.twoPlane && forall id :: !DrawnWhole(s, f, d, id)
  }

  /** The planes held after a look-up with `held` before: a new descriptor leaves an entry while
      there is room, be it one without images. */
  function PlanesThen(held: seq<Entry>, made: nat, d: Descriptor, a: Answers): seq<Entry>
  {
    if |held| >= 64 || exists e :: e in held && e.fd == d.fd then held
    else held + [if a.yOk && a.uvOk then Entry(d.fd, Image(made), Image(made + 1)) else Entry(d.fd, NoImage, NoImage)]
  }

  /** The whole-frame images held after a look-up: one for a new key while there is room. */
  function WholesThen(held: seq<External.Entry>, s: State, d: Descriptor, f: Frame): seq<External.Entry>
  {
    var key := WholeKey(s, d, f);
    if |held| >= 64 || exists e :: e in held && e.key == key then held
    else held + [External.Entry(key, if f.answers.externalOk then Image(|s.external.made|) else NoImage)]
  }

  /** The tiles held after a look-up: a failed import leaves nothing. */
  function TilesThen(held: seq<Tile>, made: nat, d: Descriptor, a: Answers): seq<Tile>
  {
    if |held| >= 64 || !a.tileOk || exists tile :: tile in held && tile.fd == d.fd then held
    else held + [Tile(d.fd, made)]
  }

  lemma PlanesHeld(s: State, d: Descriptor, f: Frame)
    requires d.fd in s.open
    ensures GetPlanes(s, d, f).0.entries == PlanesThen(s.entries, |s.made|, d, f.answers)
    ensures GetPlanes(s, d, f).0 == s.(entries := GetPlanes(s, d, f).0.entries, made := GetPlanes(s, d, f).0.made)
  {
    var i := FindEntry(s.entries, d.fd);
    if i < |s.entries| { assert s.entries[i] in s.entries; }
  }

  lemma TilesHeld(s: State, d: Descriptor, f: Frame)
    requires d.fd in s.open && d.pitch > 0
    ensures GetTile(s, d, f).0.tiles == TilesThen(s.tiles, |s.made|, d, f.answers)
    ensures GetTile(s, d, f).0 == s.(tiles := GetTile(s, d, f).0.tiles, made := GetTile(s, d, f).0.made)
  {
    var i := FindTile(s.tiles, d.fd);
    if i < |s.tiles| { assert s.tiles[i] in s.tiles; }
  }

  lemma WholesHeld(s: State, d: Descriptor, f: Frame)
    requires d.fd in s.open && PitchFits(d, f)
    ensures GetWhole(s, d, f).0.external.entries
         == if LayoutFits(d, f) then WholesThen(s.external.entries, s, d, f) else s.external.entries
  {
    var xf := ExternalFrame(d, f.width, f.height);
    External.LayoutIs(xf);
    var i := External.Find(s.external.entries, WholeKey(s, d, f));
    if i < |s.external.entries| { assert s.external.entries[i] in s.external.entries; }
  }

  /** The whole-frame images after a linear frame: of its size only, and with the frame's own if
      that path is on and accepts its layout. */
  lemma LinearWholes(surfaces: Surfaces, s: State, f: Frame, d: Descriptor)
    requires Inv(surfaces, s) && Possible(surfaces, s, Show(f)) && HasDescriptor(s, f, d) && TakesLinear(s, f, d)
    ensures var held := if SameSize(s, f) then s.external.entries else [];
            DrawFrame(surfaces, s, f).0.external.entries
            == if s.settings.external && LayoutFits(d, f) then WholesThen(held, s, d, f) else held
  {
    ExportIs(surfaces, s, f, d);
    var u := ExportSurface(surfaces, s, f).0;
    assert WholeKey(u, d, f) == WholeKey(s, d, f) && u.external == s.external;
    WholesAfter(u, f, d);
  }

  lemma WholesAfter(s: State, f: Frame, d: Descriptor)
    requires d.fd in s.open && TakesLinear(s, f, d)
    ensures var held := if SameSize(s, f) then s.external.entries else [];
            DrawLinear(s, d, f).0.external.entries
            == if s.settings.external && LayoutFits(d, f) then WholesThen(held, s, d, f) else held
  {
    var t := ResizeLinear(s, f.width, f.height);
    WholesHeld(t, d, f);
    PlanesHeld(t, d, f);
    PlanesHeld(GetWhole(t, d, f).0, d, f);
    assert WholeKey(t, d, f) == WholeKey(s, d, f) && t.external.made == s.external.made;
  }

  /** What a linear frame leaves: its size, its planes among those of that size, and the tiles as
      they were. */
  lemma LinearLeaves(surfaces: Surfaces, s: State, f: Frame, d: Descriptor)
    requires Inv(surfaces, s) && Possible(surfaces, s, Show(f)) && HasDescriptor(s, f, d) && !d.tiled
    ensures var t, held := DrawFrame(surfaces, s, f).0, if SameSize(s, f) then s.entries else [];
            && t.tiles == s.tiles
            && (TakesLinear(s, f, d) ==> SameSize(t, f))
            && (!TakesLinear(s, f, d) ==>
                  t.entries == s.entries && t.external == s.external && t.lastWidth == s.lastWidth
                  && t.lastHeight == s.lastHeight && t.made == s.made)
            && (TakesLinear(s, f, d) ==>
                  t.entries == if LooksUpPlanes(s, f, d) then PlanesThen(held, |s.made|, d, f.answers) else held)
  {
    ExportIs(surfaces, s, f, d);
    ExportKeepsInv(surfaces, s, f);
    var u := ExportSurface(surfaces, s, f).0;
    SameCaches(s, u, f, d);
    LinearParts(surfaces, u, f, d);
  }

  lemma LinearParts(surfaces: Surfaces, s: State, f: Frame, d: Descriptor)
    requires Inv(surfaces, s) && d.fd in s.open && !d.tiled
    ensures var t, held := DrawLinear(s, d, f).0, if SameSize(s, f) then s.entries else [];
            && t.tiles == s.tiles
            && (!TakesLinear(s, f, d) ==> t == s)
            && (TakesLinear(s, f, d) ==>
                  && SameSize(t, f)
                  && t.entries == if LooksUpPlanes(s, f, d) then PlanesThen(held, |s.made|, d, f.answers) else held)
  {
    var t := ResizeLinear(s, f.width, f.height);
    ResizeKeepsInv(surfaces, s, f.width, f.height);
    PlanesHeld(t, d, f);
    if s.settings.external {
      PlanesHeld(GetWhole(t, d, f).0, d, f);
    }
    LinearIff(surfaces, s, f, d);
  }

  /** What a tiled frame leaves: its size, its image among those of that size, and everything
      linear as it was. */
  lemma TiledLeaves(surfaces: Surfaces, s: State, f: Frame, d: Descriptor)
    requires Inv(surfaces, s) && Possible(surfaces, s, Show(f)) && HasDescriptor(s, f, d) && d.tiled
    ensures var t, held := DrawFrame(surfaces, s, f).0, if SameSize(s, f) then s.tiles else [];
            && t.entries == s.entries && t.external == s.external
            && (s.settings.tiled ==> SameSize(t, f))
            && (!s.settings.tiled ==>
                  t.tiles == s.tiles && t.lastWidth == s.lastWidth && t.lastHeight == s.lastHeight && t.made == s.made)
            && (s.settings.tiled ==>
                  t.tiles == if d.pitch > 0 then TilesThen(held, |s.made|, d, f.answers) else held)
  {
    ExportIs(surfaces, s, f, d);
    ExportKeepsInv(surfaces, s, f);
    var u := ExportSurface(surfaces, s, f).0;
    if d.pitch > 0 {
      TilesHeld(ResizeTiled(u, f.width, f.height), d, f);
    }
  }
}
