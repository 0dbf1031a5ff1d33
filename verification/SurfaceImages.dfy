/** Drawing a decoder surface without copying it (src/video/x11.c): surface to exported descriptor
    (src/video/ffmpeg_vaapi.c), descriptor to images (src/video/egl.c).

    No cache key says which buffer it stands for: exports are keyed by surface, the images of
    linear planes and of tiled buffers by descriptor alone.  Two of the image caches share the
    remembered frame size that empties them, but a linear frame empties only the one and a tiled
    frame only the other. */
module SurfaceImages {

  import opened DmaBuf
  import External = ExternalImages
  import opened Wrappers

  const VAAPI_MAX_EXPORTS := 64

  /** Buffers the operating system knows, by number. */
  type Buffer = nat

  /** The descriptor vaExportSurfaceHandle fills in, as far as a draw uses it. */
  datatype Descriptor = Descriptor(fd: int, size: nat, pitch: int, uvOffset: int, tiled: bool)

  datatype Export = Export(surface: int, desc: Descriptor)

  /** What an image was imported from and as: one plane of a buffer. */
  datatype Plane = Plane(buffer: Buffer, chroma: bool, pitch: int, offset: int, height: int)

  /** One entry of dmabuf_nv12[]. */
  datatype Entry = Entry(fd: int, y: Image, uv: Image)

  /** One entry of dmabuf_images[]. */
  datatype Tile = Tile(fd: int, image: nat)

  /** Which paths are switched on and compiled: the external import, the two-plane shader, the
      de-tiling shader. */
  datatype Settings = Settings(external: bool, twoPlane: bool, tiled: bool)

  /** The program's caches, the operating system's descriptor table, and what each image is: of
      the planes what they were imported as, of the whole-frame images the buffer behind them. */
  datatype State = State(
    settings: Settings,
    exports: seq<Export>, entries: seq<Entry>, tiles: seq<Tile>, external: External.State,
    lastWidth: int, lastHeight: int,
    open: map<int, Buffer>, made: seq<Plane>, wholeFrom: seq<Buffer>)

  /** What the libraries answer while a frame is drawn, if asked: the descriptor of a new export,
      whether each import succeeds, and whether GL draws the external image without error. */
  datatype Answers = Answers(
    exported: Option<Descriptor>, externalOk: bool, drawOk: bool, yOk: bool, uvOk: bool, tileOk: bool)

  /** A frame of the decoder. */
  datatype Frame = Frame(surface: int, width: int, height: int, answers: Answers)

  /** What a frame is drawn from: nothing, one image of all of it, two planes, a tiled buffer. */
  datatype Drawn = Nothing | Whole(id: nat) | Planes(y: nat, uv: nat) | Tiled(id: nat)

  datatype Event =
    | Show(frame: Frame)
    | SetColorMode(useBt709: bool, fullRange: bool)
    | Open(fd: int, buffer: Buffer)          // anything else opens
    | Close(fd: int)                         // and closes its own descriptors

  function FindExport(exports: seq<Export>, surface: int): (i: nat)
    ensures i <= |exports|
    ensures i < |exports| ==> exports[i].surface == surface
    ensures forall j :: 0 <= j < i ==> exports[j].surface != surface
  {
    if exports == [] || exports[0].surface == surface then 0 else 1 + FindExport(exports[1..], surface)
  }

  function FindEntry(entries: seq<Entry>, fd: int): (i: nat)
    ensures i <= |entries|
    ensures i < |entries| ==> entries[i].fd == fd
    ensures forall j :: 0 <= j < i ==> entries[j].fd != fd
  {
    if entries == [] || entries[0].fd == fd then 0 else 1 + FindEntry(entries[1..], fd)
  }

  function FindTile(tiles: seq<Tile>, fd: int): (i: nat)
    ensures i <= |tiles|
    ensures i < |tiles| ==> tiles[i].fd == fd
    ensures forall j :: 0 <= j < i ==> tiles[j].fd != fd
  {
    if tiles == [] || tiles[0].fd == fd then 0 else 1 + FindTile(tiles[1..], fd)
  }

  /** The buffer behind a decoder surface. */
  type Surfaces = int -> Buffer

  /** What the environment guarantees: a new export opens a new descriptor on the surface's own
      buffer; other code opens new descriptors and closes only its own. */
  ghost predicate Possible(surfaces: Surfaces, s: State, e: Event)
  {
    match e
    case Show(f) =>
      var exported := f.answers.exported;
      exported.Some? && FindExport(s.exports, f.surface) == |s.exports| ==> exported.value.fd !in s.open
    case SetColorMode(_, _) => true
    case Open(fd, _) => fd !in s.open
    case Close(fd) => fd in s.open && forall k :: 0 <= k < |s.exports| ==> s.exports[k].desc.fd != fd
  }

  // ---------------------------------------------------------------------------------------
  // Drawing a frame

  /** vaapi_export_dmabuf: the state after it, and the descriptor if there is one. */
  function ExportSurface(surfaces: Surfaces, s: State, f: Frame): (r: (State, Option<Descriptor>))
  {
    var i := FindExport(s.exports, f.surface);
    if i < |s.exports| then (s, Some(s.exports[i].desc))
    else if |s.exports| >= VAAPI_MAX_EXPORTS then (s, None)
    else
      match f.answers.exported
      case None => (s, None)
      case Some(desc) =>
        var exports := s.exports + [Export(f.surface, desc)];
        (s.(exports := exports, open := s.open[desc.fd := surfaces(f.surface)]), Some(desc))
  }

  /** A linear frame of another size empties dmabuf_nv12[] and dmabuf_nv12_external[]. */
  function ResizeLinear(s: State, width: int, height: int): State
  {
    if width == s.lastWidth && height == s.lastHeight then s
    else
      s.(entries := [], external := External.Step(s.external, External.Reset),
         lastWidth := width, lastHeight := height)
  }

  /** A tiled frame of another size empties dmabuf_images[]. */
  function ResizeTiled(s: State, width: int, height: int): State
  {
    if width == s.lastWidth && height == s.lastHeight then s
    else s.(tiles := [], lastWidth := width, lastHeight := height)
  }

  /** dmabuf_get_nv12 */
  function GetPlanes(s: State, d: Descriptor, f: Frame): (r: (State, Drawn))
    requires d.fd in s.open
  {
    var i := FindEntry(s.entries, d.fd);
    if i < |s.entries| then
      var e := s.entries[i];
      (s, if e.y.Image? && e.uv.Image? then Planes(e.y.id, e.uv.id) else Nothing)
    else if |s.entries| >= DMABUF_MAX_IMAGES then (s, Nothing)
    else
      var buffer := s.open[d.fd];
      var yPlane := Plane(buffer, false, d.pitch, 0, f.height);
      var uvPlane := Plane(buffer, true, d.pitch, d.uvOffset, f.height / 2);
      var n := |s.made|;
      var made :=
        s.made + (if f.answers.yOk then [yPlane] else []) + (if f.answers.uvOk then [uvPlane] else []);
      if f.answers.yOk && f.answers.uvOk then
        (s.(made := made, entries := s.entries + [Entry(d.fd, Image(n), Image(n + 1))]), Planes(n, n + 1))
      else // the one that succeeded is destroyed again
        (s.(made := made, entries := s.entries + [Entry(d.fd, NoImage, NoImage)]), Nothing)
  }

  function ExternalFrame(d: Descriptor, width: int, height: int): External.Frame
  {
    External.Frame(d.fd, d.size, width, height, d.pitch, d.uvOffset)
  }

  /** draw_dmabuf_nv12_external: the state after it, and the image it draws from. */
  function GetWhole(s: State, d: Descriptor, f: Frame): (r: (State, Image))
    requires d.fd in s.open
  {
    var xf := ExternalFrame(d, f.width, f.height);
    var external := External.Step(s.external, External.Draw(xf, f.answers.externalOk));
    var isNew := |external.made| > |s.external.made|;
    (s.(external := external, wholeFrom := s.wholeFrom + if isNew then [s.open[d.fd]] else []),
     External.Result(s.external, xf, f.answers.externalOk))
  }

  /** The checks at the start of egl_draw_dmabuf_nv12. */
  predicate Accepts(settings: Settings, d: Descriptor, width: int)
  {
    (settings.twoPlane || settings.external) && d.pitch > 0 && d.pitch >= width && d.uvOffset % d.pitch == 0
  }

  /** egl_draw_dmabuf_nv12 */
  function DrawLinear(s: State, d: Descriptor, f: Frame): (r: (State, Drawn))
    requires d.fd in s.open
  {
    if !Accepts(s.settings, d, f.width) then (s, Nothing)
    else
      var t := ResizeLinear(s, f.width, f.height);
      if !s.settings.external then GetPlanes(t, d, f)
      else
        var (u, image) := GetWhole(t, d, f);
        if image.Image? && f.answers.drawOk then (u, Whole(image.id))
        else if s.settings.twoPlane then GetPlanes(u, d, f)
        else (u, Nothing)
  }

  /** The rows of the texture a tiled buffer is imported as. */
  function TileRows(d: Descriptor): int
    requires d.pitch > 0
  {
    (d.size + d.pitch - 1) / d.pitch
  }

  /** dmabuf_get_image */
  function GetTile(s: State, d: Descriptor, f: Frame): (r: (State, Drawn))
    requires d.fd in s.open && d.pitch > 0
  {
    var i := FindTile(s.tiles, d.fd);
    if i < |s.tiles| then (s, Tiled(s.tiles[i].image))
    else if |s.tiles| >= DMABUF_MAX_IMAGES || !f.answers.tileOk then (s, Nothing)
    else
      var plane := Plane(s.open[d.fd], false, d.pitch, 0, TileRows(d));
      (s.(made := s.made + [plane], tiles := s.tiles + [Tile(d.fd, |s.made|)]), Tiled(|s.made|))
  }

  /** egl_draw_dmabuf; a pitch of zero, by which the source divides, draws nothing here. */
  function DrawTiled(s: State, d: Descriptor, f: Frame): (r: (State, Drawn))
    requires d.fd in s.open
  {
    if !s.settings.tiled then (s, Nothing)
    else
      var t := ResizeTiled(s, f.width, f.height);
      if d.pitch <= 0 then (t, Nothing) else GetTile(t, d, f)
  }

  /** The zero-copy branch of the frame handler. */
  function DrawFrame(surfaces: Surfaces, s: State, f: Frame): (r: (State, Drawn))
    requires ExportsOpen(surfaces, s)
  {
    var (t, desc) := ExportSurface(surfaces, s, f);
    match desc
    case None => (t, Nothing)
    case Some(d) => if d.tiled then DrawTiled(t, d, f) else DrawLinear(t, d, f)
  }

  /** Exported descriptors stay open on their surfaces' buffers: nothing closes them. */
  predicate ExportsOpen(surfaces: Surfaces, s: State)
  {
    forall k :: 0 <= k < |s.exports| ==>
      s.exports[k].desc.fd in s.open && s.open[s.exports[k].desc.fd] == surfaces(s.exports[k].surface)
  }

  function Step(surfaces: Surfaces, s: State, e: Event): State
    requires ExportsOpen(surfaces, s)
  {
    match e
    case Show(f) => DrawFrame(surfaces, s, f).0
    case SetColorMode(useBt709, fullRange) =>
      s.(external := External.Step(s.external, External.SetColorMode(useBt709, fullRange)))
    case Open(fd, buffer) => s.(open := s.open[fd := buffer])
    case Close(fd) => s.(open := s.open - {fd})
  }

  // ---------------------------------------------------------------------------------------
  // The invariant

  ghost predicate SurfacesDistinct(s: State)
  {
    forall j, k :: 0 <= j < k < |s.exports| ==>
      s.exports[j].surface != s.exports[k].surface && s.exports[j].desc.fd != s.exports[k].desc.fd
  }

  /** The two images are the planes of this surface's buffer, as its descriptor lays them out, for
      frames of this height. */
  ghost predicate PlanesOf(surfaces: Surfaces, made: seq<Plane>, y: nat, uv: nat, x: Export, height: int)
  {
    && y < |made| && made[y] == Plane(surfaces(x.surface), false, x.desc.pitch, 0, height)
    && uv < |made| && made[uv] == Plane(surfaces(x.surface), true, x.desc.pitch, x.desc.uvOffset, height / 2)
  }

  /** The height the planes of an entry were made for. */
  function MadeFor(s: State, e: Entry): int
  {
    if e.y.Image? && e.y.id < |s.made| then s.made[e.y.id].height else 0
  }

  ghost predicate EntryOf(surfaces: Surfaces, s: State, e: Entry, x: Export)
  {
    x.desc.fd == e.fd &&
    (e.y.Image? && e.uv.Image? ==> PlanesOf(surfaces, s.made, e.y.id, e.uv.id, x, MadeFor(s, e)))
  }

  ghost predicate TileOf(surfaces: Surfaces, s: State, tile: Tile, x: Export)
  {
    x.desc.fd == tile.fd && x.desc.pitch > 0 && tile.image < |s.made| &&
    s.made[tile.image] == Plane(surfaces(x.surface), false, x.desc.pitch, 0, TileRows(x.desc))
  }

  /** The buffer behind a whole-frame image is that of the surface whose descriptor is its key's. */
  ghost predicate WholeOf(surfaces: Surfaces, s: State, id: nat, x: Export)
  {
    id < |s.external.made| && id < |s.wholeFrom| &&
    x.desc.fd == s.external.made[id].fd && s.wholeFrom[id] == surfaces(x.surface)
  }

  ghost predicate EntryGood(surfaces: Surfaces, s: State, e: Entry)
  {
    exists k :: 0 <= k < |s.exports| && EntryOf(surfaces, s, e, s.exports[k])
  }

  ghost predicate TileGood(surfaces: Surfaces, s: State, tile: Tile)
  {
    exists k :: 0 <= k < |s.exports| && TileOf(surfaces, s, tile, s.exports[k])
  }

  ghost predicate WholeGood(surfaces: Surfaces, s: State, id: nat)
  {
    exists k :: 0 <= k < |s.exports| && WholeOf(surfaces, s, id, s.exports[k])
  }

  ghost predicate EntriesGood(surfaces: Surfaces, s: State)
  {
    forall j :: 0 <= j < |s.entries| ==> EntryGood(surfaces, s, s.entries[j])
  }

  ghost predicate TilesGood(surfaces: Surfaces, s: State)
  {
    forall j :: 0 <= j < |s.tiles| ==> TileGood(surfaces, s, s.tiles[j])
  }

  ghost predicate WholesGood(surfaces: Surfaces, s: State)
  {
    && External.Inv(s.external) && |s.wholeFrom| == |s.external.made|
    && forall id :: 0 <= id < |s.wholeFrom| ==> WholeGood(surfaces, s, id)
  }

  /** Each descriptor has one entry at most in either cache. */
  ghost predicate FdsDistinct(s: State)
  {
    && (forall j, k :: 0 <= j < k < |s.entries| ==> s.entries[j].fd != s.entries[k].fd)
    && (forall j, k :: 0 <= j < k < |s.tiles| ==> s.tiles[j].fd != s.tiles[k].fd)
  }

  ghost predicate Inv(surfaces: Surfaces, s: State)
  {
    && ExportsOpen(surfaces, s) && SurfacesDistinct(s) && FdsDistinct(s)
    && EntriesGood(surfaces, s) && TilesGood(surfaces, s) && WholesGood(surfaces, s)
  }

  /** What is drawn was imported from the frame's own surface `x`: a tiled buffer as its
      descriptor says, a whole frame with the frame's own layout, two planes for this height. */
  ghost predicate DrawnFrom(surfaces: Surfaces, s: State, drawn: Drawn, x: Export, f: Frame, height: int)
  {
    match drawn
    case Nothing => true
    case Planes(y, uv) => PlanesOf(surfaces, s.made, y, uv, x, height)
    case Tiled(id) => TileOf(surfaces, s, Tile(x.desc.fd, id), x)
    case Whole(id) =>
      WholeOf(surfaces, s, id, x) &&
      s.external.made[id] == External.KeyOf(s.external, ExternalFrame(x.desc, f.width, f.height))
  }

  lemma FoundExport(exports: seq<Export>, k: nat)
    requires k < |exports| && forall j :: 0 <= j < k ==> exports[j].surface != exports[k].surface
    ensures FindExport(exports, exports[k].surface) == k
  {
  }

  lemma ExportKeepsInv(surfaces: Surfaces, s: State, f: Frame)
    requires Inv(surfaces, s) && Possible(surfaces, s, Show(f))
    ensures var (t, desc) := ExportSurface(surfaces, s, f);
            && Inv(surfaces, t) && t == s.(exports := t.exports, open := t.open)
            && (desc.Some? ==>
                  var i := FindExport(t.exports, f.surface);
                  i < |t.exports| && t.exports[i] == Export(f.surface, desc.value))
  {
    var (t, desc) := ExportSurface(surfaces, s, f);
    var i := FindExport(s.exports, f.surface);
    if i == |s.exports| && desc.Some? {
      FoundExport(t.exports, i);
      MoreIsGood(surfaces, s, t);
    }
  }

  /** With more exports and more images the caches still hold what they held. */
  lemma MoreIsGood(surfaces: Surfaces, s: State, t: State)
    requires s.exports <= t.exports && s.made <= t.made
    requires s.external.made <= t.external.made && s.wholeFrom <= t.wholeFrom
    ensures forall e | EntryGood(surfaces, s, e) :: EntryGood(surfaces, t, e)
    ensures forall tile | TileGood(surfaces, s, tile) :: TileGood(surfaces, t, tile)
    ensures forall id | WholeGood(surfaces, s, id) :: WholeGood(surfaces, t, id)
  {
    forall e | EntryGood(surfaces, s, e) ensures EntryGood(surfaces, t, e) {
      var k :| 0 <= k < |s.exports| && EntryOf(surfaces, s, e, s.exports[k]);
      assert EntryOf(surfaces, t, e, t.exports[k]);
    }
    forall tile | TileGood(surfaces, s, tile) ensures TileGood(surfaces, t, tile) {
      var k :| 0 <= k < |s.exports| && TileOf(surfaces, s, tile, s.exports[k]);
      assert TileOf(surfaces, t, tile, t.exports[k]);
    }
    forall id: nat | WholeGood(surfaces, s, id) ensures WholeGood(surfaces, t, id) {
      var k :| 0 <= k < |s.exports| && WholeOf(surfaces, s, id, s.exports[k]);
      assert WholeOf(surfaces, t, id, t.exports[k]);
    }
  }

  // ---------------------------------------------------------------------------------------
  // One frame

  /** The height of the planes that a descriptor will be drawn from: those of its entry, if it has
      one, and else new ones for the frame. */
  function PlanesHeight(s: State, d: Descriptor, height: int): int
  {
    var j := FindEntry(s.entries, d.fd);
    if j < |s.entries| then MadeFor(s, s.entries[j]) else height
  }

  lemma GetPlanesGood(surfaces: Surfaces, s: State, d: Descriptor, f: Frame, k: nat)
    requires Inv(surfaces, s) && k < |s.exports| && s.exports[k] == Export(f.surface, d)
    ensures var (t, drawn) := GetPlanes(s, d, f);
            && Inv(surfaces, t) && t == s.(entries := t.entries, made := t.made)
            && DrawnFrom(surfaces, t, drawn, s.exports[k], f, PlanesHeight(s, d, f.height))
  {
    var (t, drawn) := GetPlanes(s, d, f);
    var i := FindEntry(s.entries, d.fd);
    if i < |s.entries| {
      assert EntryGood(surfaces, s, s.entries[i]);
    } else if |s.entries| < DMABUF_MAX_IMAGES {
      MoreIsGood(surfaces, s, t);
      assert EntryOf(surfaces, t, t.entries[|s.entries|], t.exports[k]);
    }
  }

  lemma GetWholeGood(surfaces: Surfaces, s: State, d: Descriptor, f: Frame, k: nat)
    requires Inv(surfaces, s) && k < |s.exports| && s.exports[k] == Export(f.surface, d)
    ensures var (t, image) := GetWhole(s, d, f);
            && Inv(surfaces, t) && t == s.(external := t.external, wholeFrom := t.wholeFrom)
            && (image.Image? ==> DrawnFrom(surfaces, t, Whole(image.id), s.exports[k], f, f.height))
  {
    var (t, image) := GetWhole(s, d, f);
    var xf := ExternalFrame(d, f.width, f.height);
    External.StepKeepsInv(s.external, External.Draw(xf, f.answers.externalOk));
    MoreIsGood(surfaces, s, t);
    if |t.wholeFrom| > |s.wholeFrom| {
      assert WholeOf(surfaces, t, |s.wholeFrom|, t.exports[k]);
    }
    if image.Image? {
      External.ResultMadeForKey(s.external, xf, f.answers.externalOk);
      assert WholeGood(surfaces, t, image.id);
      var m :| 0 <= m < |t.exports| && WholeOf(surfaces, t, image.id, t.exports[m]);
    }
  }

  lemma GetTileGood(surfaces: Surfaces, s: State, d: Descriptor, f: Frame, k: nat)
    requires Inv(surfaces, s) && k < |s.exports| && s.exports[k] == Export(f.surface, d) && d.pitch > 0
    ensures var (t, drawn) := GetTile(s, d, f);
            && Inv(surfaces, t) && t == s.(tiles := t.tiles, made := t.made)
            && DrawnFrom(surfaces, t, drawn, s.exports[k], f, f.height)
  {
    var (t, drawn) := GetTile(s, d, f);
    var i := FindTile(s.tiles, d.fd);
    if i < |s.tiles| {
      assert TileGood(surfaces, s, s.tiles[i]);
    } else if drawn.Tiled? {
      MoreIsGood(surfaces, s, t);
      assert TileOf(surfaces, t, t.tiles[|s.tiles|], t.exports[k]);
    }
  }

  /** The cache holds planes for a descriptor that were made for another height than the one it
      remembers. */
  ghost predicate HeldStale(s: State, fd: int)
  {
    var j := FindEntry(s.entries, fd);
    j < |s.entries| && s.entries[j].y.Image? && s.entries[j].uv.Image? &&
    MadeFor(s, s.entries[j]) != s.lastHeight
  }

  /** The frame gets past the checks, has the remembered size, and is not drawn from an external
      image: it will be drawn from the planes that are held. */
  ghost predicate TakesHeldPlanes(s: State, d: Descriptor, f: Frame)
  {
    && Accepts(s.settings, d, f.width) && s.settings.twoPlane
    && f.width == s.lastWidth && f.height == s.lastHeight
    && (s.settings.external && f.answers.drawOk ==>
          External.Result(s.external, ExternalFrame(d, f.width, f.height), f.answers.externalOk).NoImage?)
  }

  lemma ResizeKeepsInv(surfaces: Surfaces, s: State, width: int, height: int)
    requires Inv(surfaces, s)
    ensures Inv(surfaces, ResizeLinear(s, width, height)) && Inv(surfaces, ResizeTiled(s, width, height))
  {
    External.StepKeepsInv(s.external, External.Reset);
    MoreIsGood(surfaces, s, ResizeLinear(s, width, height));
    MoreIsGood(surfaces, s, ResizeTiled(s, width, height));
  }

  lemma DrawLinearGood(surfaces: Surfaces, s: State, d: Descriptor, f: Frame, k: nat)
    requires Inv(surfaces, s) && k < |s.exports| && s.exports[k] == Export(f.surface, d)
    ensures var (t, drawn) := DrawLinear(s, d, f);
            && Inv(surfaces, t) && t.exports == s.exports
            && (DrawnFrom(surfaces, t, drawn, s.exports[k], f, f.height)
                <==> !(TakesHeldPlanes(s, d, f) && HeldStale(s, d.fd)))
  {
    if Accepts(s.settings, d, f.width) {
      var t := ResizeLinear(s, f.width, f.height);
      ResizeKeepsInv(surfaces, s, f.width, f.height);
      GetPlanesGood(surfaces, t, d, f, k);
      if s.settings.external {
        GetWholeGood(surfaces, t, d, f, k);
        GetPlanesGood(surfaces, GetWhole(t, d, f).0, d, f, k);
      }
    }
  }

  lemma DrawTiledGood(surfaces: Surfaces, s: State, d: Descriptor, f: Frame, k: nat)
    requires Inv(surfaces, s) && k < |s.exports| && s.exports[k] == Export(f.surface, d)
    ensures var (t, drawn) := DrawTiled(s, d, f);
            && Inv(surfaces, t) && t.exports == s.exports
            && DrawnFrom(surfaces, t, drawn, s.exports[k], f, f.height)
  {
    ResizeKeepsInv(surfaces, s, f.width, f.height);
    if s.settings.tiled && d.pitch > 0 {
      GetTileGood(surfaces, ResizeTiled(s, f.width, f.height), d, f, k);
    }
  }

  /** A frame is drawn from images of its own surface, of its own layout and height. */
  ghost predicate DrawGood(surfaces: Surfaces, s: State, f: Frame)
    requires ExportsOpen(surfaces, s)
  {
    var (t, drawn) := DrawFrame(surfaces, s, f);
    var i := FindExport(t.exports, f.surface);
    drawn.Nothing? || (i < |t.exports| && DrawnFrom(surfaces, t, drawn, t.exports[i], f, f.height))
  }

  /** The frame of a linear surface is about to be drawn from planes held for another height. */
  ghost predicate StaleHit(s: State, f: Frame)
  {
    var i := FindExport(s.exports, f.surface);
    i < |s.exports| &&
    var d := s.exports[i].desc;
    !d.tiled && TakesHeldPlanes(s, d, f) && HeldStale(s, d.fd)
  }

  /** A descriptor just opened has no entry yet. */
  lemma NewHoldsNothing(surfaces: Surfaces, s: State, f: Frame)
    requires Inv(surfaces, s) && Possible(surfaces, s, Show(f)) && FindExport(s.exports, f.surface) == |s.exports|
    ensures var (_, desc) := ExportSurface(surfaces, s, f);
            desc.Some? ==> FindEntry(s.entries, desc.value.fd) == |s.entries|
  {
  }

  /** In every state of every run: a frame is drawn well exactly when it is no stale hit. */
  lemma DrawGoodIff(surfaces: Surfaces, s: State, f: Frame)
    requires Inv(surfaces, s) && Possible(surfaces, s, Show(f))
    ensures Inv(surfaces, Step(surfaces, s, Show(f)))
    ensures DrawGood(surfaces, s, f) <==> !StaleHit(s, f)
  {
    ExportKeepsInv(surfaces, s, f);
    var (t, desc) := ExportSurface(surfaces, s, f);
    if desc.Some? {
      var d := desc.value;
      var k := FindExport(t.exports, f.surface);
      if d.tiled {
        DrawTiledGood(surfaces, t, d, f, k);
      } else {
        DrawLinearGood(surfaces, t, d, f, k);
        if FindExport(s.exports, f.surface) == |s.exports| { NewHoldsNothing(surfaces, s, f); }
      }
    }
  }

  /** Some linear surface, shown now at the remembered size, could take planes held for another
      height. */
  ghost predicate Stale(s: State)
  {
    exists k :: 0 <= k < |s.exports| && StaleAt(s, k)
  }

  ghost predicate StaleAt(s: State, k: nat)
    requires k < |s.exports|
  {
    var d := s.exports[k].desc;
    !d.tiled && Accepts(s.settings, d, s.lastWidth) && s.settings.twoPlane && HeldStale(s, d.fd)
  }

  /** Whatever frame comes next is drawn well exactly when the state is not stale. */
  lemma NextDrawsGoodIff(surfaces: Surfaces, s: State)
    requires Inv(surfaces, s)
    ensures (forall f | Possible(surfaces, s, Show(f)) :: DrawGood(surfaces, s, f)) <==> !Stale(s)
  {
    if Stale(s) {
      var k :| 0 <= k < |s.exports| && StaleAt(s, k);
      var f := Frame(s.exports[k].surface, s.lastWidth, s.lastHeight,
                     Answers(None, false, false, false, false, false));
      FoundExport(s.exports, k);
      DrawGoodIff(surfaces, s, f);
    } else {
      forall f | Possible(surfaces, s, Show(f)) ensures DrawGood(surfaces, s, f) {
        DrawGoodIff(surfaces, s, f);
        if StaleHit(s, f) { assert StaleAt(s, FindExport(s.exports, f.surface)); }
      }
    }
  }

  // ---------------------------------------------------------------------------------------
  // Runs

  lemma StepKeepsInv(surfaces: Surfaces, s: State, e: Event)
    requires Inv(surfaces, s) && Possible(surfaces, s, e)
    ensures Inv(surfaces, Step(surfaces, s, e))
  {
    match e
    case Show(f) => DrawGoodIff(surfaces, s, f);
    case SetColorMode(useBt709, fullRange) =>
      External.StepKeepsInv(s.external, External.SetColorMode(useBt709, fullRange));
      MoreIsGood(surfaces, s, Step(surfaces, s, e));
    case _ => MoreIsGood(surfaces, s, Step(surfaces, s, e));
  }

  /** A run the environment can produce. */
  ghost predicate PossibleRun(surfaces: Surfaces, s: State, es: seq<Event>)
    requires Inv(surfaces, s)
    decreases |es|
  {
    es == [] ||
    (Possible(surfaces, s, es[0]) &&
     (StepKeepsInv(surfaces, s, es[0]); PossibleRun(surfaces, Step(surfaces, s, es[0]), es[1..])))
  }

  ghost function After(surfaces: Surfaces, s: State, es: seq<Event>): (t: State)
    requires Inv(surfaces, s) && PossibleRun(surfaces, s, es)
    ensures Inv(surfaces, t)
    decreases |es|
  {
    if es == [] then s
    else
      StepKeepsInv(surfaces, s, es[0]);
      After(surfaces, Step(surfaces, s, es[0]), es[1..])
  }

  function Initial(settings: Settings, open: map<int, Buffer>): State
  {
    State(settings, [], [], [], External.Initial(false, false), 0, 0, open, [], [])
  }

  /** Every frame of the run is drawn well. */
  ghost predicate RunGood(surfaces: Surfaces, s: State, es: seq<Event>)
    requires Inv(surfaces, s) && PossibleRun(surfaces, s, es)
    decreases |es|
  {
    es == [] ||
    ((es[0].Show? ==> DrawGood(surfaces, s, es[0].frame)) &&
     (StepKeepsInv(surfaces, s, es[0]); RunGood(surfaces, Step(surfaces, s, es[0]), es[1..])))
  }

  /** No frame of the run is a stale hit. */
  ghost predicate NoStaleHit(surfaces: Surfaces, s: State, es: seq<Event>)
    requires Inv(surfaces, s) && PossibleRun(surfaces, s, es)
    decreases |es|
  {
    es == [] ||
    ((es[0].Show? ==> !StaleHit(s, es[0].frame)) &&
     (StepKeepsInv(surfaces, s, es[0]); NoStaleHit(surfaces, Step(surfaces, s, es[0]), es[1..])))
  }

  lemma {:induction false} RunGoodIff(surfaces: Surfaces, s: State, es: seq<Event>)
    requires Inv(surfaces, s) && PossibleRun(surfaces, s, es)
    ensures RunGood(surfaces, s, es) <==> NoStaleHit(surfaces, s, es)
    decreases |es|
  {
    if es != [] {
      if es[0].Show? { DrawGoodIff(surfaces, s, es[0].frame); }
      StepKeepsInv(surfaces, s, es[0]);
      RunGoodIff(surfaces, Step(surfaces, s, es[0]), es[1..]);
    }
  }

  /** Over every run, tiled frames included, with other code opening and closing its own
      descriptors: the frames are drawn from their own surfaces, at their own height, exactly when
      none is a stale hit; and so is whatever comes next, exactly when the run ends in a state
      that is not stale. */
  lemma DrawsOwnSurfaceIff(surfaces: Surfaces, settings: Settings, open: map<int, Buffer>, es: seq<Event>)
    requires PossibleRun(surfaces, Initial(settings, open), es)
    ensures RunGood(surfaces, Initial(settings, open), es) <==> NoStaleHit(surfaces, Initial(settings, open), es)
    ensures var s := After(surfaces, Initial(settings, open), es);
            (forall f | Possible(surfaces, s, Show(f)) :: DrawGood(surfaces, s, f)) <==> !Stale(s)
  {
    RunGoodIff(surfaces, Initial(settings, open), es);
    NextDrawsGoodIff(surfaces, After(surfaces, Initial(settings, open), es));
  }

  // ---------------------------------------------------------------------------------------
  // Where staleness comes from

  /** All planes held are for the remembered height. */
  ghost predicate Current(s: State)
  {
    forall j :: 0 <= j < |s.entries| && s.entries[j].y.Image? && s.entries[j].uv.Image? ==>
      MadeFor(s, s.entries[j]) == s.lastHeight
  }

  lemma CurrentIsNotStale(s: State)
    requires Current(s)
    ensures !Stale(s) && forall f :: !StaleHit(s, f)
  {
  }

  /** The frame reaches the de-tiling path and has another height than the one remembered. */
  ghost predicate TiledOfNewHeight(surfaces: Surfaces, s: State, f: Frame)
  {
    var (_, desc) := ExportSurface(surfaces, s, f);
    desc.Some? && desc.value.tiled && s.settings.tiled && f.height != s.lastHeight
  }

  lemma PlanesKeepCurrent(surfaces: Surfaces, s: State, d: Descriptor, f: Frame, k: nat)
    requires Inv(surfaces, s) && k < |s.exports| && s.exports[k] == Export(f.surface, d)
    requires Current(s) && f.height == s.lastHeight
    ensures Current(GetPlanes(s, d, f).0)
  {
    forall j | 0 <= j < |s.entries| ensures EntryGood(surfaces, s, s.entries[j]) { }
  }

  lemma LinearKeepsCurrent(surfaces: Surfaces, s: State, d: Descriptor, f: Frame, k: nat)
    requires Inv(surfaces, s) && k < |s.exports| && s.exports[k] == Export(f.surface, d) && Current(s)
    ensures Current(DrawLinear(s, d, f).0)
  {
    if Accepts(s.settings, d, f.width) {
      var t := ResizeLinear(s, f.width, f.height);
      ResizeKeepsInv(surfaces, s, f.width, f.height);
      PlanesKeepCurrent(surfaces, t, d, f, k);
      if s.settings.external {
        GetWholeGood(surfaces, t, d, f, k);
        PlanesKeepCurrent(surfaces, GetWhole(t, d, f).0, d, f, k);
      }
    }
  }

  lemma TiledKeepsCurrent(surfaces: Surfaces, s: State, d: Descriptor, f: Frame)
    requires Inv(surfaces, s) && Current(s) && d.fd in s.open
    requires s.settings.tiled ==> f.height == s.lastHeight
    ensures Current(DrawTiled(s, d, f).0)
  {
    forall j | 0 <= j < |s.entries| ensures EntryGood(surfaces, s, s.entries[j]) { }
  }

  /** Only a tiled frame of another height can leave planes behind that are not current. */
  lemma OnlyTiledSpoils(surfaces: Surfaces, s: State, e: Event)
    requires Inv(surfaces, s) && Possible(surfaces, s, e) && Current(s)
    requires e.Show? ==> !TiledOfNewHeight(surfaces, s, e.frame)
    ensures Current(Step(surfaces, s, e))
  {
    if e.Show? {
      ExportKeepsInv(surfaces, s, e.frame);
      var (t, desc) := ExportSurface(surfaces, s, e.frame);
      if desc.Some? {
        var k := FindExport(t.exports, e.frame.surface);
        if !desc.value.tiled {
          LinearKeepsCurrent(surfaces, t, desc.value, e.frame, k);
        } else {
          TiledKeepsCurrent(surfaces, t, desc.value, e.frame);
        }
      }
    }
  }

  /** With the de-tiling path switched off, as it is unless asked for, every frame of every run is
      drawn from its own surface at its own height. */
  lemma {:induction false} LinearRunsGood(surfaces: Surfaces, s: State, es: seq<Event>)
    requires Inv(surfaces, s) && PossibleRun(surfaces, s, es) && Current(s) && !s.settings.tiled
    ensures RunGood(surfaces, s, es) && Current(After(surfaces, s, es))
    decreases |es|
  {
    if es != [] {
      LinearStepGood(surfaces, s, es[0]);
      StepKeepsInv(surfaces, s, es[0]);
      LinearRunsGood(surfaces, Step(surfaces, s, es[0]), es[1..]);
    }
  }

  lemma SettingsStay(surfaces: Surfaces, s: State, e: Event)
    requires ExportsOpen(surfaces, s)
    ensures Step(surfaces, s, e).settings == s.settings
  {
  }

  lemma LinearStepGood(surfaces: Surfaces, s: State, e: Event)
    requires Inv(surfaces, s) && Possible(surfaces, s, e) && Current(s) && !s.settings.tiled
    ensures e.Show? ==> DrawGood(surfaces, s, e.frame)
    ensures Current(Step(surfaces, s, e)) && !Step(surfaces, s, e).settings.tiled
  {
    if e.Show? {
      CurrentIsNotStale(s);
      DrawGoodIff(surfaces, s, e.frame);
    }
    OnlyTiledSpoils(surfaces, s, e);
    SettingsStay(surfaces, s, e);
  }

  lemma DrawsOwnSurface(surfaces: Surfaces, settings: Settings, open: map<int, Buffer>, es: seq<Event>)
    requires !settings.tiled && PossibleRun(surfaces, Initial(settings, open), es)
    ensures RunGood(surfaces, Initial(settings, open), es)
  {
    LinearRunsGood(surfaces, Initial(settings, open), es);
  }

  // ---------------------------------------------------------------------------------------
  // A run that goes wrong

  const LINEAR := Descriptor(10, 460800, 640, 307200, false)
  const TILED := Descriptor(11, 1036800, 640, 691200, true)

  function FrameOf(surface: int, width: int, height: int, exported: Option<Descriptor>): Frame
  {
    Frame(surface, width, height, Answers(exported, false, false, true, true, true))
  }

  /** A linear frame, then a tiled one of another height. */
  const FIRST := Show(FrameOf(1, 640, 480, Some(LINEAR)))
  const SECOND := Show(FrameOf(2, 1920, 1080, Some(TILED)))

  /** Another tiled frame, which changes only the width. */
  const THIRD := Show(FrameOf(2, 640, 1080, None))

  const START := Initial(Settings(false, true, true), map[])

  function AfterFirst(surfaces: Surfaces): State
  {
    START.(
      exports := [Export(1, LINEAR)], open := map[10 := surfaces(1)], lastWidth := 640, lastHeight := 480,
      entries := [Entry(10, Image(0), Image(1))],
      made := [Plane(surfaces(1), false, 640, 0, 480), Plane(surfaces(1), true, 640, 307200, 240)])
  }

  function AfterSecond(surfaces: Surfaces): State
  {
    var s := AfterFirst(surfaces);
    s.(exports := s.exports + [Export(2, TILED)], open := s.open[11 := surfaces(2)],
       lastWidth := 1920, lastHeight := 1080, tiles := [Tile(11, 2)],
       made := s.made + [Plane(surfaces(2), false, 640, 0, 1620)])
  }

  function AfterThird(surfaces: Surfaces): State
  {
    var s := AfterSecond(surfaces);
    s.(lastWidth := 640, tiles := [Tile(11, 3)], made := s.made + [Plane(surfaces(2), false, 640, 0, 1620)])
  }

  lemma StartInv(surfaces: Surfaces)
    ensures Inv(surfaces, START)
  {
  }

  lemma FirstStep(surfaces: Surfaces)
    ensures Possible(surfaces, START, FIRST) && Step(surfaces, START, FIRST) == AfterFirst(surfaces)
  {
    assert External.Step(START.external, External.Reset) == START.external;
  }

  lemma SecondStep(surfaces: Surfaces)
    ensures var s := AfterFirst(surfaces);
            && ExportsOpen(surfaces, s) && Possible(surfaces, s, SECOND)
            && Step(surfaces, s, SECOND) == AfterSecond(surfaces)
  {
    assert FindExport(AfterFirst(surfaces).exports[1..], 2) == 0;
  }

  lemma ThirdStep(surfaces: Surfaces)
    ensures var s := AfterSecond(surfaces);
            && ExportsOpen(surfaces, s) && Possible(surfaces, s, THIRD)
            && Step(surfaces, s, THIRD) == AfterThird(surfaces)
  {
    FoundExport(AfterSecond(surfaces).exports, 1);
  }

  lemma RunCons(surfaces: Surfaces, s: State, e: Event, es: seq<Event>, t: State)
    requires Inv(surfaces, s) && Possible(surfaces, s, e) && Step(surfaces, s, e) == t
    requires Inv(surfaces, t) && PossibleRun(surfaces, t, es)
    ensures PossibleRun(surfaces, s, [e] + es) && After(surfaces, s, [e] + es) == After(surfaces, t, es)
  {
    assert ([e] + es)[1..] == es;
  }

  lemma ThreeSteps(surfaces: Surfaces, s: State, a: Event, t: State, b: Event, u: State, c: Event, v: State)
    requires Inv(surfaces, s) && Possible(surfaces, s, a) && Step(surfaces, s, a) == t
    requires ExportsOpen(surfaces, t) && Possible(surfaces, t, b) && Step(surfaces, t, b) == u
    requires ExportsOpen(surfaces, u) && Possible(surfaces, u, c) && Step(surfaces, u, c) == v
    ensures var run := [a] + ([b] + ([c] + []));
            PossibleRun(surfaces, s, run) && After(surfaces, s, run) == v
  {
    StepKeepsInv(surfaces, s, a);
    StepKeepsInv(surfaces, t, b);
    StepKeepsInv(surfaces, u, c);
    RunCons(surfaces, u, c, [], v);
    RunCons(surfaces, t, b, [c] + [], u);
    RunCons(surfaces, s, a, [b] + ([c] + []), t);
  }

  lemma SpoilingRun(surfaces: Surfaces)
    ensures var run := [FIRST] + ([SECOND] + ([THIRD] + []));
            PossibleRun(surfaces, START, run) && After(surfaces, START, run) == AfterThird(surfaces)
  {
    StartInv(surfaces);
    FirstStep(surfaces);
    SecondStep(surfaces);
    ThirdStep(surfaces);
    ThreeSteps(surfaces, START, FIRST, AfterFirst(surfaces), SECOND, AfterSecond(surfaces),
               THIRD, AfterThird(surfaces));
  }

  /** The linear surface, shown at the tiled frame's size, is drawn from planes for the height of
      its first frame. */
  lemma SpoiledRun(surfaces: Surfaces)
    ensures var run, f := [FIRST] + ([SECOND] + ([THIRD] + [])), FrameOf(1, 640, 1080, None);
            && PossibleRun(surfaces, START, run) && Possible(surfaces, After(surfaces, START, run), Show(f))
            && !DrawGood(surfaces, After(surfaces, START, run), f)
  {
    SpoilingRun(surfaces);
    StaleAtLast(surfaces, After(surfaces, START, [FIRST] + ([SECOND] + ([THIRD] + []))));
  }

  lemma StaleAtLast(surfaces: Surfaces, s: State)
    requires s == AfterThird(surfaces) && Inv(surfaces, s)
    ensures Possible(surfaces, s, Show(FrameOf(1, 640, 1080, None)))
    ensures !DrawGood(surfaces, s, FrameOf(1, 640, 1080, None))
  {
    var f := FrameOf(1, 640, 1080, None);
    FoundExport(s.exports, 0);
    assert FindEntry(s.entries, 10) == 0 && HeldStale(s, 10);
    DrawGoodIff(surfaces, s, f);
  }
}
