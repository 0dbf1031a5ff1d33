/** The program's own tables for drawing decoder surfaces without copying them: the exports
    (src/video/ffmpeg_vaapi.c) and the images (src/video/egl.c), as the frame handler of
    src/video/x11.c uses them. */
module ZeroCopy {

  import opened DmaBuf
  import External = ExternalImages
  import opened SurfaceImages
  import opened Wrappers

  class Display {
    const settings: Settings
    const exports: array<Export>
    var exportsCount: nat
    const entries: array<Entry>
    var entriesCount: nat
    const tiles: array<Tile>
    var tilesCount: nat
    const external: External.Cache
    var lastWidth: int
    var lastHeight: int
    ghost var open: map<int, Buffer>
    ghost var made: seq<Plane>
    ghost var wholeFrom: seq<Buffer>

    ghost predicate Valid()
      reads this, external
    {
      && exports.Length == VAAPI_MAX_EXPORTS && exportsCount <= VAAPI_MAX_EXPORTS
      && entries.Length == DMABUF_MAX_IMAGES && entriesCount <= DMABUF_MAX_IMAGES
      && tiles.Length == DMABUF_MAX_IMAGES && tilesCount <= DMABUF_MAX_IMAGES
      && external.Valid()
    }

    ghost function Fields(): State
      reads this, exports, entries, tiles, external, external.entries
      requires Valid()
    {
      State(settings, exports[..exportsCount], entries[..entriesCount], tiles[..tilesCount], external.Fields(),
            lastWidth, lastHeight, open, made, wholeFrom)
    }

    constructor (settings: Settings, ghost open: map<int, Buffer>)
      ensures Valid() && Fields() == Initial(settings, open)
    {
      this.settings := settings;
      exports := new Export[VAAPI_MAX_EXPORTS](_ => Export(0, Descriptor(0, 0, 0, 0, false)));
      entries := new Entry[DMABUF_MAX_IMAGES](_ => Entry(0, NoImage, NoImage));
      tiles := new Tile[DMABUF_MAX_IMAGES](_ => Tile(0, 0));
      external := new External.Cache(false, false);
      exportsCount, entriesCount, tilesCount, lastWidth, lastHeight := 0, 0, 0, 0, 0;
      this.open, made, wholeFrom := open, [], [];
    }

    /** vaapi_export_dmabuf */
    method ExportDmabuf(surfaces: Surfaces, f: Frame) returns (desc: Option<Descriptor>)
      requires Valid()
      modifies this`exportsCount, this`open, exports
      ensures Valid() && (Fields(), desc) == ExportSurface(surfaces, old(Fields()), f)
    {
      ghost var s := Fields();
      var i := 0;
      while i < exportsCount
        invariant 0 <= i <= exportsCount
        invariant forall j :: 0 <= j < i ==> exports[j].surface != f.surface
      {
        if exports[i].surface == f.surface {
          FoundExport(s.exports, i);
          return Some(exports[i].desc);
        }
        i := i + 1;
      }
      if exportsCount >= VAAPI_MAX_EXPORTS {
        return None;
      }
      desc := f.answers.exported;
      if desc.Some? {
        exports[exportsCount] := Export(f.surface, desc.value);
        exportsCount := exportsCount + 1;
        open := open[desc.value.fd := surfaces(f.surface)];
        assert exports[..exportsCount] == s.exports + [Export(f.surface, desc.value)];
      }
    }

    /** dmabuf_get_nv12; `next` is the number of the first image EGL makes from here. */
    method GetNv12(d: Descriptor, f: Frame, next: nat) returns (drawn: Drawn)
      requires Valid() && d.fd in open && next == |made|
      modifies this`entriesCount, this`made, entries
      ensures Valid() && (Fields(), drawn) == GetPlanes(old(Fields()), d, f)
    {
      ghost var s := Fields();
      var i := 0;
      while i < entriesCount
        invariant 0 <= i <= entriesCount
        invariant forall j :: 0 <= j < i ==> entries[j].fd != d.fd
      {
        if entries[i].fd == d.fd {
          FoundEntry(s.entries, i);
          var e := entries[i];
          return if e.y.Image? && e.uv.Image? then Planes(e.y.id, e.uv.id) else Nothing;
        }
        i := i + 1;
      }
      if entriesCount >= DMABUF_MAX_IMAGES {
        return Nothing;
      }
      var yOk, uvOk := f.answers.yOk, f.answers.uvOk;
      var y := if yOk then Image(next) else NoImage;
      var uv := if uvOk then Image(next + if yOk then 1 else 0) else NoImage;
      made := made + (if yOk then [Plane(open[d.fd], false, d.pitch, 0, f.height)] else [])
                   + (if uvOk then [Plane(open[d.fd], true, d.pitch, d.uvOffset, f.height / 2)] else []);
      ghost var entry := if yOk && uvOk then Entry(d.fd, y, uv) else Entry(d.fd, NoImage, NoImage);
      if y == NoImage || uv == NoImage {
        entries[entriesCount] := Entry(d.fd, NoImage, NoImage);
        drawn := Nothing;
      } else {
        entries[entriesCount] := Entry(d.fd, y, uv);
        drawn := Planes(y.id, uv.id);
      }
      entriesCount := entriesCount + 1;
      assert entries[..entriesCount] == s.entries + [entry];
    }

    /** dmabuf_get_image; `next` is the number of the image EGL makes, if it does. */
    method GetImage(d: Descriptor, f: Frame, next: nat) returns (drawn: Drawn)
      requires Valid() && d.fd in open && d.pitch > 0 && next == |made|
      modifies this`tilesCount, this`made, tiles
      ensures Valid() && (Fields(), drawn) == GetTile(old(Fields()), d, f)
    {
      ghost var s := Fields();
      var i := 0;
      while i < tilesCount
        invariant 0 <= i <= tilesCount
        invariant forall j :: 0 <= j < i ==> tiles[j].fd != d.fd
      {
        if tiles[i].fd == d.fd {
          FoundTile(s.tiles, i);
          return Tiled(tiles[i].image);
        }
        i := i + 1;
      }
      if tilesCount >= DMABUF_MAX_IMAGES || !f.answers.tileOk {
        return Nothing;
      }
      made := made + [Plane(open[d.fd], false, d.pitch, 0, TileRows(d))];
      tiles[tilesCount] := Tile(d.fd, next);
      tilesCount := tilesCount + 1;
      assert tiles[..tilesCount] == s.tiles + [Tile(d.fd, next)];
      drawn := Tiled(next);
    }

    /** egl_draw_dmabuf up to the draw itself. */
    method DrawDmabuf(d: Descriptor, f: Frame, next: nat) returns (drawn: Drawn)
      requires Valid() && d.fd in open && next == |made|
      modifies this`tilesCount, this`made, this`lastWidth, this`lastHeight, tiles
      ensures Valid() && (Fields(), drawn) == DrawTiled(old(Fields()), d, f)
    {
      if !settings.tiled {
        return Nothing;
      }
      if f.width != lastWidth || f.height != lastHeight {
        tilesCount := 0;
        lastWidth := f.width;
        lastHeight := f.height;
      }
      if d.pitch <= 0 {
        return Nothing;
      }
      drawn := GetImage(d, f, next);
    }

    /** draw_dmabuf_nv12_external up to the draw itself; `next` is the number of the image EGL
        makes, if it does. */
    method GetExternal(d: Descriptor, f: Frame, next: nat) returns (image: Image)
      requires Valid() && d.fd in open && next == |external.made|
      modifies this`wholeFrom, external, external.entries
      ensures Valid() && (Fields(), image) == GetWhole(old(Fields()), d, f)
    {
      ghost var before := |external.made|;
      var created := if f.answers.externalOk then Image(next) else NoImage;
      image := external.DrawFrame(ExternalFrame(d, f.width, f.height), created);
      if |external.made| > before {
        wholeFrom := wholeFrom + [open[d.fd]];
      } else {
        assert wholeFrom + [] == wholeFrom;
      }
    }

    /** A frame of another size empties both caches of linear images. */
    method Resize(width: int, height: int)
      requires Valid()
      modifies this`entriesCount, this`lastWidth, this`lastHeight, external
      ensures Valid() && Fields() == ResizeLinear(old(Fields()), width, height)
    {
      if width != lastWidth || height != lastHeight {
        entriesCount := 0;
        external.Clear();
        lastWidth := width;
        lastHeight := height;
      }
    }

    /** egl_draw_dmabuf_nv12; `next` numbers the images of planes, `nextWhole` those of whole
        frames. */
    method DrawDmabufNv12(d: Descriptor, f: Frame, next: nat, nextWhole: nat) returns (drawn: Drawn)
      requires Valid() && d.fd in open && next == |made| && nextWhole == |external.made|
      modifies this, entries, external, external.entries
      ensures Valid() && (Fields(), drawn) == DrawLinear(old(Fields()), d, f)
    {
      if (!settings.twoPlane && !settings.external) || d.pitch <= 0 || d.pitch < f.width ||
         d.uvOffset % d.pitch != 0 {
        return Nothing;
      }
      Resize(f.width, f.height);
      if settings.external {
        var image := GetExternal(d, f, nextWhole);
        if image.Image? && f.answers.drawOk {
          return Whole(image.id);
        }
        if !settings.twoPlane {
          return Nothing;
        }
      }
      drawn := GetNv12(d, f, next);
    }

    /** The zero-copy branch of the frame handler. */
    method ShowFrame(surfaces: Surfaces, f: Frame, next: nat, nextWhole: nat) returns (drawn: Drawn)
      requires Valid() && Inv(surfaces, Fields()) && Possible(surfaces, Fields(), Show(f))
      requires next == |made| && nextWhole == |external.made|
      modifies this, exports, entries, tiles, external, external.entries
      ensures Valid() && Inv(surfaces, Fields())
      ensures (Fields(), drawn) == DrawFrame(surfaces, old(Fields()), f)
    {
      ghost var s := Fields();
      StepKeepsInv(surfaces, s, Show(f));
      ExportKeepsInv(surfaces, s, f);
      var desc := ExportDmabuf(surfaces, f);
      if desc.None? {
        return Nothing;
      }
      if desc.value.tiled {
        drawn := DrawDmabuf(desc.value, f, next);
      } else {
        drawn := DrawDmabufNv12(desc.value, f, next, nextWhole);
      }
    }
  }

  lemma {:induction false} FoundEntry(entries: seq<Entry>, k: nat)
    requires k < |entries| && forall j :: 0 <= j < k ==> entries[j].fd != entries[k].fd
    ensures FindEntry(entries, entries[k].fd) == k
    decreases k
  {
    if k > 0 {
      FoundEntry(entries[1..], k - 1);
    }
  }

  lemma {:induction false} FoundTile(tiles: seq<Tile>, k: nat)
    requires k < |tiles| && forall j :: 0 <= j < k ==> tiles[j].fd != tiles[k].fd
    ensures FindTile(tiles, tiles[k].fd) == k
    decreases k
  {
    if k > 0 {
      FoundTile(tiles[1..], k - 1);
    }
  }
}
