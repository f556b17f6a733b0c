/** Textures and the material registry: decoded image data, the probing of
    image paths by extension, the pixel-format choice, the procedural
    checkerboard fallback, and `FindOrCreateMaterial`, which appends to two
    parallel fixed-capacity lists. Image decoding is an external library,
    passed in as the oracle `decode` (a decoded image always has four
    8-bit channels, because the loader asks for four). The sine noise on
    the checkerboard's non-grid pixels is floating point and passed in as
    the oracle `noise`. */
module Texture {
  import opened Types
  import opened Gpu

  /** What the image library returns for a path it can decode. */
  datatype Image = Image(width: int32, height: int32, pixels: seq<byte>)

  datatype Rgb = Rgb(r: byte, g: byte, b: byte)

  /** The oracles standing for the image decoder and the sine noise. */
  datatype Env = Env(decode: string -> Option<Image>, noise: (nat, nat) -> Rgb)

  /** `TextureData`: `data` is `None` where the source holds a null pointer. */
  datatype TextureData = TextureData(
    width: uint16,
    height: uint16,
    data: Option<seq<byte>>,
    components: byte,
    bytesPerComponent: byte)

  const EmptyTextureData: TextureData := TextureData(0, 0, None, 0, 0)

  /** `operator bool`: true exactly when there is pixel data. */
  predicate HasData(t: TextureData)
  {
    t.data.Some?
  }

  /** A texture tests true exactly when it holds pixel data: never the
      empty texture, never one whose data was dropped, and whatever its
      sizes and channel fields say. */
  lemma HasDataSpec(t: TextureData, w: uint16, h: uint16)
    ensures HasData(t) <==> t.data != None
    ensures !HasData(EmptyTextureData) && !HasData(t.(data := None))
    ensures HasData(t.(width := w, height := h)) == HasData(t)
  {
  }

  datatype Moved = Moved(target: TextureData, source: TextureData)

  /** Move assignment: every field, the data pointer included, goes to the
      target, and the source is left without data, so exactly one of the
      two owns the pixels afterwards. */
  function MoveAssign(target: TextureData, source: TextureData): (m: Moved)
    ensures m.target.width == source.width && m.target.height == source.height
    ensures m.target.components == source.components && m.target.bytesPerComponent == source.bytesPerComponent
    ensures m.target.data == source.data
    ensures !HasData(m.source)
    ensures m.source.width == source.width && m.source.height == source.height
    ensures HasData(m.target) <==> HasData(source)
  {
    Moved(TextureData(source.width, source.height, source.data, source.components, source.bytesPerComponent),
          source.(data := None))
  }

  /** The extensions tried, in order, when a path does not decode as given. */
  const ImageTypes: seq<string> := [".bmp", ".jpg", ".jpeg", ".tga", ".png"]

  /** Position of the last occurrence of `c` in `s`; `LastIndexOfSpec`
      states what it finds. */
  function LastIndexOf(s: string, c: char): (r: Option<nat>)
    ensures r.Some? ==> r.value < |s|
  {
    if |s| == 0 then None
    else if s[|s| - 1] == c then Some(|s| - 1)
    else LastIndexOf(s[..|s| - 1], c)
  }

  /** The position found holds `c` and none after it does; no position is
      found exactly when `c` does not occur. */
  lemma {:induction false} LastIndexOfSpec(s: string, c: char)
    ensures var r := LastIndexOf(s, c);
            r.Some? ==> s[r.value] == c && forall j :: r.value < j < |s| ==> s[j] != c
    ensures LastIndexOf(s, c).None? ==> forall j :: 0 <= j < |s| ==> s[j] != c
  {
    if |s| > 0 && s[|s| - 1] != c {
      var front := s[..|s| - 1];
      LastIndexOfSpec(front, c);
      assert forall j :: 0 <= j < |front| ==> front[j] == s[j];
    }
  }

  /** Where the file name starts: just after the last '/'. */
  function FileNameStart(path: string): (k: nat)
    ensures k <= |path|
  {
    match LastIndexOf(path, '/')
    case None => 0
    case Some(i) => i + 1
  }

  /** The file name holds no '/'. */
  lemma {:induction false} FileNameStartSpec(path: string)
    ensures forall j :: FileNameStart(path) <= j < |path| ==> path[j] != '/'
  {
    LastIndexOfSpec(path, '/');
  }

  /** The path with its file name's extension removed: `parent_path() /
      stem()` when the path has an extension, the path itself otherwise.
      A file name has an extension when it contains a '.' after its first
      character and is not "..". */
  function StripExtension(path: string): (r: string)
    ensures |r| <= |path|
  {
    var k := FileNameStart(path);
    var name := path[k..];
    if name == ".." then path
    else match LastIndexOf(name, '.')
      case None => path
      case Some(dot) => if dot == 0 then path else path[..k + dot]
  }

  /** The stem is a prefix of the path. It is shorter exactly when the
      file name is not ".." and holds a '.' after its first character; it
      then stops at the last '.' of the file name, which is not the file
      name's first character, and the cut-off tail holds no '/'. */
  lemma {:induction false} StripExtensionSpec(path: string)
    ensures var r := StripExtension(path);
            var k := FileNameStart(path);
            && r == path[..|r|]
            && (r == path <==> path[k..] == ".." || forall j :: k < j < |path| ==> path[j] != '.')
            && (r != path ==> k < |r| && path[|r|] == '.')
            && (r != path ==> forall j :: |r| < j < |path| ==> path[j] != '.' && path[j] != '/')
  {
    var k := FileNameStart(path);
    var name := path[k..];
    FileNameStartSpec(path);
    LastIndexOfSpec(name, '.');
    assert forall j :: k <= j < |path| ==> path[j] == name[j - k];
    if name != ".." {
      match LastIndexOf(name, '.')
      case None =>
      case Some(dot) =>
        if dot != 0 {
          assert StripExtension(path) == path[..k + dot] && path[k + dot] == '.';
        }
    }
  }

  /** Every path `Init` may try for `name`, in order. */
  function Candidates(name: string): (r: seq<string>)
    ensures |r| == 1 + |ImageTypes| && r[0] == name
  {
    [name] + seq(|ImageTypes|, k requires 0 <= k < |ImageTypes| => StripExtension(name) + ImageTypes[k])
  }

  /** After the exact name come the stem and each extension, in order. */
  lemma CandidatesSpec(name: string)
    ensures forall k :: 0 <= k < |ImageTypes| ==> Candidates(name)[k + 1] == StripExtension(name) + ImageTypes[k]
  {
  }

  datatype Probe = Probe(image: Option<Image>, attempts: seq<string>)

  /** Tries `paths` in order and stops at the first one that decodes;
      `FirstDecodingSpec` states the search's outcome. */
  function FirstDecoding(paths: seq<string>, decode: string -> Option<Image>): (p: Probe)
    ensures |p.attempts| <= |paths|
  {
    if |paths| == 0 then Probe(None, [])
    else
      var first := decode(paths[0]);
      if first.Some? then Probe(first, [paths[0]])
      else
        var rest := FirstDecoding(paths[1..], decode);
        Probe(rest.image, [paths[0]] + rest.attempts)
  }

  /** The attempts made are a prefix of `paths`; all but the last failed;
      the result is what the last one decoded to, and is `None` exactly
      when no path decodes, in which case every path was tried. */
  lemma {:induction false} FirstDecodingSpec(paths: seq<string>, decode: string -> Option<Image>)
    ensures var p := FirstDecoding(paths, decode);
            && p.attempts == paths[..|p.attempts|]
            && (forall k :: 0 <= k < |p.attempts| - 1 ==> decode(p.attempts[k]).None?)
            && (p.image.Some? ==> |p.attempts| > 0 && decode(p.attempts[|p.attempts| - 1]) == p.image)
            && (p.image.None? <==> forall k :: 0 <= k < |paths| ==> decode(paths[k]).None?)
            && (p.image.None? ==> p.attempts == paths)
  {
    if |paths| > 0 && decode(paths[0]).None? {
      FirstDecodingSpec(paths[1..], decode);
      assert forall k :: 1 <= k < |paths| ==> paths[k] == paths[1..][k - 1];
    }
  }

  /** `Init` tries the exact name first; only if it fails are the stem plus
      ".bmp", ".jpg", ".jpeg", ".tga" and ".png" tried, in that order,
      stopping at the first success. */
  lemma ProbeOrder(name: string, decode: string -> Option<Image>)
    ensures var p := FirstDecoding(Candidates(name), decode);
            && |p.attempts| >= 1 && p.attempts[0] == name
            && (decode(name).Some? ==> p.attempts == [name] && p.image == decode(name))
            && (forall k :: 1 <= k < |p.attempts| ==> p.attempts[k] == StripExtension(name) + ImageTypes[k - 1])
            && (forall k :: 0 <= k < |p.attempts| - 1 ==> decode(p.attempts[k]).None?)
  {
    var c := Candidates(name);
    var p := FirstDecoding(c, decode);
    CandidatesSpec(name);
    FirstDecodingSpec(c, decode);
    assert p.attempts[0] == c[0];
  }

  /** The path search and the image it found (if any). */
  function ProbeImage(name: string, decode: string -> Option<Image>): Option<Image>
  {
    FirstDecoding(Candidates(name), decode).image
  }

  /** The texture data `Init` makes from a decoded image: its sizes
      truncated to 16 bits, and four one-byte components. */
  function FromImage(img: Image): TextureData
  {
    TextureData(ToUint16(img.width), ToUint16(img.height), Some(img.pixels), 4, 1)
  }

  /** `TextureData::Init`. When no candidate decodes, the data is null and
      the dimensions and channel fields are untouched; otherwise the
      texture takes the image's pixels and dimensions (truncated to 16 bits)
      with four one-byte components. */
  function TextureInit(t: TextureData, name: string, decode: string -> Option<Image>): (r: TextureData)
    ensures !HasData(r) <==> forall k :: 0 <= k < |Candidates(name)| ==> decode(Candidates(name)[k]).None?
    ensures !HasData(r) ==> r.width == t.width && r.height == t.height
                            && r.components == t.components && r.bytesPerComponent == t.bytesPerComponent
    ensures HasData(r) ==> r.components == 4 && r.bytesPerComponent == 1
    ensures HasData(r) ==> exists k :: 0 <= k < |Candidates(name)| && decode(Candidates(name)[k]).Some?
                              && (forall j :: 0 <= j < k ==> decode(Candidates(name)[j]).None?)
                              && r.data == Some(decode(Candidates(name)[k]).value.pixels)
                              && r.width == ToUint16(decode(Candidates(name)[k]).value.width)
                              && r.height == ToUint16(decode(Candidates(name)[k]).value.height)
    ensures HasData(r) <==> ProbeImage(name, decode).Some?
    ensures HasData(r) ==> r == FromImage(ProbeImage(name, decode).value)
  {
    var c := Candidates(name);
    var p := FirstDecoding(c, decode);
    FirstDecodingSpec(c, decode);
    match p.image
    case None => t.(data := None)
    case Some(img) =>
      var last := |p.attempts| - 1;
      assert c[last] == p.attempts[last];
      assert forall j :: 0 <= j < last ==> c[j] == p.attempts[j];
      FromImage(img)
  }

  /** The older `Init` in the single-file demo tries the exact name only.
      Whenever it succeeds, the probing `Init` yields the same texture. */
  function LegacyTextureInit(t: TextureData, name: string, decode: string -> Option<Image>): (r: TextureData)
    ensures HasData(r) <==> decode(name).Some?
    ensures HasData(r) ==> r == TextureInit(t, name, decode)
    ensures !HasData(r) ==> r == t.(data := None)
  {
    ProbeOrder(name, decode);
    match decode(name)
    case None => t.(data := None)
    case Some(img) => FromImage(img)
  }

  /** `GetNvrhiRowBytes`: bytes per row. The operands are promoted to
      `int`, so the product overflows a signed 32-bit value once it passes
      2^31 - 1; textures here always have four one-byte components, which
      keeps it far below that. The product as an integer always fits the
      32-bit result. */
  function RowBytes(t: TextureData): (r: uint32)
    ensures r == t.width * t.components * t.bytesPerComponent
  {
    MulBound(t.width, t.components, 0xFFFF, 0xFF);
    MulBound(t.width * t.components, t.bytesPerComponent, 0xFFFF * 0xFF, 0xFF);
    ToUint32(t.width * t.components * t.bytesPerComponent)
  }

  /** What the decoder returns for an image: non-negative sizes and four
      bytes per pixel, since the loader asks for four channels. */
  predicate WellDecoded(img: Image)
  {
    0 <= img.width && 0 <= img.height && |img.pixels| == img.width * img.height * 4
  }

  /** The row pitch times the height is exactly the size of the pixel data
      `Init` keeps, for an image whose sizes fit the 16-bit fields. */
  lemma RowsCoverData(t: TextureData, name: string, decode: string -> Option<Image>)
    requires ProbeImage(name, decode).Some? ==> WellDecoded(ProbeImage(name, decode).value)
    ensures var r := TextureInit(t, name, decode);
            (HasData(r) && ProbeImage(name, decode).value.width < 0x1_0000 && ProbeImage(name, decode).value.height < 0x1_0000)
            ==> |r.data.value| == RowBytes(r) * r.height
  {
    var r := TextureInit(t, name, decode);
    if HasData(r) {
      var img := ProbeImage(name, decode).value;
      if img.width < 0x1_0000 && img.height < 0x1_0000 {
        assert r.width == img.width && r.height == img.height;
        assert RowBytes(r) == img.width * 4;
        PitchTimesHeight(img.width, img.height);
      }
    }
  }

  lemma PitchTimesHeight(w: int, h: int)
    ensures w * h * 4 == (w * 4) * h
  {
  }

  lemma MulBound(a: nat, b: nat, maxA: nat, maxB: nat)
    requires a <= maxA && b <= maxB
    ensures a * b <= maxA * maxB
  {
    assert a * b <= maxA * b;
  }

  /** Channels per pixel of the formats a texture can be created with. */
  function ChannelCount(f: Format): nat
  {
    match f
    case R8_UNORM => 1
    case RG8_UNORM => 2
    case RGBA8_UNORM => 4
    case _ => 0
  }

  /** `GetNvrhiFormat`: one and two channels map to the one- and
      two-channel 8-bit formats; every other count, three included, maps to
      the four-channel format, since no three-channel one exists. */
  function TextureFormat(t: TextureData): (f: Format)
    ensures t.components == 1 || t.components == 2 ==> ChannelCount(f) == t.components
    ensures t.components != 1 && t.components != 2 ==> ChannelCount(f) == 4
    ensures ChannelCount(f) >= t.components || t.components > 4
  {
    match t.components
    case 1 => R8_UNORM
    case 2 => RG8_UNORM
    case _ => RGBA8_UNORM
  }

  /** One byte of the procedural fallback texture: pixel (x, y), channel c. */
  function CheckerboardByte(noise: (nat, nat) -> Rgb, x: nat, y: nat, c: nat): byte
  {
    if c == 3 then 255
    else if y % 4 == 0 || x % 4 == 0 then 240
    else if c == 0 then noise(x, y).r
    else if c == 1 then noise(x, y).g
    else noise(x, y).b
  }

  const CheckerboardSide: nat := 16
  const CheckerboardStride: nat := 16 * 4

  /** The 16x16 RGBA checkerboard, rows of 64 bytes one after the other. */
  function CheckerboardPixels(noise: (nat, nat) -> Rgb): (r: seq<byte>)
    ensures |r| == 16 * 16 * 4
  {
    seq(16 * 16 * 4, i requires 0 <= i < 16 * 16 * 4 => CheckerboardByte(noise, (i % 64) / 4, i / 64, i % 4))
  }

  lemma PixelOffset(x: nat, y: nat, c: nat)
    requires x < 16 && y < 16 && c < 4
    ensures (y * 64 + x * 4 + c) / 64 == y
    ensures ((y * 64 + x * 4 + c) % 64) / 4 == x
    ensures (y * 64 + x * 4 + c) % 4 == c
  {
    var i := y * 64 + x * 4 + c;
    assert x * 4 + c < 64;
    assert i / 64 == y && i % 64 == x * 4 + c;
  }

  /** Layout of the fallback texture: every pixel's alpha is 255; a pixel
      whose row or column is a multiple of 4 is light grey (240, 240, 240);
      every other pixel takes its colour from the noise. */
  lemma CheckerboardLayout(noise: (nat, nat) -> Rgb, x: nat, y: nat)
    requires x < 16 && y < 16
    ensures var px := CheckerboardPixels(noise);
            var o := y * CheckerboardStride + x * 4;
            && o + 4 <= |px|
            && px[o + 3] == 255
            && ((x % 4 == 0 || y % 4 == 0) ==> px[o] == 240 && px[o + 1] == 240 && px[o + 2] == 240)
            && (!(x % 4 == 0 || y % 4 == 0) ==> px[o] == noise(x, y).r && px[o + 1] == noise(x, y).g && px[o + 2] == noise(x, y).b)
  {
    PixelOffset(x, y, 0);
    PixelOffset(x, y, 1);
    PixelOffset(x, y, 2);
    PixelOffset(x, y, 3);
  }

  /** The fallback texture's data: 16 by 16, four one-byte channels. */
  function CheckerboardTexture(noise: (nat, nat) -> Rgb): (t: TextureData)
    ensures HasData(t) && |t.data.value| == t.width * t.height * t.components
    ensures RowBytes(t) == CheckerboardStride
  {
    TextureData(16, 16, Some(CheckerboardPixels(noise)), 4, 1)
  }

  const Capacity: nat := 32

  /** The two parallel lists: decoded texture data and GPU texture handles. */
  datatype Registry = Registry(datas: seq<TextureData>, objects: seq<Handle>)

  const EmptyRegistry: Registry := Registry([], [])

  predicate Lockstep(reg: Registry)
  {
    |reg.datas| == |reg.objects| <= Capacity
  }

  /** Whether a lookup of `name` finds an image. */
  predicate Loads(name: string, decode: string -> Option<Image>)
  {
    ProbeImage(name, decode).Some?
  }

  /** Whether `FindOrCreateMaterial(name)` appends: a null name always
      does, a non-null one when an image is found. */
  predicate Appends(name: Option<string>, decode: string -> Option<Image>)
  {
    name.None? || Loads(name.value, decode)
  }

  /** The texture's debug name: the material name, or "default" for the
      fallback. */
  function MaterialDebugName(name: Option<string>): string
  {
    match name
    case None => "default"
    case Some(n) => n
  }

  datatype MaterialResult = MaterialResult(registry: Registry, device: Device, index: int32)

  /** `FindOrCreateMaterial`. A non-null name whose image is not found
      yields -1 and changes nothing. Otherwise the texture (the checkerboard
      for a null name) is uploaded and appended to both lists, and the
      index of the new last entry is returned; there is no lookup of
      earlier entries. Appending past the lists' capacity is undefined in
      the source, so the caller must leave room. */
  function FindOrCreateMaterial(reg: Registry, d: Device, name: Option<string>, env: Env): (m: MaterialResult)
    requires Appends(name, env.decode) ==> |reg.datas| < Capacity && |reg.objects| < Capacity
    ensures m.index == -1 <==> !Appends(name, env.decode)
    ensures m.index == -1 ==> m.registry == reg && m.device == d
    ensures m.index != -1 ==>
              && m.index == |reg.objects|
              && m.registry.objects == reg.objects + [d.next]
              && |m.registry.datas| == |reg.datas| + 1
              && m.registry.datas[..|reg.datas|] == reg.datas
              && HasData(m.registry.datas[|reg.datas|])
              && m.device.next == d.next + 1
    ensures name.None? ==> m.registry.datas[|reg.datas|] == CheckerboardTexture(env.noise)
    ensures name.Some? && m.index != -1 ==>
              m.registry.datas[|reg.datas|] == TextureInit(EmptyTextureData, name.value, env.decode)
    ensures m.index != -1 ==>
              var e := m.registry.datas[|reg.datas|];
              m.device.trace == d.trace + [CreateTexture(d.next, TextureDesc(e.width, e.height, TextureFormat(e), MaterialDebugName(name))),
                                           Open, BeginTracking(d.next, Common), WriteTexture(d.next, RowBytes(e)),
                                           SetPermanent(d.next, ShaderResource), Close, Execute]
    ensures Lockstep(reg) ==> Lockstep(m.registry)
    ensures Disciplined(d) ==>
              && Disciplined(m.device)
              && (m.index != -1 ==> StateOf(m.device, d.next) == Some(Permanent(ShaderResource)))
              && (forall h :: h != d.next ==> StateOf(m.device, h) == StateOf(d, h))
  {
    var loaded := match name
      case Some(n) => TextureInit(EmptyTextureData, n, env.decode)
      case None => CheckerboardTexture(env.noise);
    if name.Some? && !HasData(loaded) then
      MaterialResult(reg, d, -1)
    else
      var desc := TextureDesc(loaded.width, loaded.height, TextureFormat(loaded), MaterialDebugName(name));
      var h := d.next;
      var d' := Device(d.trace + [CreateTexture(h, desc), Open, BeginTracking(h, Common), WriteTexture(h, RowBytes(loaded)),
                                  SetPermanent(h, ShaderResource), Close, Execute], h + 1);
      var moved := MoveAssign(EmptyTextureData, loaded);
      var reg' := Registry(reg.datas + [moved.target], reg.objects + [h]);
      assert reg'.datas[..|reg.datas|] == reg.datas;
      if Disciplined(d) then
        TextureUploadDisciplined(d, desc, RowBytes(loaded));
        MaterialResult(reg', d', |reg.objects|)
      else
        MaterialResult(reg', d', |reg.objects|)
  }

  /** No deduplication: asking twice for the same name that loads gives two
      different entries, the second right after the first. */
  lemma NoDedup(reg: Registry, d: Device, name: string, env: Env)
    requires env.decode(name).Some?
    requires |reg.datas| + 1 < Capacity && |reg.objects| + 1 < Capacity
    ensures var m1 := FindOrCreateMaterial(reg, d, Some(name), env);
            var m2 := FindOrCreateMaterial(m1.registry, m1.device, Some(name), env);
            && m1.index != -1 && m2.index == m1.index + 1
            && |m2.registry.objects| == |reg.objects| + 2
  {
  }
}
