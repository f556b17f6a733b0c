/** The model loader: flattening every primitive of a glTF document's first
    mesh into an interleaved vertex array, a 32-bit index array and a
    material name, and registering the result as a render model whose
    surfaces own uploaded GPU buffers and a texture binding. The parsed
    document is what the external glTF library produced; each attribute
    stream carries the accessor the loader reads and the elements its data
    holds once reinterpreted as floats or 16-bit colours. */
module Model {
  import opened Types
  import opened Gpu
  import opened Gltf
  import opened Indices
  import opened Buffers
  import opened Texture

  datatype Float2 = Float2(x: real, y: real)
  datatype Float3 = Float3(x: real, y: real, z: real)
  datatype Float4 = Float4(x: real, y: real, z: real, w: real)
  datatype Rgba16 = Rgba16(r: uint16, g: uint16, b: uint16, a: uint16)

  /** The interleaved vertex: position, normal, texture coordinates, colour. */
  datatype DrawVertex = DrawVertex(position: Float3, normal: Float3, texcoord: Float2, colour: Float4)

  /** `sizeof(DrawVertex)`: twelve 4-byte floats. */
  const SizeOfDrawVertex: nat := (3 + 3 + 2 + 4) * 4
  const SizeOfIndex: nat := 4

  datatype Stream<T> = Stream(accessor: Accessor, elements: seq<T>)

  /** One glTF primitive: its POSITION, NORMAL, TEXCOORD_0 and COLOR_0
      attributes (any other attribute is ignored by the loader), its index
      accessor with the raw bytes behind it, and its material index. The
      index accessor is not optional: without one the source reads the
      accessor at index -1, which is undefined. */
  datatype Primitive = Primitive(
    position: Option<Stream<Float3>>,
    normal: Option<Stream<Float3>>,
    texcoord: Option<Stream<Float2>>,
    colour: Option<Stream<Rgba16>>,
    indices: Accessor,
    indexData: seq<byte>,
    material: int32)

  datatype Mesh = Mesh(primitives: seq<Primitive>)

  datatype Document = Document(meshes: seq<Mesh>, materialNames: seq<string>)

  datatype DrawSurface = DrawSurface(materialName: string, vertexData: seq<DrawVertex>, vertexIndices: seq<uint32>)

  datatype DrawMesh = DrawMesh(surfaces: seq<DrawSurface>)

  /** `DrawSurface::IndexBytes`: the index array's byte size as a 32-bit value. */
  function IndexBytes(s: DrawSurface): (r: uint32)
    ensures |s.vertexIndices| < 0x4000_0000 ==> r == |s.vertexIndices| * SizeOfIndex
  {
    ToUint32(|s.vertexIndices| * SizeOfIndex)
  }

  /** `DrawSurface::VertexBytes`: the vertex array's byte size as a 32-bit value. */
  function VertexBytes(s: DrawSurface): (r: uint32)
    ensures |s.vertexData| * SizeOfDrawVertex < 0x1_0000_0000 ==> r == |s.vertexData| * SizeOfDrawVertex
  {
    ToUint32(|s.vertexData| * SizeOfDrawVertex)
  }

  /** A 16-bit colour channel scaled by 1/65536. Dividing by a power of two
      is exact in floating point, so the rational value is the float's. */
  function Channel(v: uint16): (c: real)
    ensures 0.0 <= c < 1.0
    ensures c * 65536.0 == v as real
    ensures v == 0 ==> c == 0.0
  {
    v as real / 65536.0
  }

  function DecodeColour(c: Rgba16): Float4
  {
    Float4(Channel(c.r), Channel(c.g), Channel(c.b), Channel(c.a))
  }

  const White: Float4 := Float4(1.0, 1.0, 1.0, 1.0)

  const DefaultMaterialName: string := "default"

  predicate Sized<T>(s: Option<Stream<T>>)
  {
    s.None? || CalculateDataTypeSize(s.value.accessor) != 0
  }

  /** The stream can be read at indices below `n`; an absent stream only
      when nothing is read from it. */
  predicate Covers<T>(s: Option<Stream<T>>, n: nat)
  {
    n == 0 || (s.Some? && n <= |s.value.elements|)
  }

  /** Number of vertices: the POSITION accessor's element count. */
  function VertexCount(p: Primitive): nat
    requires p.position.Some? && CalculateDataTypeSize(p.position.value.accessor) != 0
  {
    NumElements(GetData(p.position.value.accessor))
  }

  function IndexCount(p: Primitive): nat
    requires CalculateDataTypeSize(p.indices) != 0
  {
    NumElements(GetData(p.indices))
  }

  /** What the loader reads from a primitive without checking it: a POSITION
      attribute, the element count of every present attribute and of the
      indices (a zero element size divides by zero), the NORMAL and
      TEXCOORD_0 data for every vertex, the COLOR_0 data when present, the
      index bytes for a supported stride, and a material index that is -1
      or names a material. */
  predicate PrimitiveReadable(p: Primitive, materialCount: nat)
  {
    && p.position.Some?
    && Sized(p.position) && Sized(p.normal) && Sized(p.texcoord) && Sized(p.colour)
    && CalculateDataTypeSize(p.indices) != 0
    && Covers(p.position, VertexCount(p)) && Covers(p.normal, VertexCount(p)) && Covers(p.texcoord, VertexCount(p))
    && (p.colour.Some? ==> VertexCount(p) <= |p.colour.value.elements|)
    && (SupportedStride(CalculateDataTypeSize(p.indices)) ==>
          IndexCount(p) * CalculateDataTypeSize(p.indices) <= |p.indexData|)
    && (p.material == -1 || 0 <= p.material < materialCount)
  }

  predicate DocumentReadable(doc: Document)
  {
    && |doc.meshes| > 0
    && forall p :: p in doc.meshes[0].primitives ==> PrimitiveReadable(p, |doc.materialNames|)
  }

  function MaterialName(doc: Document, p: Primitive): string
    requires p.material == -1 || 0 <= p.material < |doc.materialNames|
  {
    if p.material == -1 then DefaultMaterialName else doc.materialNames[p.material]
  }

  /** One primitive flattened into a draw surface. There is one vertex per
      POSITION element, carrying the position, normal and texture
      coordinates at its index; its colour is the 16-bit COLOR_0 value
      scaled into [0, 1) or, without COLOR_0, opaque white. The indices are
      the widened index accessor; the material is "default" for material
      -1 and the material's name otherwise. */
  function FlattenPrimitive(doc: Document, p: Primitive): (s: DrawSurface)
    requires PrimitiveReadable(p, |doc.materialNames|)
    ensures s.materialName == if p.material == -1 then DefaultMaterialName else doc.materialNames[p.material]
    ensures |s.vertexData| == VertexCount(p)
    ensures forall i :: 0 <= i < |s.vertexData| ==>
              && s.vertexData[i].position == p.position.value.elements[i]
              && s.vertexData[i].normal == p.normal.value.elements[i]
              && s.vertexData[i].texcoord == p.texcoord.value.elements[i]
    ensures p.colour.None? ==> forall i :: 0 <= i < |s.vertexData| ==> s.vertexData[i].colour == White
    ensures p.colour.Some? ==> forall i :: 0 <= i < |s.vertexData| ==>
              s.vertexData[i].colour == DecodeColour(p.colour.value.elements[i])
    ensures forall i :: 0 <= i < |s.vertexData| && p.colour.Some? ==>
              0.0 <= s.vertexData[i].colour.x < 1.0 && 0.0 <= s.vertexData[i].colour.w < 1.0
    ensures s.vertexIndices == Widen(p.indexData, CalculateDataTypeSize(p.indices), IndexCount(p))
  {
    var n := VertexCount(p);
    var vertices := seq(n, i requires 0 <= i < n =>
      DrawVertex(
        p.position.value.elements[i],
        p.normal.value.elements[i],
        p.texcoord.value.elements[i],
        if p.colour.Some? then DecodeColour(p.colour.value.elements[i]) else White));
    DrawSurface(MaterialName(doc, p), vertices, Widen(p.indexData, CalculateDataTypeSize(p.indices), IndexCount(p)))
  }

  /** Round trip through the loader's index path: an index accessor of
      1-, 2- or 4-byte elements whose bytes encode `xs`, with a byte size
      that fits in 32 bits, loads back exactly as `xs`. */
  lemma {:induction false} IndexAccessorRoundTrip(a: Accessor, data: seq<byte>, xs: seq<nat>)
    requires CalculateDataTypeSize(a) == 1 || CalculateDataTypeSize(a) == 2 || CalculateDataTypeSize(a) == 4
    requires a.count == |xs| && |xs| * CalculateDataTypeSize(a) < 0x1_0000_0000
    requires data == EncodeIndices(xs, CalculateDataTypeSize(a))
    requires forall k :: 0 <= k < |xs| ==> xs[k] < Pow256(CalculateDataTypeSize(a))
    ensures Widen(data, CalculateDataTypeSize(a), NumElements(GetData(a))) == xs
  {
    NumElementsIsCount(a);
    IndexRoundTrip(xs, CalculateDataTypeSize(a));
  }

  /** `GltfModel::Init` on a parsed document: one surface per primitive of
      the first mesh, in primitive order. */
  function Flatten(doc: Document): (m: DrawMesh)
    requires DocumentReadable(doc)
    ensures |m.surfaces| == |doc.meshes[0].primitives|
    ensures forall k :: 0 <= k < |m.surfaces| ==> m.surfaces[k] == FlattenPrimitive(doc, doc.meshes[0].primitives[k])
  {
    var prims := doc.meshes[0].primitives;
    DrawMesh(seq(|prims|, k requires 0 <= k < |prims| => FlattenPrimitive(doc, prims[k])))
  }

  /** `GltfModel::Init` including the parse. `None` for `parsed` stands
      for the one failure the source catches, a `std::system_error` from
      `LoadFromBinary`, which gives failure. */
  function GltfInit(parsed: Option<Document>): (r: Option<DrawMesh>)
    requires parsed.Some? ==> DocumentReadable(parsed.value)
    ensures r.None? <==> parsed.None?
    ensures r.Some? ==> |r.value.surfaces| == |parsed.value.meshes[0].primitives|
  {
    match parsed
    case None => None
    case Some(doc) => Some(Flatten(doc))
  }

  /** The material names of a list of surfaces, in order. */
  function Names(ss: seq<DrawSurface>): (r: seq<string>)
    ensures |r| == |ss|
    ensures forall k :: 0 <= k < |ss| ==> r[k] == ss[k].materialName
  {
    if |ss| == 0 then [] else [ss[0].materialName] + Names(ss[1..])
  }

  /** Material names of the first mesh's primitives, in order. */
  function MaterialNames(doc: Document): seq<string>
    requires DocumentReadable(doc)
  {
    Names(Flatten(doc).surfaces)
  }

  // ---------------------------------------------------------------------
  // The render-model registry

  datatype BindingSet = BindingSet(handle: Handle, texture: Handle)

  datatype RenderSurface = RenderSurface(
    textureObjectHandle: int32,
    numIndices: int32,
    numVertices: int32,
    bindingSet: BindingSet,
    vertexBuffer: Buffer,
    indexBuffer: Buffer)

  datatype RenderModel = RenderModel(name: string, surfaces: seq<RenderSurface>)

  /** The process-wide state the loader mutates: the texture registry, the
      render-model registry and the GPU device. */
  datatype Renderer = Renderer(textures: Registry, models: seq<RenderModel>, device: Device)

  /** Whether registering material `name` into a registry of `n` textures
      stays within the source's defined behaviour: a found image needs a
      free slot, and a miss (replaced by texture 0) needs texture 0 to
      exist. */
  predicate Room(n: nat, name: string, decode: string -> Option<Image>)
  {
    if Loads(name, decode) then n < Capacity else n > 0
  }

  /** Registry slots a lookup of `name` takes: one when its image is
      found, none otherwise. */
  function Slots(name: string, decode: string -> Option<Image>): nat
  {
    if Loads(name, decode) then 1 else 0
  }

  /** `Room` for every material of `names` in turn, counting the slots the
      earlier ones took. */
  predicate Admissible(n: nat, names: seq<string>, decode: string -> Option<Image>)
    decreases |names|
  {
    |names| == 0 ||
    (Room(n, names[0], decode) && Admissible(n + Slots(names[0], decode), names[1..], decode))
  }

  /** A registered surface is drawable: its buffers sit permanently in the
      vertex- and index-readable states, and its texture handle names a
      registry entry whose texture its binding set binds. */
  predicate SurfaceLive(d: Device, objects: seq<Handle>, s: RenderSurface)
    requires Disciplined(d)
  {
    && StateOf(d, s.vertexBuffer.handle) == Some(Permanent(VertexBuffer))
    && StateOf(d, s.indexBuffer.handle) == Some(Permanent(IndexBuffer))
    && 0 <= s.textureObjectHandle < |objects|
    && s.bindingSet.texture == objects[s.textureObjectHandle]
  }

  /** The invariant of the renderer state: lists in lockstep, a disciplined
      trace, every registered texture permanently shader-readable and every
      registered surface live. */
  predicate Valid(ctx: Renderer)
  {
    && Lockstep(ctx.textures)
    && Disciplined(ctx.device)
    && (forall i :: 0 <= i < |ctx.textures.objects| ==>
          StateOf(ctx.device, ctx.textures.objects[i]) == Some(Permanent(ShaderResource)))
    && (forall m, s :: m in ctx.models && s in m.surfaces ==> SurfaceLive(ctx.device, ctx.textures.objects, s))
  }

  /** `d'` only added to `d`: every handle `d` tracks is tracked the same. */
  ghost predicate Extends(d: Device, d': Device)
  {
    && Disciplined(d) && Disciplined(d')
    && d.next <= d'.next
    && forall h :: StateOf(d, h).Some? ==> StateOf(d', h) == StateOf(d, h)
  }

  lemma TrackedBelowNext(d: Device, h: Handle)
    requires Disciplined(d)
    requires StateOf(d, h).Some?
    ensures h < d.next
  {
  }

  lemma ExtendsTrans(d1: Device, d2: Device, d3: Device)
    requires Extends(d1, d2) && Extends(d2, d3)
    ensures Extends(d1, d3)
  {
  }

  lemma {:induction false} SurfaceLiveMono(d: Device, d': Device, objects: seq<Handle>, objects': seq<Handle>, s: RenderSurface)
    requires Extends(d, d')
    requires Grows(objects, objects')
    requires SurfaceLive(d, objects, s)
    ensures SurfaceLive(d', objects', s)
  {
    assert objects'[s.textureObjectHandle] == objects[s.textureObjectHandle];
  }

  /** Registers one flattened surface: looks up its material (a miss
      becomes texture 0), uploads its vertex and then its index buffer,
      records the element counts as 32-bit signed values, and creates the
      binding set for its texture. */
  method LoadSurface(ctx: Renderer, s: DrawSurface, fileName: string, env: Env)
    returns (ctx': Renderer, surface: RenderSurface)
    requires Lockstep(ctx.textures)
    requires Room(|ctx.textures.objects|, s.materialName, env.decode)
    ensures ctx'.models == ctx.models
    ensures Lockstep(ctx'.textures)
    ensures |ctx'.textures.objects| == |ctx.textures.objects| + Slots(s.materialName, env.decode)
    ensures Grows(ctx.textures.objects, ctx'.textures.objects) && Grows(ctx.textures.datas, ctx'.textures.datas)
    ensures Registered(surface, s, fileName, |ctx.textures.objects|, ctx'.textures, env.decode)
    ensures Valid(ctx) ==> Valid(ctx') && Extends(ctx.device, ctx'.device) && SurfaceLive(ctx'.device, ctx'.textures.objects, surface)
  {
    var m := FindOrCreateMaterial(ctx.textures, ctx.device, Some(s.materialName), env);
    var vb := CreateBufferWithData(m.device, s.vertexData, SizeOfDrawVertex, true, Some(fileName));
    var ib := CreateBufferWithData(vb.device, s.vertexIndices, SizeOfIndex, false, Some(fileName));
    var handle: int32 := if m.index == -1 then 0 else m.index;
    var texture := m.registry.objects[handle];
    var bs := BindingSet(ib.device.next, texture);
    var d' := Device(ib.device.trace + [CreateBindingSet(bs.handle, texture)], bs.handle + 1);
    surface := RenderSurface(handle, ToInt32(|s.vertexIndices|), ToInt32(|s.vertexData|), bs, vb.buffer, ib.buffer);
    ctx' := Renderer(m.registry, ctx.models, d');
    if Valid(ctx) {
      LoadSurfaceKeepsValid(ctx, m, vb, ib, handle, surface, ctx');
    }
  }

  lemma LoadSurfaceKeepsValid(ctx: Renderer, m: MaterialResult, vb: Upload, ib: Upload, handle: int32,
                              surface: RenderSurface, ctx': Renderer)
    requires Valid(ctx)
    requires m.index != -1 ==> m.index == |ctx.textures.objects| && m.registry.objects == ctx.textures.objects + [ctx.device.next]
    requires m.index == -1 ==> m.registry == ctx.textures && m.device == ctx.device
    requires Lockstep(m.registry)
    requires Disciplined(m.device) && m.device.next >= ctx.device.next
    requires m.index != -1 ==> StateOf(m.device, ctx.device.next) == Some(Permanent(ShaderResource))
    requires forall h :: h != ctx.device.next ==> StateOf(m.device, h) == StateOf(ctx.device, h)
    requires vb.buffer.handle == m.device.next && vb.device.next == m.device.next + 1
    requires Disciplined(vb.device) && StateOf(vb.device, vb.buffer.handle) == Some(Permanent(VertexBuffer))
    requires forall h :: h != vb.buffer.handle ==> StateOf(vb.device, h) == StateOf(m.device, h)
    requires ib.buffer.handle == vb.device.next && ib.device.next == vb.device.next + 1
    requires Disciplined(ib.device) && StateOf(ib.device, ib.buffer.handle) == Some(Permanent(IndexBuffer))
    requires forall h :: h != ib.buffer.handle ==> StateOf(ib.device, h) == StateOf(vb.device, h)
    requires handle == (if m.index == -1 then 0 else m.index)
    requires 0 <= handle < |m.registry.objects|
    requires surface.textureObjectHandle == handle
    requires surface.vertexBuffer == vb.buffer && surface.indexBuffer == ib.buffer
    requires surface.bindingSet == BindingSet(ib.device.next, m.registry.objects[handle])
    requires ctx' == Renderer(m.registry, ctx.models,
                              Device(ib.device.trace + [CreateBindingSet(ib.device.next, m.registry.objects[handle])], ib.device.next + 1))
    ensures Valid(ctx') && Extends(ctx.device, ctx'.device) && SurfaceLive(ctx'.device, ctx'.textures.objects, surface)
  {
    var objs := m.registry.objects;
    var texture := objs[handle];
    // the registry's textures are all shader-readable on the device after the material lookup
    forall i | 0 <= i < |objs|
      ensures StateOf(m.device, objs[i]) == Some(Permanent(ShaderResource))
    {
      if i < |ctx.textures.objects| {
        assert objs[i] == ctx.textures.objects[i];
        TrackedBelowNext(ctx.device, objs[i]);
      }
    }
    assert Extends(ctx.device, m.device) by {
      forall h | StateOf(ctx.device, h).Some?
        ensures StateOf(m.device, h) == StateOf(ctx.device, h)
      {
        TrackedBelowNext(ctx.device, h);
      }
    }
    assert Extends(m.device, vb.device) by {
      forall h | StateOf(m.device, h).Some?
        ensures StateOf(vb.device, h) == StateOf(m.device, h)
      {
        TrackedBelowNext(m.device, h);
      }
    }
    assert Extends(vb.device, ib.device) by {
      forall h | StateOf(vb.device, h).Some?
        ensures StateOf(ib.device, h) == StateOf(vb.device, h)
      {
        TrackedBelowNext(vb.device, h);
      }
    }
    assert StateOf(ib.device, texture) == Some(Permanent(ShaderResource)) by {
      TrackedBelowNext(m.device, texture);
    }
    BindingSetDisciplined(ib.device, texture);
    var d' := ctx'.device;
    assert Extends(ib.device, d');
    ExtendsTrans(ctx.device, m.device, vb.device);
    ExtendsTrans(ctx.device, vb.device, ib.device);
    ExtendsTrans(ctx.device, ib.device, d');
    ExtendsTrans(m.device, vb.device, ib.device);
    ExtendsTrans(m.device, ib.device, d');
    ExtendsTrans(vb.device, ib.device, d');
    assert objs[..|ctx.textures.objects|] == ctx.textures.objects;
    forall md, s | md in ctx'.models && s in md.surfaces
      ensures SurfaceLive(d', objs, s)
    {
      SurfaceLiveMono(ctx.device, d', ctx.textures.objects, objs, s);
    }
  }

  /** `b` keeps `a` as its prefix. */
  predicate Grows<T(==)>(a: seq<T>, b: seq<T>)
  {
    |a| <= |b| && b[..|a|] == a
  }

  lemma {:induction false} GrowsTrans<T>(a: seq<T>, b: seq<T>, c: seq<T>)
    requires Grows(a, b) && Grows(b, c)
    ensures Grows(a, c)
  {
    assert c[..|b|][..|a|] == c[..|a|];
  }

  /** Registry slots the surfaces of `ss` take, in order: one for each
      whose material's image is found. */
  function Taken(ss: seq<DrawSurface>, decode: string -> Option<Image>): nat
  {
    if |ss| == 0 then 0 else Taken(ss[..|ss| - 1], decode) + Slots(ss[|ss| - 1].materialName, decode)
  }

  /** For each surface of `ss`, the slots taken by the ones before it. */
  function Offsets(ss: seq<DrawSurface>, decode: string -> Option<Image>): (o: seq<nat>)
    ensures |o| == |ss|
  {
    if |ss| == 0 then [] else Offsets(ss[..|ss| - 1], decode) + [Taken(ss[..|ss| - 1], decode)]
  }

  lemma {:induction false} OffsetsSnoc(ss: seq<DrawSurface>, s: DrawSurface, decode: string -> Option<Image>)
    ensures Offsets(ss + [s], decode) == Offsets(ss, decode) + [Taken(ss, decode)]
  {
    assert (ss + [s])[..|ss|] == ss;
  }

  /** The offset of surface `k` counts the loading materials of the
      surfaces before it. */
  lemma {:induction false} OffsetsCountPrefix(ss: seq<DrawSurface>, decode: string -> Option<Image>)
    ensures forall k :: 0 <= k < |ss| ==> Offsets(ss, decode)[k] == Taken(ss[..k], decode)
  {
    if |ss| > 0 {
      var init := ss[..|ss| - 1];
      OffsetsCountPrefix(init, decode);
      forall k | 0 <= k < |ss|
        ensures Offsets(ss, decode)[k] == Taken(ss[..k], decode)
      {
        if k < |init| {
          assert ss[..k] == init[..k];
        } else {
          assert ss[..k] == init;
        }
      }
    }
  }

  /** What the loader records for flattened surface `s` registered under
      `fileName`, where `slot` is the registry position its material takes
      if found: index and vertex counts as 32-bit signed values; buffers of
      the surface's byte sizes named after the file; a texture index into
      the registry that the binding set binds, which is `slot` when the
      material is found, holding the image probed for it, and the fallback
      0 otherwise. */
  predicate Registered(r: RenderSurface, s: DrawSurface, fileName: string, slot: nat, reg: Registry,
                       decode: string -> Option<Image>)
  {
    && r.numIndices == ToInt32(|s.vertexIndices|)
    && r.numVertices == ToInt32(|s.vertexData|)
    && r.vertexBuffer.desc.byteSize == |s.vertexData| * SizeOfDrawVertex
    && r.indexBuffer.desc.byteSize == |s.vertexIndices| * SizeOfIndex
    && r.vertexBuffer.desc.debugName == fileName && r.indexBuffer.desc.debugName == fileName
    && 0 <= r.textureObjectHandle < |reg.objects|
    && r.bindingSet.texture == reg.objects[r.textureObjectHandle]
    && (Loads(s.materialName, decode) ==> r.textureObjectHandle == slot)
    && (!Loads(s.materialName, decode) ==> r.textureObjectHandle == 0)
    && Holds(reg, r.textureObjectHandle as nat, s.materialName, decode)
  }

  /** When material `name` is found, registry slot `slot` holds the texture
      data made from its probed image. */
  predicate Holds(reg: Registry, slot: nat, name: string, decode: string -> Option<Image>)
  {
    Loads(name, decode) ==> slot < |reg.datas| && reg.datas[slot] == FromImage(ProbeImage(name, decode).value)
  }

  lemma {:induction false} HoldsMono(reg: Registry, reg': Registry, slot: nat, name: string,
                                     decode: string -> Option<Image>)
    requires Holds(reg, slot, name, decode) && Grows(reg.datas, reg'.datas)
    ensures Holds(reg', slot, name, decode)
  {
    if Loads(name, decode) {
      assert reg'.datas[slot] == reg.datas[slot];
    }
  }

  /** A registered surface stays registered as the registry grows. */
  lemma {:induction false} RegisteredMono(r: RenderSurface, s: DrawSurface, fileName: string, slot: nat,
                                          reg: Registry, reg': Registry, decode: string -> Option<Image>)
    requires Registered(r, s, fileName, slot, reg, decode)
    requires Grows(reg.objects, reg'.objects) && Grows(reg.datas, reg'.datas)
    ensures Registered(r, s, fileName, slot, reg', decode)
  {
    assert reg'.objects[r.textureObjectHandle] == reg.objects[r.textureObjectHandle];
    HoldsMono(reg, reg', r.textureObjectHandle as nat, s.materialName, decode);
  }

  /** The 32-bit byte counts of a surface agree with the sizes the loader
      gives its buffers exactly when those sizes fit in 32 bits, and are
      those sizes modulo 2^32 in any case. */
  lemma ByteCountsMatchBuffers(r: RenderSurface, s: DrawSurface, fileName: string, slot: nat, reg: Registry,
                               decode: string -> Option<Image>)
    requires Registered(r, s, fileName, slot, reg, decode)
    ensures IndexBytes(s) == r.indexBuffer.desc.byteSize % 0x1_0000_0000
    ensures VertexBytes(s) == r.vertexBuffer.desc.byteSize % 0x1_0000_0000
    ensures IndexBytes(s) == r.indexBuffer.desc.byteSize <==> r.indexBuffer.desc.byteSize < 0x1_0000_0000
    ensures VertexBytes(s) == r.vertexBuffer.desc.byteSize <==> r.vertexBuffer.desc.byteSize < 0x1_0000_0000
  {
  }

  /** The registered surfaces match the flattened ones one to one, the
      `k`-th registered in the slot after those the earlier surfaces took
      in a registry that started with `n` entries. */
  predicate Counted(rs: seq<RenderSurface>, ss: seq<DrawSurface>, fileName: string, n: nat, reg: Registry,
                    decode: string -> Option<Image>)
  {
    && |rs| == |ss|
    && forall k :: 0 <= k < |ss| ==> Registered(rs[k], ss[k], fileName, n + Offsets(ss, decode)[k], reg, decode)
  }

  /** Every surface in `rs` is live on the renderer's device. */
  predicate AllLive(ctx: Renderer, rs: seq<RenderSurface>)
    requires Disciplined(ctx.device)
  {
    forall s :: s in rs ==> SurfaceLive(ctx.device, ctx.textures.objects, s)
  }

  /** What the loader's loop keeps while registering surfaces into `ctx`,
      starting from `origin`: the registries stay in lockstep and the
      texture list only grows; the surfaces registered so far match the
      flattened ones already visited; and, if `origin` was valid, the state
      is valid and every registered surface is live. */
  ghost predicate Registering(origin: Renderer, ctx: Renderer, done: seq<RenderSurface>, visited: seq<DrawSurface>,
                              fileName: string, decode: string -> Option<Image>)
  {
    && ctx.models == origin.models
    && Lockstep(ctx.textures)
    && Grows(origin.textures.objects, ctx.textures.objects)
    && Grows(origin.textures.datas, ctx.textures.datas)
    && |ctx.textures.objects| == |origin.textures.objects| + Taken(visited, decode)
    && Counted(done, visited, fileName, |origin.textures.objects|, ctx.textures, decode)
    && (Valid(origin) ==> Valid(ctx) && Extends(origin.device, ctx.device) && AllLive(ctx, done))
  }

  /** One iteration of the loader's loop: registers the next surface. */
  method RegisterNext(origin: Renderer, ctx: Renderer, done: seq<RenderSurface>, visited: seq<DrawSurface>,
                      rest: seq<DrawSurface>, fileName: string, env: Env)
    returns (ctx': Renderer, done': seq<RenderSurface>)
    requires |rest| > 0
    requires Registering(origin, ctx, done, visited, fileName, env.decode)
    requires Admissible(|ctx.textures.objects|, Names(rest), env.decode)
    ensures Registering(origin, ctx', done', visited + [rest[0]], fileName, env.decode)
    ensures Admissible(|ctx'.textures.objects|, Names(rest[1..]), env.decode)
    ensures |done'| == |done| + 1 && done'[..|done|] == done
    ensures ctx'.models == ctx.models
  {
    AdmissibleNext(|ctx.textures.objects|, rest, env.decode);
    var surface;
    ctx', surface := LoadSurface(ctx, rest[0], fileName, env);
    AdmissibleRest(|ctx.textures.objects|, |ctx'.textures.objects|, rest, env.decode);
    done' := done + [surface];
    RegisteringSnoc(origin, ctx, done, visited, ctx', surface, rest[0], fileName, env.decode);
  }

  lemma AdmissibleNext(n: nat, rest: seq<DrawSurface>, decode: string -> Option<Image>)
    requires |rest| > 0
    requires Admissible(n, Names(rest), decode)
    ensures Room(n, rest[0].materialName, decode)
    ensures Admissible(n + Slots(rest[0].materialName, decode), Names(rest[1..]), decode)
  {
    assert Names(rest)[1..] == Names(rest[1..]);
  }

  lemma {:induction false} AdmissibleRest(n: nat, m: nat, rest: seq<DrawSurface>, decode: string -> Option<Image>)
    requires |rest| > 0
    requires Admissible(n, Names(rest), decode)
    requires m == n + Slots(rest[0].materialName, decode)
    ensures Admissible(m, Names(rest[1..]), decode)
  {
    AdmissibleNext(n, rest, decode);
  }

  lemma {:induction false} RegisteringSnoc(origin: Renderer, ctx: Renderer, done: seq<RenderSurface>, visited: seq<DrawSurface>,
                        ctx': Renderer, surface: RenderSurface, s: DrawSurface,
                        fileName: string, decode: string -> Option<Image>)
    requires Registering(origin, ctx, done, visited, fileName, decode)
    requires ctx'.models == ctx.models && Lockstep(ctx'.textures)
    requires Grows(ctx.textures.objects, ctx'.textures.objects) && Grows(ctx.textures.datas, ctx'.textures.datas)
    requires |ctx'.textures.objects| == |ctx.textures.objects| + Slots(s.materialName, decode)
    requires Registered(surface, s, fileName, |ctx.textures.objects|, ctx'.textures, decode)
    requires Valid(ctx) ==> Valid(ctx') && Extends(ctx.device, ctx'.device) && SurfaceLive(ctx'.device, ctx'.textures.objects, surface)
    ensures Registering(origin, ctx', done + [surface], visited + [s], fileName, decode)
  {
    var done' := done + [surface];
    GrowsTrans(origin.textures.objects, ctx.textures.objects, ctx'.textures.objects);
    GrowsTrans(origin.textures.datas, ctx.textures.datas, ctx'.textures.datas);
    TakenSnoc(visited, s, decode);
    CountedSnoc(done, visited, surface, s, fileName, |origin.textures.objects|, ctx.textures, ctx'.textures, decode);
    if Valid(origin) {
      forall x | x in done'
        ensures SurfaceLive(ctx'.device, ctx'.textures.objects, x)
      {
        if x in done {
          SurfaceLiveMono(ctx.device, ctx'.device, ctx.textures.objects, ctx'.textures.objects, x);
        }
      }
      ExtendsTrans(origin.device, ctx.device, ctx'.device);
    }
  }

  lemma {:induction false} TakenSnoc(ss: seq<DrawSurface>, s: DrawSurface, decode: string -> Option<Image>)
    ensures Taken(ss + [s], decode) == Taken(ss, decode) + Slots(s.materialName, decode)
  {
    assert (ss + [s])[..|ss|] == ss;
  }

  /** Registering one more surface, in the slot after those the earlier
      ones took, extends the one-to-one match as the registry grows. */
  lemma {:induction false} CountedSnoc(done: seq<RenderSurface>, visited: seq<DrawSurface>, surface: RenderSurface, s: DrawSurface,
                    fileName: string, n: nat, reg: Registry, reg': Registry, decode: string -> Option<Image>)
    requires Counted(done, visited, fileName, n, reg, decode)
    requires Grows(reg.objects, reg'.objects) && Grows(reg.datas, reg'.datas)
    requires Registered(surface, s, fileName, n + Taken(visited, decode), reg', decode)
    ensures Counted(done + [surface], visited + [s], fileName, n, reg', decode)
  {
    var done' := done + [surface];
    var visited' := visited + [s];
    OffsetsSnoc(visited, s, decode);
    var offsets := Offsets(visited', decode);
    forall k | 0 <= k < |visited'|
      ensures Registered(done'[k], visited'[k], fileName, n + offsets[k], reg', decode)
    {
      if k < |visited| {
        assert done'[k] == done[k] && visited'[k] == visited[k] && offsets[k] == Offsets(visited, decode)[k];
        RegisteredMono(done[k], visited[k], fileName, n + Offsets(visited, decode)[k], reg, reg', decode);
      } else {
        assert done'[k] == surface && visited'[k] == s && offsets[k] == Taken(visited, decode);
      }
    }
  }

  lemma SliceStep<T>(ss: seq<T>, i: nat)
    requires i < |ss|
    ensures ss[..i] + [ss[i..][0]] == ss[..i + 1] && ss[i..][1..] == ss[i + 1..]
  {
    assert ss[..i] + [ss[i..][0]] == ss[..i + 1];
  }

  /** The loader's loop over the flattened surfaces: registers each in
      order. */
  method LoadSurfaces(ctx: Renderer, ss: seq<DrawSurface>, fileName: string, env: Env)
    returns (ctx': Renderer, surfaces: seq<RenderSurface>)
    requires Lockstep(ctx.textures)
    requires Admissible(|ctx.textures.objects|, Names(ss), env.decode)
    ensures Registering(ctx, ctx', surfaces, ss, fileName, env.decode)
  {
    ctx' := ctx;
    surfaces := [];
    var i := 0;
    while i < |ss|
      invariant 0 <= i <= |ss|
      invariant Registering(ctx, ctx', surfaces, ss[..i], fileName, env.decode)
      invariant Admissible(|ctx'.textures.objects|, Names(ss[i..]), env.decode)
    {
      ctx', surfaces := RegisterNext(ctx, ctx', surfaces, ss[..i], ss[i..], fileName, env);
      SliceStep(ss, i);
      i := i + 1;
    }
    assert ss[..i] == ss;
  }

  /** `LoadRenderModelFromGltf`. A file the glTF library cannot load gives
      -1 and leaves everything as it was. Otherwise exactly one model,
      named after the file, is appended, with one surface per primitive of
      the first mesh, and the index of the new model is returned. Each
      surface is `Registered` against its flattened surface: its counts,
      its buffers' byte sizes and debug names, and its texture index, which
      is the next free registry slot when its material is found (the slot
      then holds that image) and 0 otherwise. Starting from a valid
      renderer state, the state stays valid. */
  method LoadRenderModelFromGltf(ctx: Renderer, fileName: string, parsed: Option<Document>, env: Env)
    returns (ctx': Renderer, index: int32)
    requires Lockstep(ctx.textures)
    requires parsed.Some? ==> DocumentReadable(parsed.value)
    requires parsed.Some? ==> Admissible(|ctx.textures.objects|, MaterialNames(parsed.value), env.decode)
    ensures parsed.None? ==> index == -1 && ctx' == ctx
    ensures parsed.Some? ==>
              && |ctx'.models| == |ctx.models| + 1
              && ctx'.models[..|ctx.models|] == ctx.models
              && index == ToInt32(|ctx.models|)
              && ctx'.models[|ctx.models|].name == fileName
              && Counted(ctx'.models[|ctx.models|].surfaces, Flatten(parsed.value).surfaces, fileName,
                         |ctx.textures.objects|, ctx'.textures, env.decode)
              && |ctx'.textures.objects| == |ctx.textures.objects| + Taken(Flatten(parsed.value).surfaces, env.decode)
    ensures parsed.Some? ==> Grows(ctx.textures.objects, ctx'.textures.objects) && Grows(ctx.textures.datas, ctx'.textures.datas)
    ensures Lockstep(ctx'.textures)
    ensures Valid(ctx) ==> Valid(ctx')
  {
    if parsed.None? {
      return ctx, -1;
    }
    var loaded, surfaces := LoadSurfaces(ctx, Flatten(parsed.value).surfaces, fileName, env);
    var model := RenderModel(fileName, surfaces);
    var models' := ctx.models + [model];
    assert models'[..|ctx.models|] == ctx.models;
    if Valid(ctx) {
      assert forall m, s :: m in models' && s in m.surfaces ==> m in ctx.models || m == model;
    }
    ctx' := Renderer(loaded.textures, models', loaded.device);
    index := ToInt32(|models'| - 1);
  }
}
