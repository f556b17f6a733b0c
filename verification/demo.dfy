/** The demo program around the renderer: the fixed screen-quad and
    pentagon geometry, the vertex input layouts, the older single-primitive
    model loader still used by the demo, the order of commands in one
    rendered frame, and the process exit code. */
module Demo {
  import opened Types
  import opened Gpu
  import opened Gltf
  import opened Indices
  import opened Model
  import opened DeviceManager

  // ---------------------------------------------------------------------
  // Fixed geometry

  /** Floats per screen-quad vertex: a 2D position and 2D texture
      coordinates. */
  const FloatsPerScreenVertex: nat := 4

  /** `ScreenQuad::Vertices`: four corners, position then texcoord. */
  const ScreenQuadVertices: seq<real> := [
    -1.0, -1.0, 0.0, 1.0,
    1.0, -1.0, 1.0, 1.0,
    1.0, 1.0, 1.0, 0.0,
    -1.0, 1.0, 0.0, 0.0
  ]

  /** `ScreenQuad::Indices`: two triangles covering the quad. */
  const ScreenQuadIndices: seq<uint32> := [0, 1, 2, 2, 3, 0]

  /** `Pentagon::Vertices`, with the decimal literals as exact rationals. */
  const PentagonVertices: seq<DrawVertex> := [
    DrawVertex(Float3(0.0, 0.5, 0.0), Float3(0.0, 0.0, 1.0), Float2(0.0, 0.5), Float4(1.0, 0.0, 0.0, 1.0)),
    DrawVertex(Float3(0.5, 0.2, 0.0), Float3(0.0, 0.0, 1.0), Float2(0.5, 0.2), Float4(0.0, 1.0, 0.0, 1.0)),
    DrawVertex(Float3(0.3, -0.4, 0.0), Float3(0.0, 0.0, 1.0), Float2(0.3, -0.4), Float4(0.0, 0.0, 1.0, 1.0)),
    DrawVertex(Float3(-0.3, -0.4, 0.0), Float3(0.0, 0.0, 1.0), Float2(-0.3, -0.4), Float4(1.0, 0.0, 1.0, 1.0)),
    DrawVertex(Float3(-0.5, 0.2, 0.0), Float3(0.0, 0.0, 1.0), Float2(-0.5, 0.2), Float4(1.0, 0.6, 0.0, 1.0))
  ]

  /** `Pentagon::Indices`: a fan of three triangles. */
  const PentagonIndices: seq<uint32> := [0, 1, 2, 0, 2, 3, 0, 3, 4]

  /** An index list describing whole triangles over `vertexCount` vertices. */
  predicate TriangleList(indices: seq<uint32>, vertexCount: nat)
  {
    |indices| % 3 == 0 && forall i :: 0 <= i < |indices| ==> indices[i] < vertexCount
  }

  /** The screen quad's vertex array holds whole vertices, four of them, and
      its indices form triangles over those four. */
  lemma ScreenQuadWellFormed()
    ensures |ScreenQuadVertices| % FloatsPerScreenVertex == 0
    ensures |ScreenQuadVertices| / FloatsPerScreenVertex == 4
    ensures TriangleList(ScreenQuadIndices, |ScreenQuadVertices| / FloatsPerScreenVertex)
  {
  }

  /** The pentagon's indices form triangles over its five vertices: a fan
      where triangle `k` is (0, k + 1, k + 2). */
  lemma PentagonWellFormed()
    ensures TriangleList(PentagonIndices, |PentagonVertices|)
    ensures |PentagonVertices| == 5
    ensures forall k :: 0 <= k < |PentagonIndices| / 3 ==>
              PentagonIndices[3 * k] == 0 && PentagonIndices[3 * k + 1] == k + 1 && PentagonIndices[3 * k + 2] == k + 2
  {
    assert |PentagonIndices| / 3 == 3;
    forall k | 0 <= k < 3
      ensures PentagonIndices[3 * k] == 0 && PentagonIndices[3 * k + 1] == k + 1 && PentagonIndices[3 * k + 2] == k + 2
    {
      if k == 0 {
      } else if k == 1 {
      } else {
      }
    }
  }

  // ---------------------------------------------------------------------
  // Vertex input layouts

  datatype VertexAttribute = VertexAttribute(name: string, format: Format, offset: nat, elementStride: nat)

  /** Bytes one element of a vertex-attribute format occupies. */
  function FormatBytes(f: Format): nat
  {
    match f
    case RG32_FLOAT => 8
    case RGB32_FLOAT => 12
    case RGBA32_FLOAT => 16
    case _ => 0
  }

  const SizeOfFloat: nat := 4

  /** The screen-quad layout: position at 0 and texcoord after two floats,
      both with a stride of four floats. */
  const ScreenAttributes: seq<VertexAttribute> := [
    VertexAttribute("POSITION", RG32_FLOAT, 0, 4 * SizeOfFloat),
    VertexAttribute("TEXCOORD", RG32_FLOAT, 2 * SizeOfFloat, 4 * SizeOfFloat)
  ]

  /** The scene layout over `DrawVertex`: each attribute after the ones
      before it, all with the vertex size as stride. */
  const SceneAttributes: seq<VertexAttribute> := [
    VertexAttribute("POSITION", RGB32_FLOAT, 0, SizeOfDrawVertex),
    VertexAttribute("NORMAL", RGB32_FLOAT, 3 * SizeOfFloat, SizeOfDrawVertex),
    VertexAttribute("TEXCOORD", RG32_FLOAT, 3 * SizeOfFloat + 3 * SizeOfFloat, SizeOfDrawVertex),
    VertexAttribute("COLOR", RGBA32_FLOAT, 3 * SizeOfFloat + 3 * SizeOfFloat + 2 * SizeOfFloat, SizeOfDrawVertex)
  ]

  /** Every attribute lies within its vertex's stride, all share the one
      stride, and no two attributes overlap. */
  predicate LayoutFits(attrs: seq<VertexAttribute>, stride: nat)
  {
    && (forall i :: 0 <= i < |attrs| ==>
          attrs[i].elementStride == stride && attrs[i].offset + FormatBytes(attrs[i].format) <= stride)
    && (forall i, j :: 0 <= i < j < |attrs| ==>
          attrs[i].offset + FormatBytes(attrs[i].format) <= attrs[j].offset)
  }

  /** The scene layout: offsets 0, 12, 24 and 32 in a 48-byte stride, no
      overlap, and the attributes tile the whole vertex. */
  lemma SceneLayoutFits()
    ensures SizeOfDrawVertex == 48
    ensures LayoutFits(SceneAttributes, SizeOfDrawVertex)
    ensures SceneAttributes[0].offset == 0 && SceneAttributes[1].offset == 12
    ensures SceneAttributes[2].offset == 24 && SceneAttributes[3].offset == 32
    ensures SceneAttributes[3].offset + FormatBytes(SceneAttributes[3].format) == SizeOfDrawVertex
    ensures forall i :: 0 < i < |SceneAttributes| ==>
              SceneAttributes[i].offset == SceneAttributes[i - 1].offset + FormatBytes(SceneAttributes[i - 1].format)
  {
    var a := SceneAttributes;
    assert |a| == 4;
    assert a[0].offset == 0 && FormatBytes(a[0].format) == 12 && a[0].elementStride == 48;
    assert a[1].offset == 12 && FormatBytes(a[1].format) == 12 && a[1].elementStride == 48;
    assert a[2].offset == 24 && FormatBytes(a[2].format) == 8 && a[2].elementStride == 48;
    assert a[3].offset == 32 && FormatBytes(a[3].format) == 16 && a[3].elementStride == 48;
  }

  /** The screen layout: offsets 0 and 8 in a 16-byte stride, which is the
      four floats per vertex of the quad's vertex array. */
  lemma ScreenLayoutFits()
    ensures LayoutFits(ScreenAttributes, FloatsPerScreenVertex * SizeOfFloat)
    ensures ScreenAttributes[0].offset == 0 && ScreenAttributes[1].offset == 8
    ensures ScreenAttributes[1].offset + FormatBytes(ScreenAttributes[1].format) == FloatsPerScreenVertex * SizeOfFloat
  {
  }

  // ---------------------------------------------------------------------
  // The older single-primitive loader

  /** The older draw surface: a texture handle (always 0 here) and indices. */
  datatype LegacySurface = LegacySurface(textureHandle: uint32, vertexIndices: seq<uint32>)

  /** The older mesh: one vertex array shared by all its surfaces. */
  datatype LegacyMesh = LegacyMesh(vertexData: seq<DrawVertex>, surfaces: seq<LegacySurface>)

  const EmptyLegacyMesh: LegacyMesh := LegacyMesh([], [])

  /** What the older loader reads without checking: the first primitive of
      the first mesh, POSITION, the element count of every present
      attribute and of the indices, and NORMAL, TEXCOORD_0 and COLOR_0
      data for every vertex (COLOR_0 is read unconditionally). */
  predicate LegacyReadable(doc: Document)
  {
    && |doc.meshes| > 0 && |doc.meshes[0].primitives| > 0
    && var p := doc.meshes[0].primitives[0];
    && p.position.Some?
    && Sized(p.position) && Sized(p.normal) && Sized(p.texcoord) && Sized(p.colour)
    && CalculateDataTypeSize(p.indices) != 0
    && Covers(p.position, VertexCount(p)) && Covers(p.normal, VertexCount(p))
    && Covers(p.texcoord, VertexCount(p)) && Covers(p.colour, VertexCount(p))
    && (SupportedStride(CalculateDataTypeSize(p.indices)) ==>
          IndexCount(p) * CalculateDataTypeSize(p.indices) <= |p.indexData|)
  }

  function Scale2(v: Float2, k: real): Float2
  {
    Float2(v.x * k, v.y * k)
  }

  /** The older `GltfModel::Init`: appends the first primitive's vertices
      to the mesh's vertex array, with texture coordinates scaled by 4 and
      the 16-bit colours scaled into [0, 1), and appends one surface with
      texture handle 0 and the widened indices. */
  function LegacyInit(mesh: LegacyMesh, doc: Document): (r: LegacyMesh)
    requires LegacyReadable(doc)
    ensures var p := doc.meshes[0].primitives[0];
            && |r.vertexData| == |mesh.vertexData| + VertexCount(p)
            && r.vertexData[..|mesh.vertexData|] == mesh.vertexData
            && (forall i :: 0 <= i < VertexCount(p) ==>
                  var v := r.vertexData[|mesh.vertexData| + i];
                  && v.position == p.position.value.elements[i]
                  && v.normal == p.normal.value.elements[i]
                  && v.texcoord == Scale2(p.texcoord.value.elements[i], 4.0)
                  && v.colour == DecodeColour(p.colour.value.elements[i]))
            && r.surfaces == mesh.surfaces + [LegacySurface(0, Widen(p.indexData, CalculateDataTypeSize(p.indices), IndexCount(p)))]
  {
    var p := doc.meshes[0].primitives[0];
    var n := VertexCount(p);
    var added := seq(n, i requires 0 <= i < n =>
      DrawVertex(p.position.value.elements[i], p.normal.value.elements[i],
                 Scale2(p.texcoord.value.elements[i], 4.0), DecodeColour(p.colour.value.elements[i])));
    var surface := LegacySurface(0, Widen(p.indexData, CalculateDataTypeSize(p.indices), IndexCount(p)));
    LegacyMesh(mesh.vertexData + added, mesh.surfaces + [surface])
  }

  /** The older loader and the current one agree on a document whose first
      primitive carries COLOR_0: same positions, normals, colours and
      indices; the older one scales texture coordinates by 4 and ignores
      every primitive after the first and the material. */
  lemma LegacyAgreesWithFlatten(doc: Document)
    requires LegacyReadable(doc) && DocumentReadable(doc)
    requires doc.meshes[0].primitives[0].colour.Some?
    ensures var legacy := LegacyInit(EmptyLegacyMesh, doc);
            var current := Flatten(doc).surfaces[0];
            && |legacy.surfaces| == 1
            && legacy.surfaces[0].vertexIndices == current.vertexIndices
            && |legacy.vertexData| == |current.vertexData|
            && forall i :: 0 <= i < |legacy.vertexData| ==>
                 && legacy.vertexData[i].position == current.vertexData[i].position
                 && legacy.vertexData[i].normal == current.vertexData[i].normal
                 && legacy.vertexData[i].colour == current.vertexData[i].colour
                 && legacy.vertexData[i].texcoord == Scale2(current.vertexData[i].texcoord, 4.0)
  {
    var legacy := LegacyInit(EmptyLegacyMesh, doc);
    var current := Flatten(doc).surfaces[0];
    assert legacy.vertexData == legacy.vertexData[0..];
    forall i | 0 <= i < |legacy.vertexData|
      ensures legacy.vertexData[i].position == current.vertexData[i].position
    {
      assert legacy.vertexData[0 + i] == legacy.vertexData[i];
    }
  }

  // ---------------------------------------------------------------------
  // One frame

  datatype Pipeline = ScenePipeline | ScreenPipeline

  /** Render targets: the offscreen scene framebuffer, or the swap chain's
      current framebuffer as the device manager returned it (possibly
      null). */
  datatype Target = MainFramebuffer | BackBuffer(framebuffer: Option<Framebuffer>)

  datatype FrameCommand =
    | BeginFrame
    | OpenList
    | ClearColour(target: Target, colour: Float4)
    | ClearDepth(depth: real)
    | WriteConstants
    | SetGraphicsState(pipeline: Pipeline, target: Target)
    | DrawIndexed(vertexCount: nat)
    | CloseList
    | ExecuteList
    | Present
    | CollectGarbage

  /** Commands that go into the command list, as opposed to the frame's
      bracket around it. */
  predicate Recorded(c: FrameCommand)
  {
    c.ClearColour? || c.ClearDepth? || c.WriteConstants? || c.SetGraphicsState? || c.DrawIndexed?
  }

  const SceneClearColour: Float4 := Float4(0.01, 0.05, 0.05, 1.0)
  const Black: Float4 := Float4(0.0, 0.0, 0.0, 1.0)

  /** The scene is drawn with a greater-or-equal depth test, so the depth
      buffer is cleared to 0, the farthest value under that test. */
  const SceneDepthClear: real := 0.0

  /** `RenderSceneIntoFramebuffer`: clears the offscreen colour and depth,
      uploads the constants, binds the scene pipeline and draws the first
      surface's indices. */
  function ScenePass(mesh: LegacyMesh): (t: seq<FrameCommand>)
    requires |mesh.surfaces| > 0
    ensures |t| == 5 && forall k :: 0 <= k < |t| ==> Recorded(t[k])
    ensures t[0] == ClearColour(MainFramebuffer, SceneClearColour) && t[1] == ClearDepth(SceneDepthClear)
    ensures t[|t| - 1] == DrawIndexed(|mesh.surfaces[0].vertexIndices|)
    ensures forall k :: 0 <= k < |t| && (t[k].WriteConstants? || t[k].DrawIndexed?) ==> k >= 2
  {
    [ClearColour(MainFramebuffer, SceneClearColour), ClearDepth(SceneDepthClear), WriteConstants,
     SetGraphicsState(ScenePipeline, MainFramebuffer), DrawIndexed(|mesh.surfaces[0].vertexIndices|)]
  }

  /** `RenderScreenQuad`: clears the current back buffer to black, binds the
      screen pipeline on it and draws the quad's six indices. */
  function ScreenPass(fb: Option<Framebuffer>): (t: seq<FrameCommand>)
    ensures |t| == 3 && forall k :: 0 <= k < |t| ==> Recorded(t[k])
    ensures t[0] == ClearColour(BackBuffer(fb), Black)
    ensures t[1] == SetGraphicsState(ScreenPipeline, BackBuffer(fb))
    ensures t[2] == DrawIndexed(|ScreenQuadIndices|) && |ScreenQuadIndices| == 6
  {
    [ClearColour(BackBuffer(fb), Black), SetGraphicsState(ScreenPipeline, BackBuffer(fb)),
     DrawIndexed(|ScreenQuadIndices|)]
  }

  /** The draw counts of a command sequence, in order. */
  function Draws(t: seq<FrameCommand>): (r: seq<nat>)
    ensures |r| <= |t|
  {
    if |t| == 0 then []
    else (if t[0].DrawIndexed? then [t[0].vertexCount] else []) + Draws(t[1..])
  }

  lemma {:induction false} DrawsAppend(a: seq<FrameCommand>, b: seq<FrameCommand>)
    ensures Draws(a + b) == Draws(a) + Draws(b)
    decreases |a|
  {
    if |a| == 0 {
      assert a + b == b;
    } else {
      var ab := a + b;
      assert ab[0] == a[0];
      assert ab[1..] == a[1..] + b;
      DrawsAppend(a[1..], b);
      calc {
        Draws(ab);
        (if a[0].DrawIndexed? then [a[0].vertexCount] else []) + Draws(a[1..] + b);
        (if a[0].DrawIndexed? then [a[0].vertexCount] else []) + (Draws(a[1..]) + Draws(b));
        Draws(a) + Draws(b);
      }
    }
  }

  lemma {:induction false} DrawsOfDrawFree(t: seq<FrameCommand>)
    requires forall k :: 0 <= k < |t| ==> !t[k].DrawIndexed?
    ensures Draws(t) == []
    decreases |t|
  {
    if |t| > 0 {
      DrawsOfDrawFree(t[1..]);
    }
  }

  /** `Render`: one frame. */
  function Render(mesh: LegacyMesh, m: Manager, currentBackBuffer: uint32): seq<FrameCommand>
    requires |mesh.surfaces| > 0
  {
    [BeginFrame, OpenList] + ScenePass(mesh) + ScreenPass(GetCurrentFramebuffer(m, currentBackBuffer))
      + [CloseList, ExecuteList, Present, CollectGarbage]
  }

  /** A frame waits for the previous one, opens the command list, records
      only drawing commands until it closes the list, then executes it,
      presents and collects garbage. It draws exactly twice: the scene's
      first surface and then the screen quad, on the current back buffer.
      The scene's colour and depth clears come before its constants upload
      and its draw. */
  lemma {:induction false} RenderProtocol(mesh: LegacyMesh, m: Manager, currentBackBuffer: uint32)
    requires |mesh.surfaces| > 0
    ensures var t := Render(mesh, m, currentBackBuffer);
            && t[0] == BeginFrame && t[1] == OpenList
            && t[|t| - 4..] == [CloseList, ExecuteList, Present, CollectGarbage]
            && (forall k :: 2 <= k < |t| - 4 ==> Recorded(t[k]))
            && Draws(t) == [|mesh.surfaces[0].vertexIndices|, |ScreenQuadIndices|]
            && t[2] == ClearColour(MainFramebuffer, SceneClearColour) && t[3] == ClearDepth(SceneDepthClear)
            && (forall k :: 0 <= k < |t| && (t[k].WriteConstants? || t[k].DrawIndexed?) ==> k >= 4)
            && SetGraphicsState(ScreenPipeline, BackBuffer(GetCurrentFramebuffer(m, currentBackBuffer))) in t
  {
    var scene := ScenePass(mesh);
    var screen := ScreenPass(GetCurrentFramebuffer(m, currentBackBuffer));
    var head: seq<FrameCommand> := [BeginFrame, OpenList];
    var tail: seq<FrameCommand> := [CloseList, ExecuteList, Present, CollectGarbage];
    var t := Render(mesh, m, currentBackBuffer);
    assert t == head + scene + screen + tail;
    DrawsAppend(head + scene + screen, tail);
    DrawsAppend(head + scene, screen);
    DrawsAppend(head, scene);
    DrawsOfDrawFree(scene[..4]);
    DrawsAppend(scene[..4], [scene[4]]);
    assert scene == scene[..4] + [scene[4]];
    DrawsOfDrawFree(screen[..2]);
    DrawsAppend(screen[..2], [screen[2]]);
    assert screen == screen[..2] + [screen[2]];
    DrawsOfDrawFree(head);
    assert t[2 + 5 + 1] == screen[1];
  }

  // ---------------------------------------------------------------------
  // Start-up and shut-down

  /** How far `Renderer::Init` got before it returned. `CreateFailed`:
      `DeviceManager::Create` gave null. `DeviceFailed`: the manager
      exists but device and swap-chain creation failed. `LaterFailed`: the
      device was obtained and a later step (shaders, pipelines, buffers,
      the model) failed. `Initialised`: every step succeeded. The manager
      is the one shutdown finds. */
  datatype InitStage =
    | CreateFailed
    | DeviceFailed(manager: Manager)
    | LaterFailed(manager: Manager)
    | Initialised(manager: Manager)

  /** The renderer's two globals when shutdown begins: the device manager
      pointer, and whether the `Device` pointer was assigned. Both are
      namespace-scope pointers, so they are null until assigned, and
      `Device` is assigned only once the swap chain exists. */
  datatype Globals = Globals(deviceManager: Option<Manager>, deviceAssigned: bool)

  function GlobalsAt(stage: InitStage): Globals
  {
    match stage
    case CreateFailed => Globals(None, false)
    case DeviceFailed(m) => Globals(Some(m), false)
    case LaterFailed(m) => Globals(Some(m), true)
    case Initialised(m) => Globals(Some(m), true)
  }

  /** `Renderer::Shutdown` with the wait for the device guarded by a null
      check: the device manager, when there is one, is shut down, with its
      framebuffers released and one destroy event recorded. */
  function RendererShutdown(g: Globals): (r: Option<Manager>)
    ensures r.Some? <==> g.deviceManager.Some?
    ensures r.Some? ==> r.value.framebuffers == [] && r.value.api == g.deviceManager.value.api
    ensures r.Some? ==> |r.value.events| == |g.deviceManager.value.events| + 1
    ensures r.Some? ==> r.value.events[|r.value.events| - 1] == DestroyDeviceAndSwapChain
  {
    match g.deviceManager
    case None => None
    case Some(mgr) => Some(Shutdown(mgr))
  }

  /** What a shutdown step leads to: a crash on a null `Device`, or
      carrying on with the device manager in the given state. */
  datatype Outcome = NullDeviceDereference | Continued(manager: Option<Manager>)

  /** `Renderer::Shutdown` as written: `Device->waitForIdle()` comes before
      any check, so a null `Device` is dereferenced; with a device it goes
      on like the guarded version. */
  function RendererShutdownAsWritten(g: Globals): (r: Outcome)
    ensures r.NullDeviceDereference? <==> !g.deviceAssigned
    ensures r.Continued? ==> r.manager == RendererShutdown(g)
  {
    if !g.deviceAssigned then NullDeviceDereference else Continued(RendererShutdown(g))
  }

  /** `System::Shutdown`'s exit code and printed line: 0 with no reason, 1
      with one. */
  function SystemShutdown(reason: Option<string>): (r: (int32, string))
    ensures r.0 == 0 <==> reason.None?
    ensures reason.Some? ==> r.0 == 1 && r.1 == "Shutting down, reason: " + reason.value
    ensures reason.None? ==> r.1 == "Shutting down, no issues"
  {
    match reason
    case None => (0, "Shutting down, no issues")
    case Some(why) => (1, "Shutting down, reason: " + why)
  }

  /** The printed line tells the two exits apart and gives the reason back. */
  lemma {:induction false} SystemShutdownInjective(a: Option<string>, b: Option<string>)
    ensures SystemShutdown(a) == SystemShutdown(b) ==> a == b
  {
    var p := "Shutting down, reason: ";
    if SystemShutdown(a) == SystemShutdown(b) && a.Some? && b.Some? {
      assert (p + a.value)[|p|..] == a.value;
      assert (p + b.value)[|p|..] == b.value;
    }
  }

  /** How the process ends: a crash, or an exit code with the line
      `System::Shutdown` printed. */
  datatype Exit = Crashed | Exited(code: int32, line: string)

  /** The reason `main` passes to `System::Shutdown`: none after the frame
      loop, "Couldn't initialise" after a failed start. */
  function ExitReason(stage: InitStage): Option<string>
  {
    if stage.Initialised? then None else Some("Couldn't initialise")
  }

  /** `main` as written, from the point `Renderer::Init` returns: the
      shutdown crashes whenever `Device` was never assigned. */
  function MainAsWritten(stage: InitStage): (e: Exit)
  {
    match RendererShutdownAsWritten(GlobalsAt(stage))
    case NullDeviceDereference => Crashed
    case Continued(_) =>
      var (code, line) := SystemShutdown(ExitReason(stage));
      Exited(code, line)
  }

  /** A failure before the device exists ends in the null dereference
      instead of exit code 1: both a null device manager and a failed
      swap-chain creation crash, and only those do. */
  lemma EarlyFailureCrashes(stage: InitStage)
    ensures MainAsWritten(stage).Crashed? <==> stage.CreateFailed? || stage.DeviceFailed?
    ensures MainAsWritten(CreateFailed) == Crashed
  {
  }

  /** `main` with the guarded `Renderer::Shutdown`. */
  function MainExit(stage: InitStage): (e: Exit)
  {
    var _ := RendererShutdown(GlobalsAt(stage));
    var (code, line) := SystemShutdown(ExitReason(stage));
    Exited(code, line)
  }

  /** With the guard, `main` always exits: 0 with "no issues" exactly
      after a successful start, 1 with the reason printed after any
      failed one. */
  lemma MainExitCodes(stage: InitStage)
    ensures MainExit(stage).Exited?
    ensures MainExit(stage).code == 0 <==> stage.Initialised?
    ensures MainExit(stage).code == 1 <==> !stage.Initialised?
    ensures !stage.Initialised? ==> MainExit(stage).line == "Shutting down, reason: Couldn't initialise"
    ensures stage.Initialised? ==> MainExit(stage).line == "Shutting down, no issues"
  {
  }

  /** The guard changes nothing once the device exists: as written and
      guarded agree exactly when `Device` was assigned, that is from
      `LaterFailed` on. */
  lemma GuardOnlyAffectsEarlyFailures(stage: InitStage)
    ensures MainAsWritten(stage) == MainExit(stage) <==> GlobalsAt(stage).deviceAssigned
    ensures GlobalsAt(stage).deviceAssigned <==> stage.LaterFailed? || stage.Initialised?
  {
  }
}
