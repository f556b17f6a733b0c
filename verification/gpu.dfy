/** The part of the GPU abstraction layer (nvrhi) that the demo's upload
    code talks to, modelled as an append-only trace of commands. A replay
    of the trace (`Run`) enforces the resource-state discipline the upload
    code relies on: commands are recorded only between open and close, a
    resource is written only while its tracked state is a transient upload
    state, and a permanent state is set once and never revisited. */
module Gpu {
  import opened Types

  type Handle = nat

  datatype ResourceState = Common | CopyDest | VertexBuffer | IndexBuffer | ShaderResource

  /** The pixel formats the demo names (a subset of nvrhi's list). */
  datatype Format =
    | UNKNOWN | R8_UINT | R8_UNORM | RG8_UINT | RG8_UNORM | R16_UINT | R16_UNORM | R16_FLOAT
    | RGBA8_UNORM | RGBA8_SNORM | BGRA8_UNORM | SRGBA8_UNORM | SBGRA8_UNORM
    | R10G10B10A2_UNORM | R11G11B10_FLOAT | RG16_UINT | RG16_FLOAT | R32_UINT | R32_FLOAT
    | RGBA16_FLOAT | RGBA16_UNORM | RGBA16_SNORM | RG32_UINT | RG32_FLOAT
    | RGB32_UINT | RGB32_FLOAT | RGBA32_UINT | RGBA32_FLOAT

  datatype BufferDesc = BufferDesc(
    byteSize: nat,
    debugName: string,
    isVertexBuffer: bool,
    isIndexBuffer: bool,
    initialState: ResourceState)

  datatype TextureDesc = TextureDesc(width: uint16, height: uint16, format: Format, debugName: string)

  datatype Command =
    | CreateBuffer(handle: Handle, buffer: BufferDesc)
    | CreateTexture(handle: Handle, desc: TextureDesc)
    | CreateBindingSet(handle: Handle, texture: Handle)
    | Open
    | Close
    | Execute
    | BeginTracking(handle: Handle, state: ResourceState)
    | WriteBuffer(handle: Handle, byteSize: nat)
    | WriteTexture(handle: Handle, rowPitch: nat)
    | SetPermanent(handle: Handle, state: ResourceState)

  datatype Tracking = Tracked(state: ResourceState) | Permanent(state: ResourceState)

  /** What the replay knows after a prefix of the trace: whether the command
      list is open, which handles exist and how each tracked one is tracked. */
  datatype Recorder = Recorder(open: bool, created: set<Handle>, states: map<Handle, Tracking>)

  const Idle: Recorder := Recorder(false, {}, map[])

  /** One command, or `None` when the command breaks the discipline. */
  function Step(r: Recorder, c: Command): Option<Recorder>
  {
    match c
    case CreateBuffer(h, _) =>
      if h in r.created then None else Some(r.(created := r.created + {h}))
    case CreateTexture(h, _) =>
      if h in r.created then None else Some(r.(created := r.created + {h}))
    case CreateBindingSet(h, t) =>
      if h in r.created || t !in r.states || r.states[t] != Permanent(ShaderResource) then None
      else Some(r.(created := r.created + {h}))
    case Open =>
      if r.open then None else Some(r.(open := true))
    case Close =>
      if !r.open then None else Some(r.(open := false))
    case Execute =>
      if r.open then None else Some(r)
    case BeginTracking(h, s) =>
      if !r.open || h !in r.created || h in r.states then None
      else Some(r.(states := r.states[h := Tracked(s)]))
    case WriteBuffer(h, _) =>
      if r.open && h in r.states && r.states[h] == Tracked(CopyDest) then Some(r) else None
    case WriteTexture(h, _) =>
      // the tracker inserts the barrier into the copy-destination state
      if r.open && h in r.states && r.states[h].Tracked? then Some(r.(states := r.states[h := Tracked(CopyDest)]))
      else None
    case SetPermanent(h, s) =>
      if r.open && h in r.states && r.states[h].Tracked? then Some(r.(states := r.states[h := Permanent(s)]))
      else None
  }

  function Run(r: Recorder, cmds: seq<Command>): Option<Recorder>
    decreases |cmds|
  {
    if |cmds| == 0 then Some(r)
    else match Step(r, cmds[0])
      case None => None
      case Some(r') => Run(r', cmds[1..])
  }

  /** Replaying a concatenation is replaying the parts one after the other. */
  lemma {:induction false} RunAppend(r: Recorder, a: seq<Command>, b: seq<Command>)
    ensures Run(r, a + b) == match Run(r, a) case None => None case Some(r') => Run(r', b)
    decreases |a|
  {
    if |a| == 0 {
      assert a + b == b;
    } else {
      assert (a + b)[0] == a[0];
      assert (a + b)[1..] == a[1..] + b;
      match Step(r, a[0])
      case None =>
      case Some(r') => RunAppend(r', a[1..], b);
    }
  }

  /** The device: the trace of everything recorded so far and the next
      unused handle. */
  datatype Device = Device(trace: seq<Command>, next: Handle)

  const FreshDevice: Device := Device([], 0)

  predicate RecorderFits(r: Recorder, next: Handle)
  {
    && !r.open
    && (forall h :: h in r.created ==> h < next)
    && (forall h :: h in r.states ==> h in r.created)
  }

  /** The whole trace obeys the discipline, the command list is closed and
      every handle ever handed out is below `next`. */
  predicate Disciplined(d: Device)
  {
    && Run(Idle, d.trace).Some?
    && RecorderFits(Run(Idle, d.trace).value, d.next)
  }

  /** How the replay tracks handle `h` after the whole trace. */
  function StateOf(d: Device, h: Handle): Option<Tracking>
    requires Disciplined(d)
  {
    var r := Run(Idle, d.trace).value;
    if h in r.states then Some(r.states[h]) else None
  }

  /** The fixed upload sequence for a buffer (create, open, track as copy
      destination, write, make permanent, close, execute) keeps the trace
      disciplined and leaves the new buffer permanently in `final`, all
      other handles as they were. */
  lemma BufferUploadDisciplined(d: Device, desc: BufferDesc, bytes: nat, final: ResourceState)
    requires Disciplined(d)
    ensures var d' := Device(d.trace + [CreateBuffer(d.next, desc), Open, BeginTracking(d.next, CopyDest),
                                        WriteBuffer(d.next, bytes), SetPermanent(d.next, final), Close, Execute], d.next + 1);
            && Disciplined(d')
            && StateOf(d', d.next) == Some(Permanent(final))
            && (forall h :: h != d.next ==> StateOf(d', h) == StateOf(d, h))
  {
    var h := d.next;
    var seg := [CreateBuffer(h, desc), Open, BeginTracking(h, CopyDest), WriteBuffer(h, bytes), SetPermanent(h, final), Close, Execute];
    var r := Run(Idle, d.trace).value;
    RunAppend(Idle, d.trace, seg);
    var r1 := r.(created := r.created + {h});
    var r2 := r1.(open := true);
    var r3 := r2.(states := r2.states[h := Tracked(CopyDest)]);
    var r4 := r3;
    var r5 := r4.(states := r4.states[h := Permanent(final)]);
    var r6 := r5.(open := false);
    assert h !in r.created;
    assert Step(r, seg[0]) == Some(r1);
    assert Step(r1, seg[1]) == Some(r2);
    assert h !in r2.states;
    assert Step(r2, seg[2]) == Some(r3);
    assert Step(r3, seg[3]) == Some(r4);
    assert Step(r4, seg[4]) == Some(r5);
    assert Step(r5, seg[5]) == Some(r6);
    assert Step(r6, seg[6]) == Some(r6);
    assert Run(r6, seg[6..]) == Some(r6);
    assert Run(r5, seg[5..]) == Some(r6);
    assert Run(r4, seg[4..]) == Some(r6);
    assert Run(r3, seg[3..]) == Some(r6);
    assert Run(r2, seg[2..]) == Some(r6);
    assert Run(r1, seg[1..]) == Some(r6);
    assert Run(r, seg) == Some(r6);
  }

  /** The same for a texture: tracked from the common state, written, then
      made permanently shader-readable. */
  lemma TextureUploadDisciplined(d: Device, desc: TextureDesc, rowPitch: nat)
    requires Disciplined(d)
    ensures var d' := Device(d.trace + [CreateTexture(d.next, desc), Open, BeginTracking(d.next, Common),
                                        WriteTexture(d.next, rowPitch), SetPermanent(d.next, ShaderResource), Close, Execute], d.next + 1);
            && Disciplined(d')
            && StateOf(d', d.next) == Some(Permanent(ShaderResource))
            && (forall h :: h != d.next ==> StateOf(d', h) == StateOf(d, h))
  {
    var h := d.next;
    var seg := [CreateTexture(h, desc), Open, BeginTracking(h, Common), WriteTexture(h, rowPitch), SetPermanent(h, ShaderResource), Close, Execute];
    var r := Run(Idle, d.trace).value;
    RunAppend(Idle, d.trace, seg);
    var r1 := r.(created := r.created + {h});
    var r2 := r1.(open := true);
    var r3 := r2.(states := r2.states[h := Tracked(Common)]);
    var r4 := r3.(states := r3.states[h := Tracked(CopyDest)]);
    var r5 := r4.(states := r4.states[h := Permanent(ShaderResource)]);
    var r6 := r5.(open := false);
    assert h !in r.created;
    assert Step(r, seg[0]) == Some(r1);
    assert Step(r1, seg[1]) == Some(r2);
    assert h !in r2.states;
    assert Step(r2, seg[2]) == Some(r3);
    assert Step(r3, seg[3]) == Some(r4);
    assert Step(r4, seg[4]) == Some(r5);
    assert Step(r5, seg[5]) == Some(r6);
    assert Step(r6, seg[6]) == Some(r6);
    assert Run(r6, seg[6..]) == Some(r6);
    assert Run(r5, seg[5..]) == Some(r6);
    assert Run(r4, seg[4..]) == Some(r6);
    assert Run(r3, seg[3..]) == Some(r6);
    assert Run(r2, seg[2..]) == Some(r6);
    assert Run(r1, seg[1..]) == Some(r6);
    assert Run(r, seg) == Some(r6);
  }

  /** Creating a binding set over a texture that is permanently
      shader-readable keeps the trace disciplined and changes no state. */
  lemma BindingSetDisciplined(d: Device, texture: Handle)
    requires Disciplined(d)
    requires StateOf(d, texture) == Some(Permanent(ShaderResource))
    ensures var d' := Device(d.trace + [CreateBindingSet(d.next, texture)], d.next + 1);
            && Disciplined(d')
            && (forall h :: StateOf(d', h) == StateOf(d, h))
  {
    var r := Run(Idle, d.trace).value;
    RunAppend(Idle, d.trace, [CreateBindingSet(d.next, texture)]);
    var r1 := r.(created := r.created + {d.next});
    assert Step(r, CreateBindingSet(d.next, texture)) == Some(r1);
    assert Run(r, [CreateBindingSet(d.next, texture)]) == Some(r1);
  }

  /** Writing a resource whose state is already permanent breaks the
      discipline: an uploaded resource is never written again. */
  lemma NoWriteAfterPermanent(d: Device, h: Handle, bytes: nat)
    requires Disciplined(d)
    requires StateOf(d, h).Some? && StateOf(d, h).value.Permanent?
    ensures Run(Idle, d.trace + [WriteBuffer(h, bytes)]).None?
    ensures Run(Idle, d.trace + [WriteTexture(h, bytes)]).None?
  {
    RunAppend(Idle, d.trace, [WriteBuffer(h, bytes)]);
    RunAppend(Idle, d.trace, [WriteTexture(h, bytes)]);
  }
}
