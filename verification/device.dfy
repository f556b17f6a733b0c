/** The device manager's back-end independent logic: creation parameters
    and their defaults, the swap-chain resize state machine driven by
    `UpdateWindowSize`, the deferred vsync request, the framebuffer list
    rebuilt on every resize, and `Create`'s choice of back end. The
    back-end hooks (device creation, swap-chain resize, back-buffer count)
    are abstract: their outcomes are fields or parameters, and the calls
    the shared logic makes into them are recorded as events. */
module DeviceManager {
  import opened Types
  import opened Gpu
  import opened Log

  datatype GraphicsApi = D3D11 | D3D12 | Vulkan

  /** nvrhi's numeric value of each graphics API. */
  function ApiCode(api: GraphicsApi): nat
  {
    match api
    case D3D11 => 0
    case D3D12 => 1
    case Vulkan => 2
  }

  /** `DeviceCreationParameters`, without the fields that only carry
      platform handles, extension lists or callbacks. */
  datatype Params = Params(
    startMaximized: bool,
    startFullscreen: bool,
    allowModeSwitch: bool,
    backBufferWidth: uint32,
    backBufferHeight: uint32,
    refreshRate: uint32,
    swapChainBufferCount: uint32,
    swapChainFormat: Format,
    swapChainSampleCount: uint32,
    swapChainSampleQuality: uint32,
    maxFramesInFlight: uint32,
    enableDebugRuntime: bool,
    enableNvrhiValidationLayer: bool,
    vsyncEnabled: bool,
    enableRayTracingExtensions: bool,
    enableComputeQueue: bool,
    enableCopyQueue: bool,
    infoLogSeverity: Severity)

  /** The member initialisers of `DeviceCreationParameters`. */
  const DefaultParams: Params := Params(
    false, false, true,
    1280, 720, 0, 3, SRGBA8_UNORM, 1, 0, 2,
    false, false, false, false, false, false,
    Info)

  /** A framebuffer whose single colour attachment is back buffer `backBuffer`. */
  datatype Framebuffer = Framebuffer(backBuffer: nat)

  /** Calls the shared logic makes into the back end, in order. A swap-chain
      resize records the requested size and vsync and how many framebuffers
      were still held when it happened. */
  datatype Event =
    | CreateDeviceAndSwapChain
    | ResizeSwapChain(width: uint32, height: uint32, vsync: bool, heldFramebuffers: nat)
    | DestroyDeviceAndSwapChain

  /** The device manager's state. `api` and `backBufferCount` are what the
      back end reports from `GetGraphicsAPI` and `GetBackBufferCount`. */
  datatype Manager = Manager(
    api: GraphicsApi,
    backBufferCount: uint32,
    params: Params,
    requestedVSync: bool,
    windowVisible: bool,
    framebuffers: seq<Framebuffer>,
    frameIndex: uint32,
    events: seq<Event>)

  /** A freshly constructed manager: default parameters, hidden window, no
      framebuffers, frame 0. */
  function NewManager(api: GraphicsApi, backBufferCount: uint32): (m: Manager)
    ensures m.params == DefaultParams && !m.requestedVSync && !m.windowVisible
    ensures m.framebuffers == [] && m.frameIndex == 0 && m.events == []
  {
    Manager(api, backBufferCount, DefaultParams, false, false, [], 0, [])
  }

  /** `GetFrameIndex`: the stored frame index. */
  function GetFrameIndex(m: Manager): uint32
  {
    m.frameIndex
  }

  /** `IsVsyncEnabled`: the vsync state in effect, not the requested one. */
  function IsVsyncEnabled(m: Manager): bool
  {
    m.params.vsyncEnabled
  }

  /** `SetVsyncEnabled`: only records the request; nothing else changes
      until the next window-size update applies it. */
  function SetVsyncEnabled(m: Manager, enabled: bool): (r: Manager)
    ensures r.requestedVSync == enabled
    ensures IsVsyncEnabled(r) == IsVsyncEnabled(m)
    ensures r.(requestedVSync := m.requestedVSync) == m
  {
    m.(requestedVSync := enabled)
  }

  /** `GetWindowDimensions`: the stored back-buffer size as `int`s. */
  function GetWindowDimensions(m: Manager): (r: (int32, int32))
    ensures r.0 == ToInt32(m.params.backBufferWidth) && r.1 == ToInt32(m.params.backBufferHeight)
  {
    (ToInt32(m.params.backBufferWidth), ToInt32(m.params.backBufferHeight))
  }

  /** `BackBufferResizing`: drops every framebuffer. */
  function BackBufferResizing(m: Manager): (r: Manager)
    ensures r.framebuffers == []
    ensures r.(framebuffers := m.framebuffers) == m
  {
    m.(framebuffers := [])
  }

  /** The framebuffer list `BackBufferResized` builds: one per back buffer,
      the `i`-th attached to back buffer `i`. */
  predicate FramebuffersFor(fbs: seq<Framebuffer>, count: nat)
  {
    |fbs| == count && forall i :: 0 <= i < count ==> fbs[i].backBuffer == i
  }

  /** `BackBufferResized`: rebuilds the list from scratch with exactly
      `GetBackBufferCount()` entries, entry `i` on back buffer `i`. */
  method BackBufferResized(m: Manager) returns (r: Manager)
    ensures FramebuffersFor(r.framebuffers, m.backBufferCount)
    ensures r.(framebuffers := m.framebuffers) == m
  {
    var fbs: seq<Framebuffer> := [];
    var index: nat := 0;
    while index < m.backBufferCount
      invariant index <= m.backBufferCount
      invariant FramebuffersFor(fbs, index)
    {
      fbs := fbs + [Framebuffer(index)];
      index := index + 1;
    }
    r := m.(framebuffers := fbs);
  }

  /** The resize condition of `UpdateWindowSize` for a visible window: the
      stored size, read back as `int`, differs from the new one, or a vsync
      change is pending on Vulkan. */
  predicate NeedsResize(m: Manager, width: int32, height: int32)
  {
    || ToInt32(m.params.backBufferWidth) != width
    || ToInt32(m.params.backBufferHeight) != height
    || (m.params.vsyncEnabled != m.requestedVSync && m.api == Vulkan)
  }

  /** `UpdateWindowSize`. A zero width or height means the window is
      minimized: it is marked hidden and nothing else changes. Otherwise the
      window is marked visible; if a resize is needed, the framebuffers are
      dropped, the new size (as `uint32_t`) and the requested vsync are
      stored, the back end resizes the swap chain with no framebuffer held,
      and the framebuffers are rebuilt. In every visible case the requested
      vsync is in effect afterwards. */
  method UpdateWindowSize(m: Manager, width: int32, height: int32) returns (r: Manager)
    ensures width == 0 || height == 0 ==> r == m.(windowVisible := false)
    ensures width != 0 && height != 0 ==>
              && r.windowVisible
              && IsVsyncEnabled(r) == m.requestedVSync
              && r.requestedVSync == m.requestedVSync
              && r.api == m.api && r.backBufferCount == m.backBufferCount && r.frameIndex == m.frameIndex
    ensures width != 0 && height != 0 && NeedsResize(m, width, height) ==>
              && r.params == m.params.(backBufferWidth := ToUint32(width), backBufferHeight := ToUint32(height),
                                       vsyncEnabled := m.requestedVSync)
              && GetWindowDimensions(r) == (width, height)
              && r.events == m.events + [ResizeSwapChain(ToUint32(width), ToUint32(height), m.requestedVSync, 0)]
              && FramebuffersFor(r.framebuffers, m.backBufferCount)
    ensures width != 0 && height != 0 && !NeedsResize(m, width, height) ==>
              && r.params == m.params.(vsyncEnabled := m.requestedVSync)
              && r.events == m.events
              && r.framebuffers == m.framebuffers
  {
    if width == 0 || height == 0 {
      return m.(windowVisible := false);
    }
    r := m.(windowVisible := true);
    if NeedsResize(r, width, height) {
      r := BackBufferResizing(r);
      var params := r.params.(backBufferWidth := ToUint32(width), backBufferHeight := ToUint32(height),
                              vsyncEnabled := r.requestedVSync);
      r := r.(params := params,
              events := r.events + [ResizeSwapChain(params.backBufferWidth, params.backBufferHeight,
                                                    params.vsyncEnabled, |r.framebuffers|)]);
      Int32Uint32RoundTrip(width, 0);
      Int32Uint32RoundTrip(height, 0);
      var resized := BackBufferResized(r);
      assert resized.params == params && resized.events == r.events && resized.requestedVSync == r.requestedVSync;
      r := resized;
    }
    r := r.(params := r.params.(vsyncEnabled := r.requestedVSync));
  }

  /** What the accessors report for a new manager: frame index 0, vsync
      off, and the default 1280x720 back buffer. */
  lemma NewManagerAccessors(api: GraphicsApi, backBufferCount: uint32)
    ensures GetFrameIndex(NewManager(api, backBufferCount)) == 0
    ensures !IsVsyncEnabled(NewManager(api, backBufferCount))
    ensures GetWindowDimensions(NewManager(api, backBufferCount)) == (1280, 720)
  {
  }

  /** What the accessors report across a window-size update. A non-zero
      size reads back exactly as given and the requested vsync becomes the
      reported one; a zero size changes neither. The frame index is never
      touched. */
  method AccessorsAfterUpdate(m: Manager, width: int32, height: int32) returns (r: Manager)
    ensures width != 0 && height != 0 ==>
              GetWindowDimensions(r) == (width, height) && IsVsyncEnabled(r) == m.requestedVSync
    ensures width == 0 || height == 0 ==>
              GetWindowDimensions(r) == GetWindowDimensions(m) && IsVsyncEnabled(r) == IsVsyncEnabled(m)
    ensures GetFrameIndex(r) == GetFrameIndex(m)
  {
    r := UpdateWindowSize(m, width, height);
  }

  /** A window-size update is idempotent: repeating it with the same size
      changes nothing, because the stored size reads back as the size just
      given and any pending vsync request has been applied. */
  method UpdateWindowSizeTwice(m: Manager, width: int32, height: int32) returns (r1: Manager, r2: Manager)
    ensures r2 == r1
    ensures width != 0 && height != 0 ==> !NeedsResize(r1, width, height)
  {
    r1 := UpdateWindowSize(m, width, height);
    r2 := UpdateWindowSize(r1, width, height);
  }

  /** `SetVsyncEnabled` defers: the reported vsync state only changes at the
      next visible window-size update, and there it becomes the request. On
      Vulkan a changed request forces a swap-chain resize even at the same
      size; on the other back ends it does not. */
  lemma VsyncDeferred(m: Manager, enabled: bool, width: int32, height: int32)
    requires width != 0 && height != 0
    requires GetWindowDimensions(m) == (width, height)
    ensures IsVsyncEnabled(SetVsyncEnabled(m, enabled)) == IsVsyncEnabled(m)
    ensures NeedsResize(SetVsyncEnabled(m, enabled), width, height) <==>
              (m.api == Vulkan && enabled != IsVsyncEnabled(m))
  {
  }

  /** `CreateWindowDeviceAndSwapChain`. Stores the parameters and the vsync
      request, then asks the back end for a device and swap chain (whose
      success is `deviceCreated`). On failure the result is false. On
      success the stored size is zeroed and the window-size update runs
      with the requested size, so a non-zero request always resizes. */
  method CreateWindowDeviceAndSwapChain(m: Manager, params: Params, deviceCreated: bool)
    returns (r: Manager, ok: bool)
    ensures ok == deviceCreated
    ensures r.requestedVSync == params.vsyncEnabled
    ensures r.api == m.api && r.backBufferCount == m.backBufferCount && r.frameIndex == m.frameIndex
    ensures |r.events| > |m.events| && r.events[..|m.events| + 1] == m.events + [CreateDeviceAndSwapChain]
    ensures !ok ==> r == m.(params := params, requestedVSync := params.vsyncEnabled, events := m.events + [CreateDeviceAndSwapChain])
    ensures ok && params.backBufferWidth != 0 && params.backBufferHeight != 0 ==>
              && r.windowVisible
              && r.params == params
              && r.events == m.events + [CreateDeviceAndSwapChain,
                                         ResizeSwapChain(params.backBufferWidth, params.backBufferHeight, params.vsyncEnabled, 0)]
              && FramebuffersFor(r.framebuffers, m.backBufferCount)
    ensures ok && (params.backBufferWidth == 0 || params.backBufferHeight == 0) ==> !r.windowVisible
  {
    r := m.(params := params, requestedVSync := params.vsyncEnabled, events := m.events + [CreateDeviceAndSwapChain]);
    if !deviceCreated {
      return r, false;
    }
    r := r.(params := r.params.(backBufferWidth := 0, backBufferHeight := 0));
    var w := ToInt32(params.backBufferWidth);
    var h := ToInt32(params.backBufferHeight);
    ToInt32Zero(params.backBufferWidth);
    ToInt32Zero(params.backBufferHeight);
    Int32Uint32RoundTrip(0, params.backBufferWidth);
    Int32Uint32RoundTrip(0, params.backBufferHeight);
    r := UpdateWindowSize(r, w, h);
    ok := true;
  }

  /** A `uint32_t` read as `int` is zero exactly when it is zero. */
  lemma ToInt32Zero(v: uint32)
    ensures ToInt32(v) == 0 <==> v == 0
  {
  }

  /** `GetFramebuffer`: bounds-checked; null past the end of the list. */
  function GetFramebuffer(m: Manager, index: uint32): (r: Option<Framebuffer>)
    ensures r.None? <==> index >= |m.framebuffers|
    ensures r.Some? ==> r.value == m.framebuffers[index]
  {
    if index < |m.framebuffers| then Some(m.framebuffers[index]) else None
  }

  /** `GetCurrentFramebuffer`: the framebuffer of the back buffer the back
      end reports as current; after a resize it is attached to that very
      back buffer whenever the index is in range. */
  function GetCurrentFramebuffer(m: Manager, currentBackBuffer: uint32): (r: Option<Framebuffer>)
    ensures r == GetFramebuffer(m, currentBackBuffer)
    ensures FramebuffersFor(m.framebuffers, m.backBufferCount) && currentBackBuffer < m.backBufferCount ==>
              r == Some(Framebuffer(currentBackBuffer))
  {
    GetFramebuffer(m, currentBackBuffer)
  }

  /** `Shutdown`: drops every framebuffer, then destroys the device and
      swap chain. */
  function Shutdown(m: Manager): (r: Manager)
    ensures r.framebuffers == []
    ensures r.events == m.events + [DestroyDeviceAndSwapChain]
    ensures forall i: uint32 :: GetFramebuffer(r, i).None?
    ensures r.params == m.params && r.windowVisible == m.windowVisible
  {
    m.(framebuffers := [], events := m.events + [DestroyDeviceAndSwapChain])
  }

  /** `Create`: a manager for an API whose back end was compiled in;
      otherwise no manager, and an error line naming the API's number. */
  function Create(api: GraphicsApi, compiledIn: set<GraphicsApi>, backBufferCount: uint32): (r: (Option<Manager>, seq<string>))
    ensures r.0.None? <==> api !in compiledIn
    ensures r.0.Some? ==> r.0.value == NewManager(api, backBufferCount) && r.1 == []
    ensures r.0.None? ==> r.1 == LogError(UnsupportedApiMessage(api))
  {
    if api in compiledIn then (Some(NewManager(api, backBufferCount)), [])
    else (None, LogError(UnsupportedApiMessage(api)))
  }

  function UnsupportedApiMessage(api: GraphicsApi): string
  {
    "DeviceManager::Create: Unsupported Graphics API (" + [(('0' as int) + ApiCode(api)) as char] + ")"
  }

  /** With the default parameters, a successful creation leaves a visible
      1280x720 window with vsync off and one framebuffer per back buffer,
      after exactly one swap-chain resize. */
  method DefaultStartup(api: GraphicsApi, backBufferCount: uint32) returns (r: Manager)
    ensures r.windowVisible && GetWindowDimensions(r) == (1280, 720) && !IsVsyncEnabled(r)
    ensures r.events == [CreateDeviceAndSwapChain, ResizeSwapChain(1280, 720, false, 0)]
    ensures FramebuffersFor(r.framebuffers, backBufferCount) && GetFrameIndex(r) == 0
  {
    var ok;
    r, ok := CreateWindowDeviceAndSwapChain(NewManager(api, backBufferCount), DefaultParams, true);
  }

  // ---------------------------------------------------------------------
  // Window format bits

  datatype FormatInfo = FormatInfo(format: Format, redBits: uint32, greenBits: uint32, blueBits: uint32,
                                   alphaBits: uint32, depthBits: uint32, stencilBits: uint32)

  /** `FormatInfos`: per-channel bit counts of the colour formats a window
      may use. */
  const FormatInfos: seq<FormatInfo> := [
    FormatInfo(UNKNOWN, 0, 0, 0, 0, 0, 0),
    FormatInfo(R8_UINT, 8, 0, 0, 0, 0, 0),
    FormatInfo(RG8_UINT, 8, 8, 0, 0, 0, 0),
    FormatInfo(RG8_UNORM, 8, 8, 0, 0, 0, 0),
    FormatInfo(R16_UINT, 16, 0, 0, 0, 0, 0),
    FormatInfo(R16_UNORM, 16, 0, 0, 0, 0, 0),
    FormatInfo(R16_FLOAT, 16, 0, 0, 0, 0, 0),
    FormatInfo(RGBA8_UNORM, 8, 8, 8, 8, 0, 0),
    FormatInfo(RGBA8_SNORM, 8, 8, 8, 8, 0, 0),
    FormatInfo(BGRA8_UNORM, 8, 8, 8, 8, 0, 0),
    FormatInfo(SRGBA8_UNORM, 8, 8, 8, 8, 0, 0),
    FormatInfo(SBGRA8_UNORM, 8, 8, 8, 8, 0, 0),
    FormatInfo(R10G10B10A2_UNORM, 10, 10, 10, 2, 0, 0),
    FormatInfo(R11G11B10_FLOAT, 11, 11, 10, 0, 0, 0),
    FormatInfo(RG16_UINT, 16, 16, 0, 0, 0, 0),
    FormatInfo(RG16_FLOAT, 16, 16, 0, 0, 0, 0),
    FormatInfo(R32_UINT, 32, 0, 0, 0, 0, 0),
    FormatInfo(R32_FLOAT, 32, 0, 0, 0, 0, 0),
    FormatInfo(RGBA16_FLOAT, 16, 16, 16, 16, 0, 0),
    FormatInfo(RGBA16_UNORM, 16, 16, 16, 16, 0, 0),
    FormatInfo(RGBA16_SNORM, 16, 16, 16, 16, 0, 0),
    FormatInfo(RG32_UINT, 32, 32, 0, 0, 0, 0),
    FormatInfo(RG32_FLOAT, 32, 32, 0, 0, 0, 0),
    FormatInfo(RGB32_UINT, 32, 32, 32, 0, 0, 0),
    FormatInfo(RGB32_FLOAT, 32, 32, 32, 0, 0, 0),
    FormatInfo(RGBA32_UINT, 32, 32, 32, 32, 0, 0),
    FormatInfo(RGBA32_FLOAT, 32, 32, 32, 32, 0, 0)
  ]

  /** Every entry is a colour format: no depth or stencil bits. */
  lemma {:induction false} FormatInfosColourOnly()
    ensures forall i :: 0 <= i < |FormatInfos| ==> FormatInfos[i].depthBits == 0 && FormatInfos[i].stencilBits == 0
  {
  }

  /** The UNKNOWN entry comes first and has no bits at all, no format has
      two entries, and R8_UNORM is the one format of the enumeration
      without an entry. */
  lemma FormatInfosDistinct()
    ensures FormatInfos[0] == FormatInfo(UNKNOWN, 0, 0, 0, 0, 0, 0)
    ensures forall i, j :: 0 <= i < j < |FormatInfos| ==> FormatInfos[i].format != FormatInfos[j].format
    ensures forall i :: 0 <= i < |FormatInfos| ==> FormatInfos[i].format != R8_UNORM
  {
    TablePositionsLow();
    TablePositionsMiddle();
    TablePositionsHigh();
  }

  /** Entry `i` of the table is the one at `TablePosition` `i`, stated
      for the table's first, middle and last nine entries separately. */
  lemma TablePositionsLow()
    ensures forall i :: 0 <= i < 9 ==> TablePosition(FormatInfos[i].format) == i
  {
  }

  lemma TablePositionsMiddle()
    ensures forall i :: 9 <= i < 18 ==> TablePosition(FormatInfos[i].format) == i
  {
  }

  lemma TablePositionsHigh()
    ensures forall i :: 18 <= i < |FormatInfos| ==> TablePosition(FormatInfos[i].format) == i
  {
  }

  /** Where a format sits in `FormatInfos`, and 27 for R8_UNORM, which has
      no entry. This is a position in this table, not the format's value in
      nvrhi's enumeration; it serves only to tell entries apart. */
  function TablePosition(f: Format): nat
  {
    match f
    case UNKNOWN => 0
    case R8_UINT => 1
    case RG8_UINT => 2
    case RG8_UNORM => 3
    case R16_UINT => 4
    case R16_UNORM => 5
    case R16_FLOAT => 6
    case RGBA8_UNORM => 7
    case RGBA8_SNORM => 8
    case BGRA8_UNORM => 9
    case SRGBA8_UNORM => 10
    case SBGRA8_UNORM => 11
    case R10G10B10A2_UNORM => 12
    case R11G11B10_FLOAT => 13
    case RG16_UINT => 14
    case RG16_FLOAT => 15
    case R32_UINT => 16
    case R32_FLOAT => 17
    case RGBA16_FLOAT => 18
    case RGBA16_UNORM => 19
    case RGBA16_SNORM => 20
    case RG32_UINT => 21
    case RG32_FLOAT => 22
    case RGB32_UINT => 23
    case RGB32_FLOAT => 24
    case RGBA32_UINT => 25
    case RGBA32_FLOAT => 26
    case R8_UNORM => 27
  }
}
