# learnin-nvrhi: a Dafny model of the renderer's core

learnin-nvrhi is a small C++ rendering demo on top of NVIDIA's NVRHI.
NVRHI is a graphics API abstraction over Direct3D 11, Direct3D 12 and Vulkan.
This project models the demo's core as pure Dafny functions and methods and proves properties about them:

- the glTF loader, which flattens the first mesh's primitives into draw surfaces and widens 1-, 2-, 4- and 8-byte index data to 32 bits;
- the render-model registry, which uploads each surface's vertex and index buffers, finds or creates its material texture, and binds it;
- the texture side: image probing with fallback extensions, the 32-entry parallel texture lists, the procedural checkerboard, row pitch and format;
- the `CreateBufferWithData` upload helper;
- the device manager: parameters, window-size tracking, vsync deferral, framebuffers, shutdown, creation per graphics API, the format bit table and the log lines;
- the single-file demo: the fixed screen-quad and pentagon geometry, the vertex layouts, the older single-primitive loader, one frame's command order, the shutdown and the exit codes.

GPU work is modelled as a trace of commands appended to a `Gpu.Device`.
Examples are create, open, begin tracking, write, set permanent state, close and execute.
`Gpu.Run` replays a trace and fails when the trace breaks NVRHI's state-tracking discipline.
Examples of a broken discipline are a write to an untracked or permanent resource, or a command outside an open list.
`Gpu.Disciplined` says the replay succeeds.
The loaders are proved to keep the trace disciplined and to leave every uploaded buffer and texture in a permanent readable state.

Integer widths of the source are modelled explicitly:

- `uint16_t` texture sizes truncate;
- the 32-bit `count * size` of an accessor wraps;
- `size()` results stored in `int32_t` wrap.

The image decoder, the sine noise and the glTF parser are parameters: `Texture.Env` and `Option<Document>`.

## Model

| member | source | states |
|---|---|---|
| Types.ToUint32 | src/Model.cpp:172 | Storing an integer into `uint32_t` keeps it when it fits and otherwise differs by a multiple of 2^32 |
| Types.ToInt32 | src/Model.cpp:247-248 | Storing a `size()` into an `int32_t` field keeps it when it fits and otherwise wraps by a multiple of 2^32 |
| Types.Int32Uint32RoundTrip | src/DeviceManager.cpp:160-169 | Converting between `int32_t` and `uint32_t` is a bijection: both round trips are the identity |
| Types.LeRoundTrip | src/Model.cpp:144-147 | Reading back the little-endian bytes of a value below 256^n gives the value |
| Gpu.RunAppend | src/Common.hpp:160-166 | Replaying a concatenated trace is replaying the first part, then the second from where it left off |
| Gpu.BufferUploadDisciplined | src/Common.hpp:158-166 | The buffer upload sequence keeps a disciplined trace disciplined and leaves the new buffer permanently in its final state |
| Gpu.TextureUploadDisciplined | src/Texture.cpp:156-164 | The texture upload sequence keeps the trace disciplined and leaves the texture permanently shader-readable, other handles unchanged |
| Gpu.BindingSetDisciplined | src/Model.cpp:261-267 | A binding set over a permanently shader-readable texture keeps the trace disciplined and changes no resource state |
| Gpu.NoWriteAfterPermanent | src/Common.hpp:161-163 | Writing a buffer or texture whose state is already permanent breaks the discipline |
| Buffers.CreateBufferWithData | src/Common.hpp:144-169 | Byte size is element count times element size; vertex xor index flags; the default debug name depends on the role; the exact seven-command trace; a disciplined device stays disciplined with the new buffer permanently in its role's state and every other handle unchanged |
| Gltf.CalculateDataTypeSize | src/Model.cpp:175-222 | The size is component width times component count, zero exactly when the component type or the element type is unknown, and at most 64 |
| Gltf.GetData | src/Model.cpp:164-173 | The stride is the element size; the total size is `count * size` when it fits in 32 bits |
| Gltf.NumElements | src/Model.cpp:37-40 | The element count times the element size never exceeds the total size |
| Gltf.NumElementsIsCount | src/Model.cpp:37-40 | The computed element count is at most the accessor's count, and equals it exactly when `count * size` fits in 32 bits |
| Indices.Widen | src/Model.cpp:139-149 | Widening appends exactly one index per element for strides 1, 2, 4 and 8 and nothing for any other stride |
| Indices.WidenElements | src/Model.cpp:139-149 | Element `i` of the widened indices is the `i`-th little-endian integer of the data, truncated to 32 bits |
| Indices.WidenNarrowExact | src/Model.cpp:143-146 | For 1-, 2- and 4-byte strides, no index is truncated |
| Indices.WidenIndices | src/Model.cpp:139-149 | The loop computes the same indices as the functional definition |
| Indices.EncodeIndices | src/Model.cpp:143-146 | The encoding of n indices at width w is n*w bytes long |
| Indices.EncodeSlice | src/Model.cpp:143-146 | The `i`-th w-byte slice of an encoding is the `i`-th value's little-endian bytes |
| Indices.IndexRoundTrip | src/Model.cpp:139-149 | Widening encoded indices yields each index modulo 2^32, and exactly the original sequence for widths 1, 2 and 4 |
| Texture.MoveAssign | src/Common.hpp:50-61 | Move assignment transfers every field and the data pointer; the source is left without data but keeps its sizes |
| Texture.HasDataSpec | src/Common.hpp:66-69 | `operator bool` is true exactly when the data pointer is non-null: false for an empty texture and after the data is dropped, whatever the sizes say |
| Texture.LastIndexOfSpec | src/Texture.cpp:23-31 | The result holds the character and no later position does; there is no result exactly when the character does not occur |
| Texture.FileNameStartSpec | src/Texture.cpp:23-31 | The file-name part after the last '/' holds no '/' |
| Texture.StripExtensionSpec | src/Texture.cpp:23-33 | The stem path is a prefix of the path. It equals the path exactly when the file name is ".." or holds no '.' after its first character; otherwise it is cut at the file name's last '.', and the cut-off tail holds no other '.' and no '/' |
| Texture.CandidatesSpec | src/Texture.cpp:15-37 | After the exact name come the stem with each of the five extensions, in order |
| Texture.FirstDecodingSpec | src/Texture.cpp:35-42 | The tried paths are a prefix of the candidates, all but the last failing; an image comes from the last one tried; there is no image exactly when every candidate fails |
| Texture.ProbeOrder | src/Texture.cpp:19-43 | A decodable exact name wins without trying extensions; otherwise extensions are tried in order and the first one that decodes wins |
| Texture.TextureInit | src/Texture.cpp:10-54 | No data exactly when no candidate decodes, with the sizes and channel fields then untouched; with data, the pixels and 16-bit truncated sizes of the FIRST candidate that decodes, every earlier one having failed, and four one-byte channels; data exactly when `ProbeImage` finds an image, and then the texture is the one made from that image |
| Texture.LegacyTextureInit | src/Main.cpp:331-345 | The older loader has data exactly when the exact name decodes, and then agrees with the newer one |
| Texture.RowBytes | src/Texture.cpp:71-74 | The row pitch is width times components times bytes per component, and fits in 32 bits |
| Texture.RowsCoverData | src/Texture.cpp:19-74 | For a decoder that returns four bytes per pixel and sizes that fit 16 bits, the row pitch times the height is exactly the length of the pixel data `Init` keeps |
| Texture.TextureFormat | src/Texture.cpp:76-91 | One and two components map to formats of that many channels; anything else maps to a four-channel format |
| Texture.CheckerboardPixels | src/Texture.cpp:111-142 | The fallback texture has 16 by 16 pixels of four bytes each |
| Texture.CheckerboardLayout | src/Texture.cpp:119-140 | Every fallback pixel is opaque; pixels on every fourth row or column are light grey (240) |
| Texture.CheckerboardTexture | src/Texture.cpp:111-117 | The fallback texture is 16x16 RGBA8 with data of exactly its size and a 64-byte row pitch |
| Texture.FindOrCreateMaterial | src/Texture.cpp:96-170 | -1 with nothing changed exactly when a named image is not found; otherwise one entry with data appended to both lists, earlier entries kept, the index is the new last position; the entry is the checkerboard for the null name and `TextureInit` of the name otherwise; the trace gains the create of a texture with the entry's sizes and format and debug name the material name or "default", then open, begin tracking, a write with the entry's row pitch, permanent shader-resource state, close and execute; the lists stay in step; the upload is disciplined, leaves the new texture permanently shader-readable and no other handle changes state |
| Texture.NoDedup | src/Texture.cpp:96-108 | Asking twice for the same loadable name creates two textures: the registry does not deduplicate |
| Model.Channel | src/Model.cpp:125-129 | A 16-bit colour channel maps into [0, 1) as its value over 65536 |
| Model.IndexBytes | src/Model.cpp:8-11 | The index buffer's byte size is four bytes per index when that fits in 32 bits |
| Model.VertexBytes | src/Model.cpp:18-21 | The vertex buffer's byte size is 48 bytes per vertex when that fits in 32 bits |
| Model.ByteCountsMatchBuffers | src/Model.cpp:8-21 | For a registered surface, the 32-bit byte counts are the sizes of its vertex and index buffers modulo 2^32, and equal them exactly when those sizes fit in 32 bits |
| Model.FlattenPrimitive | src/Model.cpp:68-150 | The material name rule; one vertex per POSITION element with the position, normal and texcoord at its index; decoded colour or opaque white; widened indices |
| Model.IndexAccessorRoundTrip | src/Model.cpp:139-149 | An index accessor of 1-, 2- or 4-byte elements whose bytes encode `xs`, with a byte size that fits in 32 bits, loads back exactly as `xs` |
| Model.Flatten | src/Model.cpp:59-157 | One surface per primitive of the first mesh, in primitive order |
| Model.GltfInit | src/Model.cpp:47-55 | A caught parse failure gives failure; otherwise as many surfaces as primitives |
| Model.Names | src/Model.cpp:239-243 | The material names of the surfaces, one per surface, in order |
| Model.SurfaceLiveMono | src/Model.cpp:239-268 | A surface's buffers, texture and binding set stay live as the trace and the texture list grow |
| Model.LoadSurface | src/Model.cpp:241-267 | One texture appended exactly when the material loads, both lists only growing; the new surface is `Registered`: counts as `int32_t`, buffers of 48 bytes per vertex and 4 per index named after the file, the texture index the new slot when the material loads and 0 (for -1) otherwise, the slot holding the probed image, the binding set using that texture; validity preserved |
| Model.LoadSurfaceKeepsValid | src/Model.cpp:243-267 | A disciplined renderer stays disciplined, extends its trace, and the new surface is live |
| Model.AdmissibleNext | src/Model.cpp:239-243 | After loading one surface, the room left for textures still suffices for the rest |
| Model.AdmissibleRest | src/Model.cpp:239-243 | The same, stated for the registry size after the surface's slots are taken |
| Model.HoldsMono | src/Model.cpp:243 | A slot holding a material's image keeps holding it as the texture list grows |
| Model.RegisteredMono | src/Model.cpp:239-268 | A registered surface stays registered as both texture lists grow: later surfaces do not disturb earlier ones |
| Model.OffsetsCountPrefix | src/Model.cpp:239-243 | Surface `k`'s slot offset is the number of found materials among the surfaces before it |
| Model.CountedSnoc | src/Model.cpp:239-268 | Appending one registered surface at the next free slot keeps the whole list registered |
| Model.RegisteringSnoc | src/Model.cpp:239-268 | Appending one loaded surface keeps the loop's registration invariant |
| Model.RegisterNext | src/Model.cpp:239-268 | One iteration of the surfaces loop appends exactly one render surface, keeps the earlier ones and the model list, and extends the registration invariant by that surface |
| Model.LoadSurfaces | src/Model.cpp:239-268 | One render surface per draw surface, in order, each `Registered` against its draw surface at the slot after the found materials before it; the texture list grows by exactly the found materials; everything live |
| Model.LoadRenderModelFromGltf | src/Model.cpp:227-271 | -1 with nothing changed on a caught parse failure; otherwise one model appended under the file name, the earlier models kept, the index is the new model's position, one render surface per primitive, each `Registered` (counts, buffer byte sizes and debug names, texture slot rule, the slot holding the probed image); the texture lists grow by exactly the found materials, stay in step, and validity is preserved |
| Log.SeverityStringsDistinct | src/DeviceManager.cpp:82-94 | The severity tags are bracketed, distinct for the four named severities, and "[unknown]" exactly for any other value |
| Log.Message | src/DeviceManager.cpp:80-103 | One line: prefix, tag, space, text; a fatal message adds two trailer lines |
| Log.LogError | src/DeviceManager.cpp:75-78 | `log::error` prints one line tagged "[ERROR]" |
| Log.CallbackMessage | src/Main.cpp:472-494 | The demo's callback prints the same tagged line followed by an empty line, then the fatal trailer |
| Log.Check | src/Common.hpp:15-24 | Success exactly for a non-null pointer; a null one prints "FATAL ERROR: " and the message |
| DeviceManager.NewManager | src/DeviceManager.hpp:186-210 | A new manager starts with an invisible window, no framebuffers, frame index 0 and the default parameters |
| DeviceManager.SetVsyncEnabled | src/DeviceManager.hpp:234 | Only the requested vsync changes; the effective vsync waits for the next resize |
| DeviceManager.NewManagerAccessors | src/DeviceManager.hpp:233-238 | `GetFrameIndex` of a new manager is the stored index 0; `IsVsyncEnabled` reports the applied vsync, off by default; the window dimensions are the default 1280x720 |
| DeviceManager.GetWindowDimensions | src/DeviceManager.cpp:138-142 | The stored back-buffer size, each `uint32_t` converted to `int` |
| DeviceManager.AccessorsAfterUpdate | src/DeviceManager.cpp:138-177 | After a window-size update, a non-zero size reads back exactly as given through `GetWindowDimensions` and `IsVsyncEnabled` reports the requested vsync now applied; a zero size changes neither; `GetFrameIndex` is unchanged |
| DeviceManager.BackBufferResizing | src/DeviceManager.cpp:122-125 | All framebuffers are released |
| DeviceManager.BackBufferResized | src/DeviceManager.cpp:127-136 | One framebuffer per back buffer, in order |
| DeviceManager.UpdateWindowSize | src/DeviceManager.cpp:149-177 | A zero-sized window becomes invisible and nothing else changes; a new size or a pending vsync change resizes the swap chain and rebuilds framebuffers; otherwise only visibility is set |
| DeviceManager.UpdateWindowSizeTwice | src/DeviceManager.cpp:149-177 | A second update with the same size changes nothing |
| DeviceManager.VsyncDeferred | src/DeviceManager.cpp:162-172 | A vsync request alone forces a resize on the next size update, which applies it |
| DeviceManager.CreateWindowDeviceAndSwapChain | src/DeviceManager.cpp:105-120 | Parameters and requested vsync stored and the device creation recorded first; failure returns false with nothing else changed; success with a non-zero size makes the window visible, resizes the swap chain once to that size and builds the framebuffers; a zero size leaves the window hidden |
| DeviceManager.GetFramebuffer | src/DeviceManager.cpp:191-197 | Null exactly when the index is past the framebuffer list |
| DeviceManager.GetCurrentFramebuffer | src/DeviceManager.cpp:186-189 | The framebuffer of the current back buffer, present when the list is complete |
| DeviceManager.Shutdown | src/DeviceManager.cpp:179-184 | Framebuffers released, then the device destroyed; every framebuffer lookup is null afterwards |
| DeviceManager.Create | src/DeviceManager.cpp:199-219 | A manager exactly for a compiled-in API; otherwise an error line naming the API's number |
| DeviceManager.DefaultStartup | src/DeviceManager.hpp:119-139 | With default parameters: visible 1280x720, vsync off, one resize, one framebuffer per back buffer |
| DeviceManager.FormatInfosColourOnly | src/DeviceManager.hpp:69-98 | No table entry has depth or stencil bits |
| DeviceManager.FormatInfosDistinct | src/DeviceManager.hpp:69-98 | The table starts with an all-zero UNKNOWN entry, lists each format once, and has no entry for R8_UNORM |
| Demo.ScreenQuadWellFormed | src/Main.cpp:255-280 | The quad's float array holds four whole vertices and its indices form triangles over them |
| Demo.PentagonWellFormed | src/Main.cpp:282-324 | The pentagon's five vertices and a fan of three triangles (0, k+1, k+2) |
| Demo.SceneLayoutFits | src/Main.cpp:715-740 | Offsets 0, 12, 24, 32 in a 48-byte stride; each attribute starts where the previous one ends and the last ends at the stride |
| Demo.ScreenLayoutFits | src/Main.cpp:699-712 | Offsets 0 and 8 in a 16-byte stride with no overlap, the quad's four floats per vertex |
| Demo.LegacyInit | src/Main.cpp:95-188 | Appends the first primitive's vertices, with texcoords scaled by 4 and colours decoded, and one surface with texture handle 0 and the widened indices, keeping what was there |
| Demo.LegacyAgreesWithFlatten | src/Main.cpp:148-183 | On a coloured first primitive, the older loader agrees with the current one on indices, positions, normals and colours, and differs only by the texcoord scale |
| Demo.ScenePass | src/Main.cpp:1003-1028 | The scene pass clears colour and depth before the constants upload and the draw of the first surface's indices |
| Demo.ScreenPass | src/Main.cpp:981-1001 | The screen pass clears and targets the current back buffer and draws six indices |
| Demo.DrawsAppend | src/Main.cpp:1030-1061 | The draws of a concatenation are the draws of the parts in order |
| Demo.RenderProtocol | src/Main.cpp:1030-1061 | A frame is bracketed by begin-frame and open, then close, execute, present and collect; inside are only recorded commands; exactly two draws, scene then quad; the scene's clears come before its upload and draw; the screen pass targets the current framebuffer |
| Demo.RendererShutdown | src/Main.cpp:1101-1104 | Guarded shutdown: the device manager, when there is one, is shut down with its framebuffers released and one destroy event |
| Demo.RendererShutdownAsWritten | src/Main.cpp:1063-1105 | The shutdown as written dereferences a null `Device` exactly when it was never assigned, and otherwise goes on like the guarded one |
| Demo.SystemShutdown | src/Main.cpp:1146-1162 | Exit code 0 exactly without a reason, 1 and the reason printed otherwise |
| Demo.SystemShutdownInjective | src/Main.cpp:1154-1161 | The exit code and printed line determine the reason |
| Demo.EarlyFailureCrashes | src/Main.cpp:599-625 | As written, `main` crashes exactly when `DeviceManager::Create` or device and swap-chain creation failed |
| Demo.MainExitCodes | src/Main.cpp:1165-1179 | With the guard, `main` always exits: 0 with "no issues" exactly after a successful start, 1 with "Couldn't initialise" after any failed one |
| Demo.GuardOnlyAffectsEarlyFailures | src/Main.cpp:1063-1105 | As written and guarded agree exactly when `Device` was assigned, that is once the swap chain exists |

## Left out

- Floating point: positions, normals, texcoords and colours are exact rationals. Float rounding of `/ 65536.0f` and `* 4.0f` is not modelled.
- The checkerboard's sine perturbation is an oracle `noise`. The float-to-byte truncation of the perturbed channels is inside that oracle.
- The glTF parse (`LoadFromBinary`) is an `Option<Document>` parameter whose `None` is the `std::system_error` the source catches. Accessors carry their decoded elements.
- Model.GltfInit, Model.LoadRenderModelFromGltf: any other exception the parse throws escapes both, since only `std::system_error` is caught and `LoadRenderModelFromGltf` has no handler of its own; the model does not represent it.
- Buffer views and byte offsets are left out; each accessor's bytes start at its data.
- `stbi_load` is an oracle `decode: string -> Option<Image>`. The decoded pixel bytes are not modelled.
- `std::filesystem::path` is reduced to `Texture.StripExtension` on '/'-separated paths, with its rules for dot-files, "." and "..". Platform separators and redundant or trailing separators are not modelled.
- The window, SDL, DPI scaling, `GetWindowFormat`, shader loading, pipeline and framebuffer creation, and the time uniform are left out. So are the glm matrices and the 16 ms frame pacing.
- Back-end hooks (`CreateDeviceAndSwapChain`, `ResizeSwapChain`, `BeginFrame`, `Present`, the back-buffer count and index) are abstract events or parameters.
- Console output other than the log lines and exit messages is left out. This includes the per-primitive and per-surface loading chatter.
- Undefined behaviour that depends on the input becomes a precondition (the dangling temporaries below, which occur on every call, are listed separately):
  - reading past an accessor's data (`Model.PrimitiveReadable`, `Demo.LegacyReadable`);
  - a primitive without POSITION, whose null accessor `NumElements` dereferences (src/Model.cpp:112 through line 39); `p.position.Some?` in `Model.PrimitiveReadable` and `Demo.LegacyReadable` excludes it;
  - a primitive without an index accessor, for which the glTF library's default index -1 makes both loaders read `accessors[-1]` (src/Model.cpp:106, src/Main.cpp:145); `Model.Primitive.indices` is not optional, so such a primitive cannot be written;
  - `meshes[0]` of an empty document;
  - division by zero in `NumElements` for an unknown accessor type;
  - `push_back` onto a full 32-entry texture list (`Model.Room`, `Model.Admissible`);
  - `TextureObjects[0]` when the -1 fallback meets an empty list.
- Texture.FindOrCreateMaterial: the texture descriptor is bound with `auto&` to the reference a setter returns on a temporary (src/Texture.cpp:146-156), so it dangles once that statement ends, and the debug-name assignment and `createTexture` then use a dead object. The model gives `CreateTexture` the descriptor the code evidently means, as if the temporary lived.
- Demo.ScenePass, Demo.ScreenPass: the `DrawArguments` passed to `drawIndexed` are bound the same way (src/Main.cpp:998-1000, 1025-1027) and dangle. The model records the index counts as if the temporaries lived. The same pattern in the single-file demo's texture and sampler descriptors (src/Main.cpp:797, 809) lies in creation code the model leaves out.
- Texture.MoveAssign: the move constructor's and destructor's memory handling (a moved-over target's old buffer leaks) is not modelled. Only field values are.
- Texture.RowBytes: the source multiplies as signed `int`, which would overflow above 2^31 - 1; the model does not represent that, which cannot happen since every texture has four one-byte components and a 16-bit width.
- Gltf.NumElements: does not state the exact quotient. `Gltf.NumElementsIsCount` states when it equals the count.
- Demo.RenderProtocol: the viewport, the bound buffers and the binding sets of each graphics state are not modelled. Only the pipeline and the target are.
- Demo.LegacyInit: the legacy loader has no try/catch, so a parse failure ends the program; the model takes a parsed document.
- DeviceManager.CreateWindowDeviceAndSwapChain: the back end's device creation result is a parameter, and a failure leaves the manager with the parameters stored.
- The legacy scene in the single-file demo also uploads its buffers through a transfer list. Its draw count is modelled in `Demo.ScenePass`, but the upload itself is not.

## Findings

| source | as written | input that shows it | evidently intended | confidence | as-written member | corrected member |
|---|---|---|---|---|---|---|
| src/Main.cpp:1099 | `Renderer::Shutdown` calls `Device->waitForIdle()` before its null check on `DeviceManager`, and `Device` is assigned only at line 628 | `DeviceManager::Create` returns null (line 600) or `CreateWindowDeviceAndSwapChain` fails (line 621): `main` then calls `System::Shutdown("Couldn't initialise")`, which dereferences the null `Device` | the wait is skipped without a device, so `main` exits with code 1 and prints the reason | high; not executed | Demo.RendererShutdownAsWritten, Demo.EarlyFailureCrashes | Demo.RendererShutdown, Demo.MainExitCodes |
