# Vulkan triangle renderer: a verified model of its core

This project models the host-side logic of a small Vulkan application that draws triangles, and of
the helper libraries it is built on: `ezvk`, the `throttle::graphics` wrappers, and the older `engine`
and `thengine` copies of the same code. The model covers:

- **Frame pacing** (`app/application.hpp`): two frames in flight, each with its own fence, command
  buffer and uniform buffer. A frame waits on its slot's fence, acquires an image, records the
  render pass, writes the uniform bytes, resets the fence and submits. It then presents and moves
  to the next slot. An out-of-date acquire or present rebuilds the swapchain and its framebuffers
  after the device goes idle. The fences, the slot state and the driver calls are a class whose
  methods keep a trace of events. The model proves that a fence is always reset immediately before
  the submission that signals it.
- **Swapchain parameters**: the surface format, present mode, extent and image count, the sharing
  mode, and the per-image colour views.
- **Memory**: the memory-type search (both the copy bounded by `memoryTypeCount` and the `ezvk` copy
  that scans all 32 slots), allocation info, buffers as byte arrays with the strided
  `copy_to_device`, the `upload_context` fence/command-buffer protocol, and framebuffers.
- **Queues and devices**: queue-family selection, the set intersection used to prefer a combined
  graphics+present family, physical-device suitability and selection, the logical-device queue
  requests, and instance extension/layer checks.
- **Pipeline resources**: the descriptor set layout and pool, the depth-format choice, and the
  staging decision for textures.
- **Utilities**: `find_all_missing`, `find_all_that_satisfy`, `trim`, `sizeof_container`.

Duplicated copies of the same function across the libraries are modelled once. Each member's row
cites one copy and names the others. Where the copies differ, each behaviour has its own member.

Driver objects become values: a `Result` stands for a thrown `std::runtime_error`, and driver
queries are inputs. These include memory properties, queue-family properties, surface support,
format features, extension and layer lists, the window size and the results of acquire and
present. Vulkan flag masks are `bv32` values. Unsigned 32-bit arithmetic is written out modulo
2^32 where the source relies on it.

An acquire that reports the swapchain out of date rebuilds it and returns without advancing the
frame slot. A present that reports suboptimal rebuilds the swapchain, and the frame slot still advances.

## Model

| member | source | states |
|---|---|---|
| Utils.FindIf | 02-geometry/02-vulkan/lib/thengine/src/wrappers/swapchain.cc:25-28 | the index found is the first element satisfying the predicate; none iff no element does |
| Utils.At | app/application.hpp:189 | bounds-checked access: succeeds iff the position is below the length, returns that element, otherwise an out-of-range error |
| Utils.FilterCount | include/utils.hpp:46-54 | the filtered list holds each satisfying value exactly as often as the input, and no other value |
| Utils.FilterShape | include/utils.hpp:46-54 | the filtered list is no longer than the input, holds exactly the satisfying elements, and is empty iff none satisfies |
| Utils.FilterConcat | include/utils.hpp:46-54 | filtering distributes over concatenation, so the input order is kept |
| Utils.FilterFront | include/ezvk/depth_buffer.hpp:52-54 | when some element satisfies, the front of the filtered list is the first satisfying element |
| Utils.FindAllThatSatisfy | include/utils.hpp:46-54 | the loop pushes exactly the filtered list, in input order |
| Utils.FindAllMissing | include/utils.hpp:33-44 | the loop returns exactly the requested values found in no element, in request order; the same code is at include/ezvk/utils.hpp:20-32 |
| Utils.MissingCount | include/utils.hpp:33-44 | a requested value appears among the missing ones as often as it was requested if absent, and never if present |
| Utils.MissingShape | include/utils.hpp:33-44 | a value is missing iff requested and not found; nothing is missing iff every request is found; the list is no longer than the request |
| Utils.LeadingSpaces | include/utils.hpp:58 | the count is a prefix of whitespace (space, tab, newline) followed by a non-space (or the end) |
| Utils.TrailingSpaces | include/utils.hpp:59 | the count is a suffix of whitespace (space, tab, newline) preceded by a non-space (or the start) |
| Utils.FindFirstNotOfIsLeading | include/utils.hpp:58 | `find_first_not_of(" \t\n")` is the leading-whitespace count, or `npos` when the string is all whitespace |
| Utils.FindLastNotOfIsTrailing | include/utils.hpp:59 | `find_last_not_of(" \t\n")` is the index just before the trailing whitespace, or `npos` when the string is all whitespace |
| Utils.SpacesBound | include/utils.hpp:56-61 | all-whitespace iff the leading (or trailing) count is the whole length; otherwise the two counts leave a non-empty middle |
| Utils.SubstrCountNoWrap | include/utils.hpp:60 | `last - first + 1` computed in `size_t` equals the mathematical count when no wrap-around occurs |
| Utils.TrimAsWritten | include/utils.hpp:56-61 | as written: empty stays empty, a non-empty all-whitespace string keeps its first character, otherwise the middle between leading and trailing whitespace |
| Utils.Trim | include/utils.hpp:56-61 | the trimmed string starts and ends with non-whitespace or is empty; all-whitespace gives the empty string; otherwise the middle |
| Utils.TrimIdempotent | include/utils.hpp:56-61 | trimming twice equals trimming once |
| Utils.TrimAsWrittenKeepsWhitespace | include/utils.hpp:60 | for `"  "` the code as written returns `" "`, while the trim intended returns `""` |
| Utils.FlattenLength | include/utils.hpp:63-65 | the bytes of a container of equal-sized elements number `sizeof(T) * size()` |
| Utils.FlattenAt | include/ezvk/memory.hpp:153-155 | byte `k` of element `i` lies at offset `elemSize * i + k` of the contiguous bytes |
| Memory.FirstQualifying | src/memory.cc:15-22 | the index found qualifies (filter bit set, all requested property flags present) and no lower index in range does; none iff none in range does |
| Memory.FindMemoryType | src/memory.cc:15-22 | the first qualifying type below `memoryTypeCount`, or the "no suitable memory type" error iff none exists; the same code is at 02-geometry/02-vulkan/lib/thengine/include/wrappers/memory.hpp:53-60 and 02-geometry/02-vulkan/lib/engine/include/memory.hpp:54-61 |
| Memory.FindMemoryTypeAllSlots | include/ezvk/memory.hpp:37-47 | the `ezvk` search over all 32 slots returns the first qualifying slot, or the error when none does |
| Memory.FirstQualifyingPrefix | include/ezvk/memory.hpp:37-47 | a hit below a bound stays the hit when the bound grows |
| Memory.AllSlotsAgree | include/ezvk/memory.hpp:37-47 | when the filter has no bit at or above `memoryTypeCount`, the 32-slot search and the bounded search agree |
| Memory.AllSlotsCanPickUnusedSlot | include/ezvk/memory.hpp:37-47 | with one valid type and a filter bit above it, the 32-slot search succeeds with an unused slot while the bounded search fails |
| Memory.AllocateDeviceMemory | src/memory.cc:24-34 | the allocation size is the requirement's size and the type is the first qualifying one; the error iff no type qualifies; the same code is at 02-geometry/02-vulkan/lib/engine/include/memory.hpp:81-89 and 02-geometry/02-vulkan/lib/thengine/include/wrappers/memory.hpp:102-113 |
| Memory.AllocateDeviceMemoryAllSlots | include/ezvk/memory.hpp:49-56 | as above, with the type from the 32-slot search |
| Memory.LeastIsFirst | src/memory.cc:15-22 | any result meeting the search's contract is the one `FirstQualifying` gives |
| Buffers.Write | include/ezvk/memory.hpp:153-155 | writing bytes at an offset changes exactly that range to those bytes and keeps the length |
| Buffers.WriteConcat | include/ezvk/memory.hpp:153-155 | two adjacent writes equal one write of the concatenation |
| Buffers.Contiguous | include/ezvk/memory.hpp:153-155 | when the stride equals the element size, the strided copy is one copy of the flattened bytes |
| Buffers.Memcpy | include/ezvk/memory.hpp:159 | the array afterwards is the old contents with the source bytes written at the offset |
| Buffers.StridedAt | include/ezvk/memory.hpp:157-161 | in the strided copy, byte `k` of slot `q` is byte `k` of element `q` when it exists and lies inside the element, otherwise the old byte; the same code is at include/wrappers/memory.hpp:89-98 |
| Buffers.StridedBeyond | include/ezvk/memory.hpp:151-161 | bytes past the last slot are untouched |
| Buffers.DeviceBuffer.constructor | include/ezvk/memory.hpp:132-138 | a buffer with the given size and usage, bound to a fresh allocation of the allocation's size |
| Buffers.DeviceBuffer.CopyToDevice | include/ezvk/memory.hpp:148-164 | element `i` is copied to offset `stride * i`; the memory afterwards is the strided copy of the old contents; the same code is at include/wrappers/memory.hpp:89-98 |
| Buffers.DeviceBuffer.CopyValue | include/ezvk/memory.hpp:166 | a single value is written at offset 0 and nothing else changes; the same code is at include/wrappers/memory.hpp:100 |
| Buffers.DeviceBuffer.Update | 02-geometry/02-vulkan/lib/thengine/include/wrappers/memory.hpp:95-100 | the container's bytes are written at offset 0 |
| Buffers.UpdateFootprint | 02-geometry/02-vulkan/lib/thengine/include/wrappers/memory.hpp:95-100 | the write covers exactly `sizeof_vector` bytes: byte `p` is the data's byte below that size, the old byte above it |
| Buffers.NewDeviceBuffer | include/ezvk/memory.hpp:132-138 | fails iff no memory type qualifies; otherwise a fresh valid buffer of the given size and usage, with zeroed memory of the required size and the chosen type; the same code is at include/wrappers/memory.hpp:67-76 |
| Buffers.NewDeviceBufferWithData | include/ezvk/memory.hpp:141-146 | a buffer sized `sizeof_container(data)` whose memory starts with the data's bytes; fails iff no type qualifies; the same code is at include/wrappers/memory.hpp:78-87 and 02-geometry/02-vulkan/lib/thengine/include/wrappers/memory.hpp:81-93 |
| Buffers.NewDeviceBuffers | include/ezvk/memory.hpp:175-184 | `count` fresh, pairwise distinct buffers with their own memory, each of the given size; fails iff `count > 0` and no type qualifies; the same code is at include/wrappers/memory.hpp:111-121 |
| Buffers.NewBuffersSizedByCount | 02-geometry/02-vulkan/lib/thengine/include/wrappers/memory.hpp:116-127 | the `thengine` copy passes the count as each buffer's size: `count` distinct buffers, each of size `count` |
| Buffers.MakeFramebuffers | include/ezvk/memory.hpp:65-97 | one framebuffer per image view, in order, of the extent and render pass, attached to its view and to the depth view when one is given; the same code is at include/wrappers/memory.hpp:25-40 and 02-geometry/02-vulkan/lib/thengine/include/wrappers/memory.hpp:29-45 |
| Buffers.AllocateFrameBuffers | 02-geometry/02-vulkan/lib/engine/include/memory.hpp:26-46 | the `engine` copy sizes the framebuffers by the surface extent it is given |
| Buffers.FramebufferAtView | include/ezvk/memory.hpp:99 | checked access to framebuffer `i` succeeds iff `i` is below the view count, and its first attachment is view `i` |
| Queues.FindFamilyIndicesWithQueueType | include/ezvk/queues.hpp:31-42 | the ascending list of exactly the families whose flags include the queue bits |
| Queues.FindPresentFamilyIndices | include/ezvk/queues.hpp:48-58 | the ascending list of exactly the families that can present to the surface |
| Queues.StrictlyIncreasingUnique | include/ezvk/queues.hpp:31-58 | two ascending lists with the same elements are equal |
| Queues.SetIntersection | app/application.hpp:146-148 | `std::set_intersection` of two ascending lists: ascending, and holds exactly the common elements |
| Queues.FindGraphicsFamilyIndex | 02-geometry/02-vulkan/lib/engine/include/queue_families.hpp:21-28 | the first graphics-capable family, or the "no graphics family" error iff there is none; the same code is at 02-geometry/02-vulkan/lib/thengine/src/wrappers/queue_families.cc:16-25 |
| Queues.GraphicsAndPresent | 02-geometry/02-vulkan/lib/engine/include/queue_families.hpp:30-37 | the first graphics family and, independently, the first presenting family, with the error of whichever lookup fails first; it succeeds iff some family has graphics and some family can present; the same code is at 02-geometry/02-vulkan/lib/thengine/src/wrappers/queue_families.cc:28-38 |
| Queues.FindGraphicsAndPresentFamilyIndices | 02-geometry/02-vulkan/lib/engine/include/queue_families.hpp:30-37 | the loops return exactly `GraphicsAndPresent` |
| Queues.GraphicsFrontIsFirst | include/ezvk/queues.hpp:44-46 | the front of the graphics index list is the first graphics family; the list is empty iff there is none |
| Queues.NoPreferenceForCombinedFamily | 02-geometry/02-vulkan/lib/engine/include/queue_families.hpp:30-37 | when family 1 is the only one that does both, the pair chosen is still (0, 1) |
| Queues.MakeDeviceQueue | include/ezvk/queues.hpp:77-84 | the queue of the given family and index, remembering both |
| Queues.SeparateGraphicsPresentQueues | include/ezvk/queues.hpp:96-103 | graphics and present are the queues requested; distinct requests give distinct queues |
| Queues.SingleGraphicsPresentQueues | include/ezvk/queues.hpp:110-115 | graphics and present are one and the same queue |
| Queues.SeparateOfSameIsSingle | include/ezvk/queues.hpp:92-115 | separate queues of one family and index behave as the single queue |
| Queues.MakeEngineQueues | 02-geometry/02-vulkan/lib/engine/include/queue_families.hpp:45-52 | fails exactly when the family lookup fails; otherwise it holds the two indices and queue 0 of each family |
| Swapchain.ChooseSurfaceFormat | 02-geometry/02-vulkan/lib/thengine/src/wrappers/swapchain.cc:22-30 | BGRA8 unorm with sRGB non-linear when offered, otherwise the first format; the same code is at 02-geometry/02-vulkan/lib/engine/include/swapchain.hpp:91-96 |
| Swapchain.ChoosePresentMode | 02-geometry/02-vulkan/lib/thengine/src/wrappers/swapchain.cc:32-39 | mailbox iff offered, otherwise FIFO; the same code is at 02-geometry/02-vulkan/lib/engine/include/swapchain.hpp:98-103 |
| Swapchain.Clamp | 02-geometry/02-vulkan/lib/thengine/src/wrappers/swapchain.cc:45-46 | `min(hi, max(lo, x))` is at most `hi`, at least `lo` when `lo <= hi`, `x` inside the range, and the nearer bound outside it |
| Swapchain.ClampIdempotent | 02-geometry/02-vulkan/lib/thengine/src/wrappers/swapchain.cc:45-46 | clamping twice equals clamping once |
| Swapchain.ChooseExtent | 02-geometry/02-vulkan/lib/thengine/src/wrappers/swapchain.cc:41-48 | the current extent unless its width is `UINT32_MAX`; otherwise the requested size clamped to the allowed range per dimension; the same code is at 02-geometry/02-vulkan/lib/engine/include/swapchain.hpp:105-120 |
| Swapchain.ChooseExtentInRange | 02-geometry/02-vulkan/lib/engine/include/swapchain.hpp:110-119 | with no current extent and a non-empty range, the extent chosen is in range, and a request in range is kept |
| Swapchain.ChooseExtentIdempotent | 02-geometry/02-vulkan/lib/engine/include/swapchain.hpp:105-120 | choosing again from the chosen extent changes nothing |
| Swapchain.ImageCountAsWritten | 02-geometry/02-vulkan/lib/engine/include/swapchain.hpp:39 | as written, `max(maxImageCount, minImageCount + 1)` in 32 bits: at least the maximum and (without wrap) above the minimum; the same code is at include/wrappers/swapchain.hpp:40 |
| Swapchain.ImageCountAsWrittenExceedsMax | 02-geometry/02-vulkan/lib/engine/include/swapchain.hpp:39 | when the minimum equals a non-zero maximum, the count requested is maximum + 1 and not acceptable to the surface |
| Swapchain.ImageCountAsWrittenExample | 02-geometry/02-vulkan/lib/engine/include/swapchain.hpp:39 | with minimum = maximum = 3 the count requested is 4 |
| Swapchain.ImageCount | 02-geometry/02-vulkan/lib/engine/include/swapchain.hpp:39 | the corrected count: minimum + 1 capped by a non-zero maximum, always acceptable for valid capabilities, and minimum + 1 when the maximum leaves room |
| Swapchain.SharingFor | 02-geometry/02-vulkan/lib/engine/include/swapchain.hpp:52-59 | concurrent sharing over `[graphics, present]` iff the families differ, exclusive otherwise; the same code is at include/wrappers/swapchain.hpp:48-56 |
| Swapchain.CreateImageViews | 02-geometry/02-vulkan/lib/engine/include/swapchain.hpp:65-82 | one 2D colour view per swapchain image, in order, of the chosen format; the same code is at include/wrappers/swapchain.hpp:63-84 |
| Swapchain.NewSwapchain | include/wrappers/swapchain.hpp:32-85 | fails iff the family lookup fails; otherwise the create info carries the chosen format, colour space, present mode and extent, the image count as the code computes it (`max(maxImageCount, minImageCount + 1)`), colour-attachment usage, sharing by families, current transform, opaque alpha and clipping, with one view per image; the same code is at 02-geometry/02-vulkan/lib/engine/include/swapchain.hpp:31-83 |
| Device.DeviceSupportsExtensions | src/device.cc:23-31 | the set-erase loop leaves the set empty iff every required extension is offered; the same code is at 02-geometry/02-vulkan/lib/thengine/src/wrappers/device.cc:23-31 and 02-geometry/02-vulkan/lib/thengine/include/engine/device.hpp:25-32 and 02-geometry/02-vulkan/lib/engine/include/device.hpp:20-27 |
| Device.OffersAllBySet | src/device.cc:23-31 | the verdict depends only on the set of required names, not their order or repetition |
| Device.IsDeviceSuitable | src/device.cc:33-37 | suitable iff the swapchain extension is offered; the same code is at 02-geometry/02-vulkan/lib/engine/include/device.hpp:29-32 |
| Device.PickPhysicalDevice | src/device.cc:39-47 | the first suitable device in enumeration order; the null handle iff no device is suitable; the same code is at 02-geometry/02-vulkan/lib/thengine/include/engine/device.hpp:39-45 and 02-geometry/02-vulkan/lib/engine/include/device.hpp:34-40 |
| Device.Ascending | src/device.cc:52-64 | iterating a `std::set` visits each element once, in ascending order |
| Device.AscendingPair | src/device.cc:52-64 | iterating the set of the graphics and present indices gives one or two families, ascending |
| Device.CreateDevice | src/device.cc:49-79 | fails with the family lookup's error; otherwise one queue of count 1 per distinct family, ascending, no layers, and exactly the swapchain extension; the same code is at 02-geometry/02-vulkan/lib/thengine/include/engine/device.hpp:47-72 |
| Device.QueueRequestCount | src/device.cc:52-64 | one queue request when graphics and present share a family, otherwise two, covering both |
| Device.FoundIsOffers | include/ezvk/device.hpp:26-32 | `find_all_missing`'s membership test on extension names is "the device offers it" |
| Device.SupportsExtensions | include/ezvk/device.hpp:26-32 | the names the device lacks, in request order, and a flag true iff that list is empty, iff all are offered |
| Device.EnumerateSuitablePhysicalDevices | include/ezvk/device.hpp:34-44 | exactly the enumerated devices that support every requested extension, in enumeration order |
| Device.SuitableDevices | include/ezvk/device.hpp:34-44 | a device is kept iff it is enumerated and supports all the extensions, and as many times as it is enumerated |
| Instance.GetRequiredExtensions | 02-geometry/02-vulkan/lib/thengine/src/wrappers/instance.cc:20-28 | the windowing library's extensions followed by the debug-utils extension; the same code is at 02-geometry/02-vulkan/lib/engine/include/instance.hpp:22-28 |
| Instance.GetRequiredLayers | 02-geometry/02-vulkan/lib/engine/include/instance.hpp:31-33 | exactly the Khronos validation layer |
| Instance.NamesSupported | 02-geometry/02-vulkan/lib/engine/include/instance.hpp:36-46 | the nested loop returns true iff every requested name equals some supported name |
| Instance.ExtensionsSupported | 02-geometry/02-vulkan/lib/thengine/src/wrappers/instance.cc:30-45 | true iff every requested extension is reported by the loader; the same code is at 02-geometry/02-vulkan/lib/engine/include/instance.hpp:36-46 |
| Instance.LayersSupported | 02-geometry/02-vulkan/lib/thengine/src/wrappers/instance.cc:47-62 | true iff every requested layer is reported by the loader; the same code is at 02-geometry/02-vulkan/lib/engine/include/instance.hpp:49-59 |
| Instance.IsSupported | 02-geometry/02-vulkan/lib/thengine/src/wrappers/instance.cc:65-67 | both checks hold; the same code is at 02-geometry/02-vulkan/lib/engine/include/instance.hpp:62-65 |
| Instance.CreateInstance | 02-geometry/02-vulkan/lib/thengine/src/wrappers/instance.cc:69-95 | refused iff some required extension or layer is unsupported; otherwise enables all of them and uses the loader version throughout; the same code is at 02-geometry/02-vulkan/lib/engine/include/instance.hpp:75-93 |
| Instance.AllSupportedConcat | 02-geometry/02-vulkan/lib/thengine/src/wrappers/instance.cc:30-45 | support of a concatenated request list is support of both parts |
| Instance.CreateInstanceCondition | 02-geometry/02-vulkan/lib/thengine/src/wrappers/instance.cc:81-86 | creation succeeds iff the windowing extensions, the debug-utils extension and the validation layer are all supported |
| Pipeline.CreateDescriptorSetLayout | src/pipeline.cc:15-27 | binding `k` gets number `k` and the data's type, count and stages; the count is the number of bindings |
| Pipeline.LayoutBindingsValid | src/pipeline.cc:15-27 | for fewer than 2^32 entries the binding numbers are exactly 0..n-1 and the layout is valid (count matches, numbers distinct) |
| Pipeline.CreateDescriptorSetLayoutAsWritten | 02-geometry/02-vulkan/lib/thengine/include/wrappers/pipeline.hpp:40-54 | as written: `n` default bindings followed by the `n` real ones, with a count of `2n` |
| Pipeline.AsWrittenLayoutInvalid | 02-geometry/02-vulkan/lib/thengine/include/wrappers/pipeline.hpp:43 | the as-written layout has `2n` entries, entries 0 and `n` both use binding number 0, so the layout is not valid |
| Pipeline.AccumulateIsSum | src/pipeline.cc:32-34 | accumulation in 32 bits is the sum of the descriptor counts modulo 2^32 |
| Pipeline.CreateDescriptorPool | src/pipeline.cc:29-40 | `maxSets` is the sum of the descriptor counts (exact when below 2^32, 0 for no sizes); the pool holds the given sizes and allows freeing sets; the same code is at 02-geometry/02-vulkan/lib/thengine/include/wrappers/pipeline.hpp:56-68 |
| Pipeline.NewDescriptorSetData | 02-geometry/02-vulkan/lib/thengine/include/wrappers/pipeline.hpp:31-37 | the corrected layout is valid: a vertex-stage uniform buffer at binding 0 and a fragment-stage combined image sampler at binding 1; the pool holds one descriptor of each kind, allows freeing sets, and has `maxSets` 2 |
| Pipeline.DescriptorSetDataAsWritten | 02-geometry/02-vulkan/lib/thengine/include/wrappers/pipeline.hpp:31-54 | as written, the layout holds two default bindings numbered 0, then the uniform buffer at 0 and the sampler at 1 |
| Images.FindDepthFormat | include/ezvk/depth_buffer.hpp:41-55 | the first of D32, D32S8 and D24S8 whose optimal tiling supports depth-stencil attachment |
| Images.NewDepthBuffer | include/ezvk/depth_buffer.hpp:27-39 | an optimal-tiled, device-local depth-stencil image of the extent with depth 1, in the chosen format, with a view of that format |
| Images.StagingSize | 02-geometry/02-vulkan/lib/thengine/include/wrappers/texture.hpp:46 | the corrected staging size is 4 bytes per texel of a `width x height` image |
| Images.NewTextureData | 02-geometry/02-vulkan/lib/thengine/include/wrappers/texture.hpp:21-59 | staging iff forced or linear tiling lacks a required feature (sampling included); then optimal, undefined, transfer-source and a staging buffer of `width * width * 4` bytes as the code sizes it; otherwise linear, preinitialised and host-visible; always sampled |
| Images.StagingSizeAsWrittenTooSmall | 02-geometry/02-vulkan/lib/thengine/include/wrappers/texture.hpp:46 | as written, a texture taller than wide stages into fewer bytes than it has; 128 x 256 gives 65536 for 131072 |
| Images.StagingSizeFits | 02-geometry/02-vulkan/lib/thengine/include/wrappers/texture.hpp:46 | the corrected size agrees with the as-written one on square images that fit in 32 bits |
| Upload.UploadContext.constructor | include/ezvk/memory.hpp:211-222 | a fresh context is idle: the fence is created unsignaled and the command buffer is initial |
| Upload.UploadContext.BeginCommandBuffer | include/ezvk/memory.hpp:225 | recording starts only from the initial state |
| Upload.UploadContext.RunRecorder | include/ezvk/memory.hpp:226 | the recorder's commands are appended while recording |
| Upload.UploadContext.EndCommandBuffer | include/ezvk/memory.hpp:227 | recording ends and the buffer becomes executable with its commands |
| Upload.UploadContext.SubmitToTransferQueue | include/ezvk/memory.hpp:228-230 | an executable buffer is submitted with an unsignaled, unused fence, which becomes pending |
| Upload.UploadContext.WaitForFence | include/ezvk/memory.hpp:232 | waiting needs a signaled or pending fence and leaves it signaled |
| Upload.UploadContext.ResetUploadFence | include/ezvk/memory.hpp:233 | the fence is reset only when no submission is pending |
| Upload.UploadContext.ResetUploadCommandBuffer | include/ezvk/memory.hpp:234 | the buffer returns to its initial state when no submission is pending |
| Upload.UploadContext.ImmediateSubmit | include/ezvk/memory.hpp:224-235 | from idle back to idle, with exactly the recorded commands submitted once and the driver calls in order |
| Application.RenderCommandsDraws | app/application.hpp:211-214 | the only draw recorded is of all loaded vertices, and only once triangles are loaded |
| Application.RenderCommandsShape | app/application.hpp:194-216 | the commands begin with the render pass on the image's framebuffer and extent, and end by closing it; the vertex buffer is bound iff triangles are loaded |
| Application.Completed | app/application.hpp:234 | `waitIdle`: every pending fence is signaled, and nothing else changes |
| Application.ResetThenSubmitConcat | app/application.hpp:288-289 | the reset-then-submit discipline is preserved when traces are joined |
| Application.FrameEventsProtocol | app/application.hpp:257-289 | a frame waits on its fence first, and resets it immediately before the submission that signals it |
| Application.App.constructor | app/application.hpp:110-128 | a fresh application: every slot's fence signaled, frame 0, nothing loaded, the given swapchain, render pass and uniform buffers |
| Application.App.InitializeSyncPrimitives | app/application.hpp:172-178 | one signaled fence per frame in flight |
| Application.App.LoadTriangles | app/application.hpp:134-139 | the vertex count is recorded, and a fresh vertex buffer holds the vertices' bytes; fails iff no memory type qualifies, and then nothing is loaded |
| Application.App.FillCommandBuffer | app/application.hpp:180-220 | fails iff the image index has no framebuffer; otherwise the render-pass commands with one draw of all vertices iff loaded |
| Application.App.WaitForSlotFence | app/application.hpp:259 | the slot's fence is signaled afterwards; waiting needs a fence that will signal |
| Application.App.RecordSlot | app/application.hpp:275 | the slot's command buffer holds the given commands |
| Application.App.ResetSlotFence | app/application.hpp:288 | the slot's fence is reset; only when no submission is pending on it |
| Application.App.SubmitSlot | app/application.hpp:289 | submission needs an unsignaled, unused fence and recorded commands, and makes the fence pending |
| Application.App.RecreateSwapChain | app/application.hpp:222-240 | waits for a non-zero window size, idles the device, rebuilds the swapchain from that size and the old handle, and makes fresh framebuffers from its views |
| Application.App.SubmitFrame | app/application.hpp:275-295 | records the commands, writes the uniform bytes of the slot's buffer, resets and submits, so the slot holds the commands with a pending fence |
| Application.App.BeginFrame | app/application.hpp:257-273 | waits on the current slot's fence and acquires an image |
| Application.App.PresentAndAdvance | app/application.hpp:297-308 | presents, rebuilds the swapchain on out-of-date or suboptimal, and advances the slot modulo 2 |
| Application.App.DrawFrame | app/application.hpp:275-308 | an invalid image index is an error; otherwise submit, present and advance as above |
| Application.App.RenderFrame | app/application.hpp:257-309 | an out-of-date acquire rebuilds without advancing or writing; otherwise a frame is recorded, its uniform bytes written, the fence reset then submitted, and the slot advances |
| Application.InitializeLogicalDeviceQueues | app/application.hpp:142-170 | picks a family that does both graphics and presentation when one exists (the least such); otherwise the first graphics and the first presenting family |

## Left out

- Semaphores (image-available, render-finished) are not modelled. Only fences order host and GPU work here.
- GPU execution is not modelled. A pending submission completes when something waits on its fence.
- The floating-point values are left out: the clear colour, the viewport, the scissor and the camera/MVP matrix. The uniform data is an opaque byte sequence.
- The window system is left out: GLFW, `glfwWaitEvents` and the resize callback. The sizes the window reports while `recreate_swap_chain` waits form an input sequence, and some size in it must be non-zero. The unbounded wait is not modelled.
- The `ezvk::swapchain` constructor is a `build` parameter of the application methods. include/ezvk/swapchain.hpp is not part of this model. The wrappers' swapchain construction is modelled by `Swapchain.NewSwapchain`.
- `make_graphics_present_queues` is not modelled: its source is not part of this model. The two queue classes it chooses between are modelled.
- The application's uniform buffers are constructor inputs. Their creation is modelled by `Buffers.NewDeviceBuffers`.
- The descriptor set allocation, the graphics pipeline, the shaders, the render pass and the command pool are handles only.
- The driver allocation itself is not modelled: fresh device memory is zero bytes. `mapMemory` and `unmapMemory` are not modelled; the mapped range is the buffer's byte array.
- Concurrency and multiple threads are not modelled.
- `depth_buffer`'s extra constructor arguments and the C-enum conversions are not modelled.
- Images.FindDepthFormat: `find_depth_format` passes a fourth argument, `vk::ImageAspectFlagBits::eDepth`, to the three-parameter `find_all_that_satisfy` (include/ezvk/depth_buffer.hpp:52-53, include/utils.hpp:46). The model calls the three-parameter filter and drops that argument.
- The unchecked `operator[]` of the wrappers' `framebuffers` and `device_buffers` (include/wrappers/memory.hpp:42 and 121) has no member of its own. It is plain sequence indexing `s[i]`, and Dafny's `i < |s|` obligation is the caller's duty the source leaves unchecked. Only the checked `ezvk` access (`Buffers.FramebufferAtView`) is modelled.
- Logging, the debug messenger, and validation-layer callbacks are not modelled.
- Device.SupportsExtensions: `enumerate_suitable_physical_devices` tests the result pair's truth value. The model uses the pair's first component for that test.
- Application.App.RecreateSwapChain: the framebuffers are built from the views of the new swapchain. That swapchain comes from the `build` parameter, so its own properties are not stated here.

## Findings

| source | as written | input that shows it | evidently intended | confidence | as-written member | corrected member |
|---|---|---|---|---|---|---|
| 02-geometry/02-vulkan/lib/engine/include/swapchain.hpp:39 | image count `max(maxImageCount, minImageCount + 1)` | minImageCount = maxImageCount = 3 requests 4 images, more than the surface allows | `minImageCount + 1` capped by a non-zero `maxImageCount` | not executed | Swapchain.ImageCountAsWritten, Swapchain.ImageCountAsWrittenExceedsMax, Swapchain.ImageCountAsWrittenExample, Swapchain.NewSwapchain | Swapchain.ImageCount |
| include/utils.hpp:60 | `substr(first, last - first + 1)` with both positions `npos` on an all-whitespace string | `"  "` trims to `" "` | an all-whitespace string trims to `""` | not executed | Utils.TrimAsWritten, Utils.TrimAsWrittenKeepsWhitespace | Utils.Trim, Utils.TrimIdempotent |
| 02-geometry/02-vulkan/lib/thengine/include/wrappers/pipeline.hpp:43 | the bindings vector is constructed with `n` default entries and the real bindings are pushed after them | one uniform binding gives two bindings numbered 0 and a count of 2 | exactly `n` bindings numbered 0..n-1 | not executed | Pipeline.CreateDescriptorSetLayoutAsWritten, Pipeline.AsWrittenLayoutInvalid, Pipeline.DescriptorSetDataAsWritten | Pipeline.CreateDescriptorSetLayout, Pipeline.LayoutBindingsValid, Pipeline.NewDescriptorSetData |
| 02-geometry/02-vulkan/lib/thengine/include/wrappers/texture.hpp:46 | staging size `width * width * 4` | a 128 x 256 texture stages into 65536 bytes where 131072 are needed | `width * height * 4` | not executed | Images.StagingSizeAsWritten, Images.StagingSizeAsWrittenTooSmall, Images.NewTextureData | Images.StagingSize, Images.StagingSizeFits |

The two constructors that contain the image-count and staging-size expressions request what the code
computes. The corrected count and size are stated and proved beside them, as functions a fixed constructor would
call in place of the as-written ones.
