/** The driver-side vocabulary the core works with: 32-bit values, flag masks, formats, extents. */
module Vk {

  const UINT32_MAX: int := 0xFFFF_FFFF
  const U32_MODULUS: int := 0x1_0000_0000

  /** A `uint32_t`. */
  type U32 = x: int | 0 <= x < 0x1_0000_0000

  /** Flag masks (`vk::QueueFlags`, `vk::MemoryPropertyFlags`, `vk::FormatFeatureFlags`, ...). */
  type Flags = bv32

  // vk::QueueFlagBits
  const QUEUE_GRAPHICS: Flags := 0x1
  const QUEUE_COMPUTE: Flags := 0x2
  const QUEUE_TRANSFER: Flags := 0x4

  // vk::MemoryPropertyFlagBits
  const MEMORY_DEVICE_LOCAL: Flags := 0x1
  const MEMORY_HOST_VISIBLE: Flags := 0x2
  const MEMORY_HOST_COHERENT: Flags := 0x4

  // vk::FormatFeatureFlagBits
  const FEATURE_SAMPLED_IMAGE: Flags := 0x1
  const FEATURE_DEPTH_STENCIL_ATTACHMENT: Flags := 0x200

  // vk::ImageUsageFlagBits
  const USAGE_TRANSFER_SRC: Flags := 0x1
  const USAGE_TRANSFER_DST: Flags := 0x2
  const USAGE_SAMPLED: Flags := 0x4
  const USAGE_COLOR_ATTACHMENT: Flags := 0x10
  const USAGE_DEPTH_STENCIL_ATTACHMENT: Flags := 0x20

  /** `(mask & required) == required`: every bit of `required` is set in `mask`. */
  predicate Contains(mask: Flags, required: Flags)
  {
    mask & required == required
  }

  /** `mask & bits` is non-zero. */
  predicate Intersects(mask: Flags, bits: Flags)
  {
    mask & bits != 0
  }

  /** Bit `i` of `mask`, as `mask & (1 << i)` tests it. */
  predicate BitSet(mask: Flags, i: nat)
    requires i < 32
  {
    mask & ((1 as bv32) << i) != 0
  }

  datatype Extent2D = Extent2D(width: U32, height: U32)

  datatype Format =
    | Undefined
    | B8G8R8A8Unorm
    | R8G8B8A8Unorm
    | D32Sfloat
    | D32SfloatS8Uint
    | D24UnormS8Uint
    | OtherFormat(code: nat)

  datatype ColorSpace = SrgbNonlinear | OtherColorSpace(code: nat)

  datatype SurfaceFormat = SurfaceFormat(format: Format, colorSpace: ColorSpace)

  datatype PresentMode = Immediate | Mailbox | Fifo | FifoRelaxed

  datatype SurfaceCapabilities = SurfaceCapabilities(
    minImageCount: U32,
    maxImageCount: U32,
    currentExtent: Extent2D,
    minImageExtent: Extent2D,
    maxImageExtent: Extent2D,
    currentTransform: nat)

  /** An image handle handed out by the driver; only its identity matters here. */
  datatype Image = Image(id: nat)

  datatype ImageAspect = ColorAspect | DepthAspect

  /** An image view, identified by the 2D view parameters it was created with. */
  datatype ImageView = ImageView(
    image: Image,
    format: Format,
    identitySwizzle: bool,
    aspect: ImageAspect,
    baseMipLevel: nat,
    levelCount: nat,
    baseArrayLayer: nat,
    layerCount: nat)

  datatype RenderPass = RenderPass(id: nat)

  /** `vk::FramebufferCreateInfo`: the attachments in order, the size and the layer count. */
  datatype Framebuffer = Framebuffer(renderPass: RenderPass, attachments: seq<ImageView>, width: U32, height: U32, layers: nat)
}
