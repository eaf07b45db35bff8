/**
 * Swapchain parameter selection: surface format, present mode, extent, image count and sharing
 * mode, and the one-view-per-image construction of `swapchain_data` / `swapchain_wrapper`.
 */
module Swapchain {
  import opened Wrappers
  import opened Vk
  import opened Utils
  import opened Queues

  // ---------------------------------------------------------------------------------------------
  // The three selectors

  predicate IsPreferred(f: SurfaceFormat)
  {
    f.format == B8G8R8A8Unorm && f.colorSpace == SrgbNonlinear
  }

  /** `(B8G8R8A8Unorm, SrgbNonlinear)`, the only format the selector looks for. */
  const PREFERRED_FORMAT := SurfaceFormat(B8G8R8A8Unorm, SrgbNonlinear)

  /**
   * `choose_swapchain_surface_format`: the preferred pair if the surface offers it, wherever it sits
   * in the list, and otherwise the first format offered. The list must not be empty.
   */
  function ChooseSurfaceFormat(formats: seq<SurfaceFormat>): (r: SurfaceFormat)
    requires |formats| > 0
    ensures (exists i :: 0 <= i < |formats| && IsPreferred(formats[i])) ==> r == PREFERRED_FORMAT
    ensures (forall i :: 0 <= i < |formats| ==> !IsPreferred(formats[i])) ==> r == formats[0]
  {
    match FindIf(formats, IsPreferred)
    case Some(i) => formats[i]
    case None => formats[0]
  }

  /** `choose_swapchain_present_mode`: Mailbox when offered, otherwise FIFO, which need not be listed. */
  function ChoosePresentMode(modes: seq<PresentMode>): (r: PresentMode)
    ensures r == Mailbox <==> Mailbox in modes
    ensures r != Mailbox ==> r == Fifo
  {
    match FindIf(modes, (m: PresentMode) => m == Mailbox)
    case Some(i) => modes[i]
    case None => Fifo
  }

  function Min(a: U32, b: U32): U32 { if a <= b then a else b }
  function Max(a: U32, b: U32): U32 { if a >= b then a else b }

  /** `std::min(hi, std::max(lo, x))`. */
  function Clamp(lo: U32, hi: U32, x: U32): (r: U32)
    ensures r <= hi
    ensures lo <= hi ==> lo <= r
    ensures lo <= x <= hi ==> r == x
    ensures x < lo <= hi ==> r == lo
    ensures hi < x ==> r == hi
  {
    Min(hi, Max(lo, x))
  }

  /** Clamping twice is clamping once, even for an inverted range (`lo > hi` gives `hi` both times). */
  lemma ClampIdempotent(lo: U32, hi: U32, x: U32)
    ensures Clamp(lo, hi, Clamp(lo, hi, x)) == Clamp(lo, hi, x)
  {
  }

  /** `UINT32_MAX` in the current width means the surface lets the swapchain choose its size. */
  predicate ExtentUnspecified(caps: SurfaceCapabilities)
  {
    caps.currentExtent.width == UINT32_MAX
  }

  /**
   * `choose_swapchain_extent`: the current extent verbatim unless its width is the sentinel (the
   * height is not tested); otherwise the requested size clamped into the allowed range component-wise.
   */
  function ChooseExtent(requested: Extent2D, caps: SurfaceCapabilities): (r: Extent2D)
    ensures !ExtentUnspecified(caps) ==> r == caps.currentExtent
    ensures ExtentUnspecified(caps) ==>
      r.width == Clamp(caps.minImageExtent.width, caps.maxImageExtent.width, requested.width) &&
      r.height == Clamp(caps.minImageExtent.height, caps.maxImageExtent.height, requested.height)
  {
    if caps.currentExtent.width != UINT32_MAX then caps.currentExtent
    else
      Extent2D(Min(caps.maxImageExtent.width, Max(caps.minImageExtent.width, requested.width)),
               Min(caps.maxImageExtent.height, Max(caps.minImageExtent.height, requested.height)))
  }

  predicate InRange(e: Extent2D, caps: SurfaceCapabilities)
  {
    caps.minImageExtent.width <= e.width <= caps.maxImageExtent.width &&
    caps.minImageExtent.height <= e.height <= caps.maxImageExtent.height
  }

  predicate RangeNonEmpty(caps: SurfaceCapabilities)
  {
    caps.minImageExtent.width <= caps.maxImageExtent.width && caps.minImageExtent.height <= caps.maxImageExtent.height
  }

  /** With the sentinel and a non-empty range, the chosen extent lies in the range, and an in-range request is kept. */
  lemma ChooseExtentInRange(requested: Extent2D, caps: SurfaceCapabilities)
    requires ExtentUnspecified(caps) && RangeNonEmpty(caps)
    ensures InRange(ChooseExtent(requested, caps), caps)
    ensures InRange(requested, caps) ==> ChooseExtent(requested, caps) == requested
  {
  }

  /** Choosing again with the previous result as the request returns the same extent. */
  lemma ChooseExtentIdempotent(requested: Extent2D, caps: SurfaceCapabilities)
    ensures ChooseExtent(ChooseExtent(requested, caps), caps) == ChooseExtent(requested, caps)
  {
    if ExtentUnspecified(caps) {
      ClampIdempotent(caps.minImageExtent.width, caps.maxImageExtent.width, requested.width);
      ClampIdempotent(caps.minImageExtent.height, caps.maxImageExtent.height, requested.height);
    }
  }

  // ---------------------------------------------------------------------------------------------
  // Image count

  /**
   * The image count both swapchain constructors request, `std::max(maxImageCount, minImageCount + 1)`
   * in `uint32_t` arithmetic: never below the maximum, so above it whenever the maximum is not more
   * than the minimum.
   */
  function ImageCountAsWritten(caps: SurfaceCapabilities): (r: U32)
    ensures r >= caps.maxImageCount
    ensures caps.minImageCount < UINT32_MAX ==> r >= caps.minImageCount + 1
    ensures r == caps.maxImageCount || r == (caps.minImageCount + 1) % U32_MODULUS
  {
    Max(caps.maxImageCount, (caps.minImageCount + 1) % U32_MODULUS)
  }

  /** A count the surface accepts: at least the minimum, and not above a non-zero maximum. */
  predicate AcceptableImageCount(caps: SurfaceCapabilities, count: int)
  {
    caps.minImageCount <= count && (caps.maxImageCount != 0 ==> count <= caps.maxImageCount)
  }

  /** When the minimum equals a non-zero maximum, the count as written exceeds the maximum. */
  lemma ImageCountAsWrittenExceedsMax(caps: SurfaceCapabilities)
    requires caps.maxImageCount != 0 && caps.minImageCount == caps.maxImageCount < UINT32_MAX
    ensures ImageCountAsWritten(caps) == caps.maxImageCount + 1
    ensures !AcceptableImageCount(caps, ImageCountAsWritten(caps))
  {
  }

  /** A surface with `minImageCount == maxImageCount == 3` is asked for 4 images. */
  lemma ImageCountAsWrittenExample()
    ensures ImageCountAsWritten(SurfaceCapabilities(3, 3, Extent2D(800, 600), Extent2D(1, 1), Extent2D(4096, 4096), 1)) == 4
  {
  }

  /**
   * The intended count: one more than the minimum, capped by the maximum when there is one
   * (`maxImageCount == 0` means no limit).
   */
  function ImageCount(caps: SurfaceCapabilities): (r: U32)
    ensures caps.maxImageCount == 0 || caps.minImageCount <= caps.maxImageCount ==> AcceptableImageCount(caps, r)
    ensures (caps.maxImageCount == 0 || caps.minImageCount < caps.maxImageCount) && caps.minImageCount < UINT32_MAX
            ==> r == caps.minImageCount + 1
  {
    var desired := if caps.minImageCount < UINT32_MAX then caps.minImageCount + 1 else caps.minImageCount;
    if caps.maxImageCount != 0 && desired > caps.maxImageCount then caps.maxImageCount else desired
  }

  // ---------------------------------------------------------------------------------------------
  // Sharing mode and image views

  datatype SharingMode = Exclusive | Concurrent(queueFamilyIndices: seq<nat>)

  /** Concurrent across both families exactly when they differ, exclusive otherwise. */
  function SharingFor(graphicsFamily: nat, presentFamily: nat): (r: SharingMode)
    ensures r.Concurrent? <==> graphicsFamily != presentFamily
    ensures r.Concurrent? ==> r.queueFamilyIndices == [graphicsFamily, presentFamily]
  {
    if graphicsFamily != presentFamily then Concurrent([graphicsFamily, presentFamily]) else Exclusive
  }

  /** A 2D colour view of a whole single-level, single-layer image, with identity swizzle. */
  function ColorView(image: Image, format: Format): ImageView
  {
    ImageView(image, format, true, ColorAspect, 0, 1, 0, 1)
  }

  /** The image-view loop: one colour view per swapchain image, in image order, in the swapchain's format. */
  method CreateImageViews(images: seq<Image>, format: Format) returns (views: seq<ImageView>)
    ensures |views| == |images|
    ensures forall i :: 0 <= i < |images| ==> views[i] == ColorView(images[i], format)
  {
    views := [];
    var i := 0;
    while i < |images|
      invariant 0 <= i <= |images| && |views| == i
      invariant forall k :: 0 <= k < i ==> views[k] == ColorView(images[k], format)
    {
      views := views + [ColorView(images[i], format)];
      i := i + 1;
    }
  }

  // ---------------------------------------------------------------------------------------------
  // The constructor

  /** `vk::SwapchainCreateInfoKHR` as the constructors fill it. */
  datatype SwapchainCreateInfo = SwapchainCreateInfo(
    minImageCount: U32,
    imageFormat: Format,
    imageColorSpace: ColorSpace,
    imageExtent: Extent2D,
    imageArrayLayers: nat,
    imageUsage: Flags,
    sharing: SharingMode,
    preTransform: nat,
    compositeAlphaOpaque: bool,
    presentMode: PresentMode,
    clipped: bool)

  /** What a built swapchain keeps: its create info, format, extent, images and their views. */
  datatype SwapchainData = SwapchainData(
    createInfo: SwapchainCreateInfo,
    format: SurfaceFormat,
    extent: Extent2D,
    images: seq<Image>,
    views: seq<ImageView>)

  /**
   * The `swapchain_data` / `swapchain_wrapper` constructor. `caps`, `formats` and `modes` are the
   * surface queries, `properties` and `surfaceSupport` the queue-family queries, and `images` what
   * the driver returns for the new swapchain. The image count is the one the constructors compute
   * (`ImageCountAsWritten`), so it may exceed the surface's maximum; `ImageCount` is the count intended.
   */
  method NewSwapchain(caps: SurfaceCapabilities, formats: seq<SurfaceFormat>, modes: seq<PresentMode>,
                      properties: seq<QueueFamilyProperties>, surfaceSupport: seq<bool>,
                      requested: Extent2D, images: seq<Image>)
    returns (r: Result<SwapchainData>)
    requires |formats| > 0 && |surfaceSupport| == |properties|
    ensures r.Err? <==> GraphicsAndPresent(properties, surfaceSupport).Err?
    ensures r.Ok? ==> r.value.extent == ChooseExtent(requested, caps) == r.value.createInfo.imageExtent
    ensures r.Ok? ==> r.value.format == ChooseSurfaceFormat(formats)
    ensures r.Ok? ==> r.value.createInfo.imageFormat == r.value.format.format
    ensures r.Ok? ==> r.value.createInfo.imageColorSpace == r.value.format.colorSpace
    ensures r.Ok? ==> r.value.createInfo.presentMode == ChoosePresentMode(modes)
    ensures r.Ok? ==> r.value.createInfo.minImageCount == ImageCountAsWritten(caps)
    ensures r.Ok? ==> var (g, p) := GraphicsAndPresent(properties, surfaceSupport).value;
                      r.value.createInfo.sharing == SharingFor(g, p)
    ensures r.Ok? ==> r.value.createInfo.imageArrayLayers == 1 && r.value.createInfo.imageUsage == USAGE_COLOR_ATTACHMENT
    ensures r.Ok? ==> r.value.createInfo.preTransform == caps.currentTransform
    ensures r.Ok? ==> r.value.createInfo.compositeAlphaOpaque && r.value.createInfo.clipped
    ensures r.Ok? ==> r.value.images == images && |r.value.views| == |images|
    ensures r.Ok? ==> forall i :: 0 <= i < |images| ==> r.value.views[i] == ColorView(images[i], r.value.format.format)
  {
    var presentMode := ChoosePresentMode(modes);
    var extent := ChooseExtent(requested, caps);
    var format := ChooseSurfaceFormat(formats);
    var imageCount := ImageCountAsWritten(caps);
    var indices := FindGraphicsAndPresentFamilyIndices(properties, surfaceSupport);
    if indices.Err? {
      return Err(indices.error);
    }
    var sharing := if indices.value.0 != indices.value.1 then Concurrent([indices.value.0, indices.value.1]) else Exclusive;
    var createInfo := SwapchainCreateInfo(imageCount, format.format, format.colorSpace, extent, 1, USAGE_COLOR_ATTACHMENT,
                                          sharing, caps.currentTransform, true, presentMode, true);
    var views := CreateImageViews(images, createInfo.imageFormat);
    return Ok(SwapchainData(createInfo, format, extent, images, views));
  }
}
