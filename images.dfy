/**
 * Image parameter choices: the depth format and depth image of `ezvk::depth_buffer`, and the
 * staging decision of the `thengine` `texture_data`.
 */
module Images {
  import opened Wrappers
  import opened Vk
  import opened Utils

  datatype ImageTiling = Optimal | Linear

  datatype ImageLayout = UndefinedLayout | Preinitialized

  datatype Extent3D = Extent3D(width: U32, height: U32, depth: U32)

  // ---------------------------------------------------------------------------------------------
  // depth_buffer

  /** The depth formats `find_depth_format` tries, in order. */
  const DEPTH_CANDIDATES: seq<Format> := [D32Sfloat, D32SfloatS8Uint, D24UnormS8Uint]

  /** A candidate qualifies iff its optimal-tiling features include depth-stencil attachment. */
  predicate DepthCapable(optimalTilingFeatures: Format -> Flags, f: Format)
  {
    Contains(optimalTilingFeatures(f), FEATURE_DEPTH_STENCIL_ATTACHMENT)
  }

  function DepthPredicate(optimalTilingFeatures: Format -> Flags): Format -> bool
  {
    f => DepthCapable(optimalTilingFeatures, f)
  }

  /** The first qualifying candidate, spelled out. */
  function FirstDepthFormat(optimalTilingFeatures: Format -> Flags): Format
  {
    if DepthCapable(optimalTilingFeatures, D32Sfloat) then D32Sfloat
    else if DepthCapable(optimalTilingFeatures, D32SfloatS8Uint) then D32SfloatS8Uint
    else D24UnormS8Uint
  }

  predicate SomeDepthFormat(optimalTilingFeatures: Format -> Flags)
  {
    DepthCapable(optimalTilingFeatures, D32Sfloat) || DepthCapable(optimalTilingFeatures, D32SfloatS8Uint) ||
    DepthCapable(optimalTilingFeatures, D24UnormS8Uint)
  }

  /**
   * `find_depth_format`: the candidates that qualify (`find_all_that_satisfy`), and the front of
   * that list, which must not be empty. `optimalTilingFeatures` stands for `getFormatProperties`.
   */
  method FindDepthFormat(optimalTilingFeatures: Format -> Flags) returns (f: Format)
    requires SomeDepthFormat(optimalTilingFeatures)
    ensures f in DEPTH_CANDIDATES && DepthCapable(optimalTilingFeatures, f)
    ensures f == FirstDepthFormat(optimalTilingFeatures)
  {
    var p := DepthPredicate(optimalTilingFeatures);
    var suitable := FindAllThatSatisfy(DEPTH_CANDIDATES, p);
    assert DEPTH_CANDIDATES[0] == D32Sfloat && DEPTH_CANDIDATES[1] == D32SfloatS8Uint && DEPTH_CANDIDATES[2] == D24UnormS8Uint;
    assert FindIf(DEPTH_CANDIDATES, p).Some?;
    FilterFront(DEPTH_CANDIDATES, p);
    f := suitable[0];
  }

  /** The depth image `depth_buffer` creates, and the format of its view. */
  datatype DepthBuffer = DepthBuffer(
    format: Format, extent: Extent3D, tiling: ImageTiling, usage: Flags, memoryFlags: Flags, viewFormat: Format)

  /**
   * The `depth_buffer` constructor: an optimal-tiling, device-local depth-stencil attachment of the
   * given extent and depth 1, in the chosen depth format, with a view of the same format.
   */
  method NewDepthBuffer(optimalTilingFeatures: Format -> Flags, extent: Extent2D) returns (d: DepthBuffer)
    requires SomeDepthFormat(optimalTilingFeatures)
    ensures d.format == FirstDepthFormat(optimalTilingFeatures) && d.viewFormat == d.format
    ensures d.extent == Extent3D(extent.width, extent.height, 1)
    ensures d.tiling == Optimal && d.usage == USAGE_DEPTH_STENCIL_ATTACHMENT && d.memoryFlags == MEMORY_DEVICE_LOCAL
  {
    var depthFormat := FindDepthFormat(optimalTilingFeatures);
    d := DepthBuffer(depthFormat, Extent3D(extent.width, extent.height, 1), Optimal,
                     USAGE_DEPTH_STENCIL_ATTACHMENT, MEMORY_DEVICE_LOCAL, depthFormat);
  }

  // ---------------------------------------------------------------------------------------------
  // texture_data

  /** Bytes per texel of `R8G8B8A8Unorm`. */
  const TEXEL_BYTES: nat := 4

  /** The host buffer the pixels are staged in. */
  datatype StagingBuffer = StagingBuffer(size: nat, usage: Flags)

  /** The parameters the texture's `image_data` is created with. */
  datatype TextureImage = TextureImage(
    format: Format, extent: Extent2D, tiling: ImageTiling, usage: Flags,
    initialLayout: ImageLayout, memoryFlags: Flags, aspect: ImageAspect)

  datatype TextureData = TextureData(
    format: Format, extent: Extent2D, needsStaging: bool, stagingBuffer: Option<StagingBuffer>, image: TextureImage)

  /** The staging size as written: `width * width * 4` in `uint32_t` arithmetic. */
  function StagingSizeAsWritten(extent: Extent2D): U32
  {
    (extent.width * extent.width * TEXEL_BYTES) % U32_MODULUS
  }

  /** The staging size needed: the bytes of a `width x height` image of 4-byte texels. */
  function StagingSize(extent: Extent2D): (n: nat)
    ensures n == TEXEL_BYTES * extent.width * extent.height
    ensures n / TEXEL_BYTES == extent.width * extent.height
  {
    extent.width * extent.height * TEXEL_BYTES
  }

  /** The linear-tiling features do not cover the required ones, so the image cannot be written directly. */
  predicate LinearLacks(linearTilingFeatures: Flags, required: Flags)
  {
    !Contains(linearTilingFeatures, required)
  }

  /**
   * The `texture_data` constructor. `linearTilingFeatures` stands for the format properties of
   * `R8G8B8A8Unorm`. Sampling is always added to the required features and to the usage; staging
   * is used when forced or when linear tiling lacks a required feature, and then the image is
   * optimal-tiled, starts undefined and gains transfer-source usage; otherwise it is linear,
   * preinitialised and host-visible. The staging buffer is sized as the code sizes it
   * (`StagingSizeAsWritten`, which ignores the height); `StagingSize` is the size intended.
   */
  method NewTextureData(extent: Extent2D, usage: Flags, formatFeatures: Flags, forceStaging: bool, linearTilingFeatures: Flags)
    returns (t: TextureData)
    ensures t.format == R8G8B8A8Unorm && t.extent == extent && t.image.format == R8G8B8A8Unorm && t.image.extent == extent
    ensures t.needsStaging <==> forceStaging || LinearLacks(linearTilingFeatures, formatFeatures | FEATURE_SAMPLED_IMAGE)
    ensures t.needsStaging ==>
              t.stagingBuffer == Some(StagingBuffer(StagingSizeAsWritten(extent), USAGE_TRANSFER_SRC)) &&
              t.image.tiling == Optimal && t.image.initialLayout == UndefinedLayout && t.image.memoryFlags == 0 &&
              t.image.usage == usage | USAGE_TRANSFER_SRC | USAGE_SAMPLED
    ensures !t.needsStaging ==>
              t.stagingBuffer == None &&
              t.image.tiling == Linear && t.image.initialLayout == Preinitialized &&
              t.image.memoryFlags == MEMORY_HOST_COHERENT | MEMORY_HOST_VISIBLE &&
              t.image.usage == usage | USAGE_SAMPLED
    ensures Contains(t.image.usage, USAGE_SAMPLED) && t.image.aspect == ColorAspect
  {
    var features := formatFeatures | FEATURE_SAMPLED_IMAGE;
    var needsStaging := forceStaging || (linearTilingFeatures & features) != features;
    var imageUsage := usage;
    var tiling: ImageTiling;
    var initialLayout: ImageLayout;
    var requirements: Flags := 0;
    var staging: Option<StagingBuffer> := None;
    if needsStaging {
      staging := Some(StagingBuffer(StagingSizeAsWritten(extent), USAGE_TRANSFER_SRC));
      tiling := Optimal;
      imageUsage := imageUsage | USAGE_TRANSFER_SRC;
      initialLayout := UndefinedLayout;
    } else {
      tiling := Linear;
      initialLayout := Preinitialized;
      requirements := MEMORY_HOST_COHERENT | MEMORY_HOST_VISIBLE;
    }
    var finalUsage := imageUsage | USAGE_SAMPLED;
    assert finalUsage & USAGE_SAMPLED == USAGE_SAMPLED;
    t := TextureData(R8G8B8A8Unorm, extent, needsStaging, staging,
                     TextureImage(R8G8B8A8Unorm, extent, tiling, finalUsage, initialLayout, requirements, ColorAspect));
  }

  /**
   * As written, a texture taller than it is wide gets a staging buffer smaller than its pixels;
   * 128 x 256 stages into 65536 bytes where 131072 are needed.
   */
  lemma StagingSizeAsWrittenTooSmall(extent: Extent2D)
    requires 0 < extent.width < extent.height
    ensures StagingSizeAsWritten(extent) < StagingSize(extent)
    ensures StagingSizeAsWritten(Extent2D(128, 256)) == 65536 && StagingSize(Extent2D(128, 256)) == 131072
  {
    var w, h := extent.width, extent.height;
    assert w * w < w * h by {
      MulStrict(w, w, h);
    }
    assert StagingSizeAsWritten(extent) <= w * w * TEXEL_BYTES;
  }

  lemma MulStrict(a: nat, b: nat, c: nat)
    requires 0 < a && b < c
    ensures a * b < a * c
  {
  }

  /** The staging buffer holds exactly the texture's pixels, and a square texture agrees with the size as written while it fits in 32 bits. */
  lemma StagingSizeFits(extent: Extent2D)
    ensures StagingSize(extent) == TEXEL_BYTES * extent.width * extent.height
    ensures extent.width == extent.height && StagingSize(extent) < U32_MODULUS ==>
              StagingSizeAsWritten(extent) == StagingSize(extent)
  {
  }
}
