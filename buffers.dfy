/**
 * Host-visible device buffers and the collections built from them: the buffer classes of `ezvk`,
 * `throttle::graphics` (`buffer`, `buffers`, `framebuffers`) and their mapped-memory copies.
 * A buffer's device memory is an array of bytes; mapping it and writing through the mapped pointer
 * are writes to that array.
 */
module Buffers {
  import opened Wrappers
  import opened Vk
  import opened Utils
  import opened Memory

  // ---------------------------------------------------------------------------------------------
  // The bytes a copy leaves behind

  /** `memcpy(base + off, bytes, |bytes|)` on a byte image. */
  function Write(base: seq<bv8>, off: nat, bytes: seq<bv8>): (r: seq<bv8>)
    requires off + |bytes| <= |base|
    ensures |r| == |base|
    ensures forall p :: 0 <= p < |r| ==> r[p] == if off <= p < off + |bytes| then bytes[p - off] else base[p]
  {
    base[..off] + bytes + base[off + |bytes|..]
  }

  lemma MulMono(c: nat, a: nat, b: nat)
    requires a <= b
    ensures c * a <= c * b
  {
  }

  /** Element `q` of `view` written at `stride * q`, for every element in turn. */
  function Strided(base: seq<bv8>, view: seq<seq<bv8>>, elemSize: nat, stride: nat): (r: seq<bv8>)
    requires elemSize <= stride && AllOfSize(view, elemSize) && stride * |view| <= |base|
    ensures |r| == |base|
  {
    if |view| == 0 then base
    else
      var n := |view| - 1;
      assert stride * |view| == stride * n + stride;
      Write(Strided(base, view[..n], elemSize, stride), stride * n, view[n])
  }

  /**
   * The byte at offset `k` of stride slot `q` is byte `k` of element `q` when that element exists and
   * `k` lies inside it; every other byte, the gap between elements included, keeps its old value.
   */
  lemma {:induction false} StridedAt(base: seq<bv8>, view: seq<seq<bv8>>, elemSize: nat, stride: nat, q: nat, k: nat)
    requires elemSize <= stride && AllOfSize(view, elemSize) && stride * |view| <= |base|
    requires k < stride && stride * q + k < |base|
    ensures Strided(base, view, elemSize, stride)[stride * q + k]
         == if q < |view| && k < elemSize then view[q][k] else base[stride * q + k]
  {
    if |view| > 0 {
      var n := |view| - 1;
      SlotOrder(stride, q, n, k);
      var prefix := view[..n];
      assert |prefix| == n && |view[n]| == elemSize;
      var written := Strided(base, prefix, elemSize, stride);
      assert Strided(base, view, elemSize, stride) == Write(written, stride * n, view[n]);
      StridedAt(base, prefix, elemSize, stride, q, k);
      SlotByte(written, view[n], stride * n, stride * q + k, stride, q, n, k);
      if q < n {
        assert prefix[q] == view[q];
      }
    }
  }

  /** The last slot's write, stated on slot positions alone. */
  lemma SlotByte(written: seq<bv8>, bytes: seq<bv8>, start: nat, p: nat, stride: nat, q: nat, n: nat, k: nat)
    requires |bytes| <= stride && start + |bytes| <= |written| && p < |written|
    requires q < n ==> p < start
    requires q == n ==> p == start + k
    requires q > n ==> p >= start + stride
    ensures Write(written, start, bytes)[p] == if q == n && k < |bytes| then bytes[k] else written[p]
  {
  }

  /** Where byte `k` of stride slot `q` lies relative to slot `n`. */
  lemma SlotOrder(stride: nat, q: nat, n: nat, k: nat)
    requires k < stride
    ensures stride * (n + 1) == stride * n + stride
    ensures q < n ==> stride * q + k < stride * n
    ensures q > n ==> stride * q >= stride * n + stride
  {
    if q < n {
      MulMono(stride, q + 1, n);
    } else if q > n {
      MulMono(stride, n + 1, q);
    }
  }

  /** Nothing at or beyond `stride * |view|`, the end of the mapped range, is written. */
  lemma {:induction false} StridedBeyond(base: seq<bv8>, view: seq<seq<bv8>>, elemSize: nat, stride: nat, p: nat)
    requires elemSize <= stride && AllOfSize(view, elemSize) && stride * |view| <= |base|
    requires stride * |view| <= p < |base|
    ensures Strided(base, view, elemSize, stride)[p] == base[p]
  {
    if |view| > 0 {
      var n := |view| - 1;
      assert stride * |view| == stride * n + stride;
      StridedBeyond(base, view[..n], elemSize, stride, p);
    }
  }

  /** Two adjacent writes are one write of the concatenation. */
  lemma WriteConcat(base: seq<bv8>, off: nat, a: seq<bv8>, b: seq<bv8>)
    requires off + |a| + |b| <= |base|
    ensures Write(Write(base, off, a), off + |a|, b) == Write(base, off, a + b)
  {
    var lhs, rhs := Write(Write(base, off, a), off + |a|, b), Write(base, off, a + b);
    assert forall p :: 0 <= p < |lhs| ==> lhs[p] == rhs[p];
  }

  /** With `stride == sizeof(T)` the strided copy is one contiguous `memcpy` of all the elements. */
  lemma {:induction false} Contiguous(base: seq<bv8>, view: seq<seq<bv8>>, elemSize: nat)
    requires AllOfSize(view, elemSize) && elemSize * |view| <= |base|
    ensures |Flatten(view)| == elemSize * |view| && Strided(base, view, elemSize, elemSize) == Write(base, 0, Flatten(view))
  {
    FlattenLength(view, elemSize);
    if |view| > 0 {
      var n := |view| - 1;
      assert elemSize * |view| == elemSize * n + elemSize;
      FlattenLength(view[..n], elemSize);
      Contiguous(base, view[..n], elemSize);
      WriteConcat(base, 0, Flatten(view[..n]), view[n]);
    }
  }

  /** `memcpy` into a mapped allocation. */
  method Memcpy(dst: array<bv8>, off: nat, src: seq<bv8>)
    requires off + |src| <= dst.Length
    modifies dst
    ensures dst[..] == Write(old(dst[..]), off, src)
  {
    var i := 0;
    while i < |src|
      invariant 0 <= i <= |src|
      invariant forall p :: 0 <= p < dst.Length ==> dst[p] == if off <= p < off + i then src[p - off] else old(dst[p])
    {
      dst[off + i] := src[i];
      i := i + 1;
    }
  }

  // ---------------------------------------------------------------------------------------------
  // Buffers

  /** Which `find_memory_type` a buffer class allocates with. */
  datatype MemoryTypeSearch =
    | ValidTypes  // `throttle::graphics`: the types below `memoryTypeCount`
    | AllSlots    // `ezvk`: all 32 array slots

  /** The memory type an allocation with these type bits and flags gets, if any. */
  function ChosenType(search: MemoryTypeSearch, p: MemoryProperties, typeBits: Flags, flags: Flags): Option<nat>
    requires WellFormed(p)
  {
    FirstQualifying(p, typeBits, flags, 0, if search.ValidTypes? then p.memoryTypeCount else MAX_MEMORY_TYPES)
  }

  /** `vk::MemoryPropertyFlagBits::eHostVisible | eHostCoherent`, the default for every buffer class. */
  const DEFAULT_PROPERTY_FLAGS: Flags := MEMORY_HOST_VISIBLE | MEMORY_HOST_COHERENT

  /**
   * A buffer with its bound device memory. `memory` holds the bytes of the allocation, which the
   * driver may make larger than the `size` the buffer was created with.
   */
  class DeviceBuffer {
    const size: nat
    const usage: Flags
    const allocation: MemoryAllocateInfo
    const memory: array<bv8>

    predicate Valid()
      reads this
    {
      memory.Length == allocation.allocationSize && size <= memory.Length
    }

    /** The buffer bound to a fresh allocation; fresh device memory is modelled as zero bytes. */
    constructor (size: nat, usage: Flags, allocation: MemoryAllocateInfo)
      requires size <= allocation.allocationSize
      ensures Valid()
      ensures this.size == size && this.usage == usage && this.allocation == allocation
      ensures fresh(memory) && memory[..] == seq(allocation.allocationSize, _ => 0)
    {
      this.size := size;
      this.usage := usage;
      this.allocation := allocation;
      this.memory := new bv8[allocation.allocationSize](_ => 0);
    }

    /**
     * `copy_to_device(view, stride)`: element `i` goes to `stride * i`; `stride == sizeof(T)` takes
     * the single-`memcpy` path. The mapped range `view.size() * stride` must lie in the allocation.
     */
    method CopyToDevice(view: seq<seq<bv8>>, elemSize: nat, stride: nat)
      requires Valid() && 1 <= elemSize <= stride && AllOfSize(view, elemSize)
      requires stride * |view| <= memory.Length
      modifies memory
      ensures memory[..] == Strided(old(memory[..]), view, elemSize, stride)
    {
      if stride == elemSize {
        FlattenLength(view, elemSize);
        Memcpy(memory, 0, Flatten(view));
        Contiguous(old(memory[..]), view, elemSize);
      } else {
        var i := 0;
        while i < |view|
          invariant 0 <= i <= |view|
          invariant memory[..] == Strided(old(memory[..]), view[..i], elemSize, stride)
        {
          MulMono(stride, i + 1, |view|);
          assert stride * (i + 1) == stride * i + stride;
          assert view[..i + 1][..i] == view[..i];
          Memcpy(memory, stride * i, view[i]);
          i := i + 1;
        }
        assert view[..|view|] == view;
      }
    }

    /** `copy_to_device(const T &)`: one element at offset 0. */
    method CopyValue(value: seq<bv8>)
      requires Valid() && 1 <= |value| <= memory.Length
      modifies memory
      ensures memory[..] == Write(old(memory[..]), 0, value)
    {
      CopyToDevice([value], |value|, |value|);
      assert [value][..0] == [];
    }

    /** `buffer::update`: a `memcpy` of `sizeof_vector(data)` bytes at offset 0. */
    method Update(data: seq<seq<bv8>>, elemSize: nat)
      requires Valid() && AllOfSize(data, elemSize) && SizeofContainer(elemSize, data) <= memory.Length
      modifies memory
      ensures |Flatten(data)| <= memory.Length && memory[..] == Write(old(memory[..]), 0, Flatten(data))
    {
      FlattenLength(data, elemSize);
      Memcpy(memory, 0, Flatten(data));
    }
  }

  /** `update` overwrites exactly the first `sizeof_vector(data)` bytes with the data; later bytes are untouched. */
  lemma UpdateFootprint(base: seq<bv8>, data: seq<seq<bv8>>, elemSize: nat, p: nat)
    requires AllOfSize(data, elemSize) && SizeofContainer(elemSize, data) <= |base| && p < |base|
    ensures |Flatten(data)| == SizeofContainer(elemSize, data) &&
            Write(base, 0, Flatten(data))[p] == if p < SizeofContainer(elemSize, data) then Flatten(data)[p] else base[p]
  {
    FlattenLength(data, elemSize);
  }

  /**
   * The `device_buffer(size, usage, flags)` constructor: create the buffer, allocate memory of the
   * reported requirements with the chosen type, bind it. The driver reports at least `size` bytes.
   */
  method NewDeviceBuffer(search: MemoryTypeSearch, p: MemoryProperties, reqs: MemoryRequirements, size: nat, usage: Flags, flags: Flags)
    returns (r: Result<DeviceBuffer>)
    requires WellFormed(p) && size <= reqs.size
    ensures r.Err? <==> ChosenType(search, p, reqs.memoryTypeBits, flags).None?
    ensures r.Err? ==> r.error == NoSuitableMemoryType
    ensures r.Ok? ==> fresh(r.value) && fresh(r.value.memory) && r.value.Valid()
    ensures r.Ok? ==> r.value.size == size && r.value.usage == usage
    ensures r.Ok? ==> r.value.allocation.allocationSize == reqs.size
    ensures r.Ok? ==> ChosenType(search, p, reqs.memoryTypeBits, flags) == Some(r.value.allocation.memoryTypeIndex)
    ensures r.Ok? ==> r.value.memory[..] == seq(reqs.size, _ => 0)
  {
    var info: Result<MemoryAllocateInfo>;
    if search.ValidTypes? {
      info := AllocateDeviceMemory(p, reqs, flags);
    } else {
      info := AllocateDeviceMemoryAllSlots(p, reqs, flags);
    }
    if info.Err? {
      return Err(info.error);
    }
    var b := new DeviceBuffer(size, usage, info.value);
    return Ok(b);
  }

  /**
   * The data constructors: a buffer of `sizeof_container(data)` bytes whose first bytes are then the
   * data, laid out contiguously.
   */
  method NewDeviceBufferWithData(search: MemoryTypeSearch, p: MemoryProperties, reqs: MemoryRequirements, usage: Flags,
                                 data: seq<seq<bv8>>, elemSize: nat, flags: Flags)
    returns (r: Result<DeviceBuffer>)
    requires WellFormed(p) && 1 <= elemSize && AllOfSize(data, elemSize) && SizeofContainer(elemSize, data) <= reqs.size
    ensures r.Err? <==> ChosenType(search, p, reqs.memoryTypeBits, flags).None?
    ensures r.Err? ==> r.error == NoSuitableMemoryType
    ensures r.Ok? ==> fresh(r.value) && fresh(r.value.memory) && r.value.Valid()
    ensures r.Ok? ==> r.value.size == SizeofContainer(elemSize, data) && r.value.usage == usage
    ensures r.Ok? ==> |Flatten(data)| <= reqs.size && r.value.memory[..] == Write(seq(reqs.size, _ => 0), 0, Flatten(data))
  {
    r := NewDeviceBuffer(search, p, reqs, SizeofContainer(elemSize, data), usage, flags);
    if r.Ok? {
      var b := r.value;
      b.CopyToDevice(data, elemSize, elemSize);
      FlattenLength(data, elemSize);
      Contiguous(seq(reqs.size, _ => 0), data, elemSize);
    }
  }

  /** No two buffers of a collection share device memory. */
  predicate Disjoint(bufs: seq<DeviceBuffer>)
  {
    forall i, j :: 0 <= i < j < |bufs| ==> bufs[i].memory != bufs[j].memory
  }

  /**
   * `device_buffers(count, max_size, ...)` / `buffers(count, max_size, ...)`: `count` buffers of
   * `max_size` bytes each. All share one set of memory requirements, so either every allocation
   * succeeds or the first one throws.
   */
  method NewDeviceBuffers(search: MemoryTypeSearch, count: nat, maxSize: nat, p: MemoryProperties, reqs: MemoryRequirements,
                          usage: Flags, flags: Flags)
    returns (r: Result<seq<DeviceBuffer>>)
    requires WellFormed(p) && maxSize <= reqs.size
    ensures r.Err? <==> count > 0 && ChosenType(search, p, reqs.memoryTypeBits, flags).None?
    ensures r.Ok? ==> |r.value| == count && Disjoint(r.value)
    ensures r.Ok? ==> forall i :: 0 <= i < count ==>
      fresh(r.value[i]) && fresh(r.value[i].memory) && r.value[i].Valid() && r.value[i].size == maxSize && r.value[i].usage == usage
  {
    var bufs: seq<DeviceBuffer> := [];
    var i := 0;
    while i < count
      invariant 0 <= i <= count && |bufs| == i && Disjoint(bufs)
      invariant i > 0 ==> ChosenType(search, p, reqs.memoryTypeBits, flags).Some?
      invariant forall k :: 0 <= k < i ==>
        fresh(bufs[k]) && fresh(bufs[k].memory) && bufs[k].Valid() && bufs[k].size == maxSize && bufs[k].usage == usage
    {
      var b := NewDeviceBuffer(search, p, reqs, maxSize, usage, flags);
      if b.Err? {
        return Err(b.error);
      }
      bufs := bufs + [b.value];
      i := i + 1;
    }
    return Ok(bufs);
  }

  /** `throttle::graphics::buffers(p_size, ...)` of the thengine library: `p_size` is both the count and each buffer's byte size. */
  method NewBuffersSizedByCount(count: nat, p: MemoryProperties, reqs: MemoryRequirements, usage: Flags, flags: Flags)
    returns (r: Result<seq<DeviceBuffer>>)
    requires WellFormed(p) && count <= reqs.size
    ensures r.Err? <==> count > 0 && ChosenType(ValidTypes, p, reqs.memoryTypeBits, flags).None?
    ensures r.Ok? ==> |r.value| == count && Disjoint(r.value)
    ensures r.Ok? ==> forall i :: 0 <= i < count ==> fresh(r.value[i]) && r.value[i].size == count
  {
    r := NewDeviceBuffers(ValidTypes, count, count, p, reqs, usage, flags);
  }

  // ---------------------------------------------------------------------------------------------
  // Framebuffers

  /** One framebuffer of the given size and one layer per image view, in view order. */
  predicate FramebuffersFor(fbs: seq<Framebuffer>, views: seq<ImageView>, extent: Extent2D, renderPass: RenderPass, depth: Option<ImageView>)
  {
    |fbs| == |views| &&
    forall i :: 0 <= i < |views| ==>
      fbs[i] == Framebuffer(renderPass, [views[i]] + (if depth.Some? then [depth.value] else []), extent.width, extent.height, 1)
  }

  /** The `framebuffers` constructors; with a depth view each framebuffer gets the attachments `[view i, depth view]`. */
  method MakeFramebuffers(views: seq<ImageView>, extent: Extent2D, renderPass: RenderPass, depth: Option<ImageView>)
    returns (fbs: seq<Framebuffer>)
    ensures FramebuffersFor(fbs, views, extent, renderPass, depth)
  {
    fbs := [];
    for i := 0 to |views|
      invariant FramebuffersFor(fbs, views[..i], extent, renderPass, depth)
    {
      var attachments := if depth.Some? then [views[i], depth.value] else [views[i]];
      fbs := fbs + [Framebuffer(renderPass, attachments, extent.width, extent.height, 1)];
    }
    assert views[..|views|] == views;
  }

  /** `allocate_frame_buffers`: the swapchain's views, sized from the surface's extent, not the swapchain's. */
  method AllocateFrameBuffers(swapchainViews: seq<ImageView>, swapchainExtent: Extent2D, surfaceExtent: Extent2D, renderPass: RenderPass)
    returns (fbs: seq<Framebuffer>)
    ensures FramebuffersFor(fbs, swapchainViews, surfaceExtent, renderPass, None)
  {
    fbs := MakeFramebuffers(swapchainViews, surfaceExtent, renderPass, None);
  }

  /** Framebuffer `i` has view `i` as its first attachment, so `at(i)` renders into swapchain image `i`. */
  lemma FramebufferAtView(fbs: seq<Framebuffer>, views: seq<ImageView>, extent: Extent2D, renderPass: RenderPass, depth: Option<ImageView>, i: nat)
    requires FramebuffersFor(fbs, views, extent, renderPass, depth)
    ensures At(fbs, i).Ok? <==> i < |views|
    ensures i < |views| ==> At(fbs, i).value.attachments[0] == views[i] && |At(fbs, i).value.attachments| == (if depth.Some? then 2 else 1)
  {
  }
}
