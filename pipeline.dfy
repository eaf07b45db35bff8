/**
 * Descriptor set layouts and pools (`descriptor_set_data` in `src/pipeline.cc` and the
 * `thengine` copy in `wrappers/pipeline.hpp`): binding numbering and the `maxSets` sum.
 */
module Pipeline {
  import opened Vk

  /** `vk::DescriptorType`; `Sampler` (value 0) is what a value-initialised binding holds. */
  datatype DescriptorType = Sampler | CombinedImageSampler | UniformBuffer | OtherDescriptorType(code: nat)

  const SHADER_STAGE_VERTEX: Flags := 0x1
  const SHADER_STAGE_FRAGMENT: Flags := 0x10

  /** One `(type, count, stages)` tuple a caller asks for. */
  datatype BindingData = BindingData(descriptorType: DescriptorType, descriptorCount: U32, stageFlags: Flags)

  /** `vk::DescriptorSetLayoutBinding` without immutable samplers. */
  datatype DescriptorSetLayoutBinding =
    DescriptorSetLayoutBinding(binding: U32, descriptorType: DescriptorType, descriptorCount: U32, stageFlags: Flags)

  /** A value-initialised `vk::DescriptorSetLayoutBinding`: every field zero. */
  const DEFAULT_BINDING: DescriptorSetLayoutBinding := DescriptorSetLayoutBinding(0, Sampler, 0, 0)

  /** `vk::DescriptorSetLayoutCreateInfo`: the declared count and the bindings handed over. */
  datatype DescriptorSetLayoutCreateInfo = DescriptorSetLayoutCreateInfo(bindingCount: U32, bindings: seq<DescriptorSetLayoutBinding>)

  function BindingFor(number: U32, d: BindingData): DescriptorSetLayoutBinding
  {
    DescriptorSetLayoutBinding(number, d.descriptorType, d.descriptorCount, d.stageFlags)
  }

  /** Tuple `k` becomes binding number `k` (counted in a `uint32_t`). */
  function LayoutBindings(data: seq<BindingData>): seq<DescriptorSetLayoutBinding>
  {
    seq(|data|, k requires 0 <= k < |data| => BindingFor(k % U32_MODULUS, data[k]))
  }

  /**
   * What the Vulkan specification asks of a layout: the declared count is the number of bindings,
   * and no two bindings share a number.
   */
  predicate ValidLayout(info: DescriptorSetLayoutCreateInfo)
  {
    info.bindingCount == |info.bindings| &&
    forall i, j :: 0 <= i < j < |info.bindings| ==> info.bindings[i].binding != info.bindings[j].binding
  }

  /**
   * `create_decriptor_set_layout` of `src/pipeline.cc`: a `std::transform` whose lambda numbers
   * the bindings with a mutable `uint32_t` counter; the count is the (truncated) vector size.
   */
  method CreateDescriptorSetLayout(data: seq<BindingData>) returns (info: DescriptorSetLayoutCreateInfo)
    ensures info.bindings == LayoutBindings(data)
    ensures info.bindingCount == |data| % U32_MODULUS
  {
    var bindings: seq<DescriptorSetLayoutBinding> := [];
    var i: U32 := 0;
    for k := 0 to |data|
      invariant i == k % U32_MODULUS
      invariant bindings == LayoutBindings(data[..k])
    {
      bindings := bindings + [BindingFor(i, data[k])];
      i := (i + 1) % U32_MODULUS;
    }
    assert data[..|data|] == data;
    info := DescriptorSetLayoutCreateInfo(|bindings| % U32_MODULUS, bindings);
  }

  /** Binding `k` carries number `k` and the fields of tuple `k`; below 2^32 tuples the layout is valid. */
  lemma LayoutBindingsValid(data: seq<BindingData>)
    requires |data| < U32_MODULUS
    ensures |LayoutBindings(data)| == |data|
    ensures forall k :: 0 <= k < |data| ==> LayoutBindings(data)[k] == BindingFor(k, data[k])
    ensures ValidLayout(DescriptorSetLayoutCreateInfo(|data| % U32_MODULUS, LayoutBindings(data)))
  {
  }

  /**
   * The bindings the `thengine` copy builds: its vector starts out holding one value-initialised
   * binding per tuple (brace-initialising a `std::vector` of an aggregate from a count selects the
   * size constructor), and the loop appends the numbered bindings after them.
   */
  function LayoutBindingsAsWritten(data: seq<BindingData>): seq<DescriptorSetLayoutBinding>
  {
    seq(|data|, _ => DEFAULT_BINDING) + LayoutBindings(data)
  }

  /**
   * `create_decriptor_set_layout` of the `thengine` copy, as written. Its `uint32_t` loop index
   * never reaches a size of 2^32 or more, so it terminates only below that.
   */
  method CreateDescriptorSetLayoutAsWritten(data: seq<BindingData>) returns (info: DescriptorSetLayoutCreateInfo)
    requires |data| < U32_MODULUS
    ensures info.bindings == LayoutBindingsAsWritten(data)
    ensures info.bindingCount == (2 * |data|) % U32_MODULUS
  {
    var bindings: seq<DescriptorSetLayoutBinding> := seq(|data|, _ => DEFAULT_BINDING);
    var i: U32 := 0;
    while i < |data|
      invariant i <= |data|
      invariant bindings == seq(|data|, _ => DEFAULT_BINDING) + LayoutBindings(data[..i])
    {
      assert LayoutBindings(data[..i + 1]) == LayoutBindings(data[..i]) + [BindingFor(i, data[i])];
      bindings := bindings + [BindingFor(i, data[i])];
      i := i + 1;
    }
    assert data[..|data|] == data;
    info := DescriptorSetLayoutCreateInfo(|bindings| % U32_MODULUS, bindings);
  }

  /**
   * As written, any non-empty request yields an invalid layout: twice the bindings, and binding
   * number 0 both on the first placeholder and on the first real binding.
   */
  lemma AsWrittenLayoutInvalid(data: seq<BindingData>)
    requires 1 <= |data| < U32_MODULUS
    ensures |LayoutBindingsAsWritten(data)| == 2 * |data|
    ensures LayoutBindingsAsWritten(data)[0].binding == LayoutBindingsAsWritten(data)[|data|].binding == 0
    ensures !ValidLayout(DescriptorSetLayoutCreateInfo((2 * |data|) % U32_MODULUS, LayoutBindingsAsWritten(data)))
  {
    assert LayoutBindingsAsWritten(data)[|data|] == LayoutBindings(data)[0];
  }

  // ---------------------------------------------------------------------------------------------
  // create_descriptor_pool

  /** `vk::DescriptorPoolSize`. */
  datatype DescriptorPoolSize = DescriptorPoolSize(descriptorType: DescriptorType, descriptorCount: U32)

  /** `vk::DescriptorPoolCreateInfo`: the free-descriptor-set flag, `maxSets` and the pool sizes. */
  datatype DescriptorPoolCreateInfo = DescriptorPoolCreateInfo(
    freeDescriptorSet: bool, maxSets: U32, poolSizeCount: U32, poolSizes: seq<DescriptorPoolSize>)

  /** The exact total of the descriptor counts. */
  function SumCounts(sizes: seq<DescriptorPoolSize>): nat
  {
    if sizes == [] then 0 else sizes[0].descriptorCount + SumCounts(sizes[1..])
  }

  /**
   * `std::accumulate` from 0 with a lambda over `uint32_t`: every partial sum is reduced modulo
   * 2^32 (the `int` accumulator round-trips through `uint32_t` at each step).
   */
  function Accumulate(acc: U32, sizes: seq<DescriptorPoolSize>): U32
    decreases |sizes|
  {
    if sizes == [] then acc else Accumulate((acc + sizes[0].descriptorCount) % U32_MODULUS, sizes[1..])
  }

  lemma ModAdd(a: nat, b: nat)
    ensures (a % U32_MODULUS + b) % U32_MODULUS == (a + b) % U32_MODULUS
  {
    var q := a / U32_MODULUS;
    assert a == q * U32_MODULUS + a % U32_MODULUS;
    assert a + b == q * U32_MODULUS + (a % U32_MODULUS + b);
  }

  /** The wrapping fold is the exact total reduced modulo 2^32. */
  lemma {:induction false} AccumulateIsSum(acc: U32, sizes: seq<DescriptorPoolSize>)
    ensures Accumulate(acc, sizes) == (acc + SumCounts(sizes)) % U32_MODULUS
    decreases |sizes|
  {
    if sizes != [] {
      var c := sizes[0].descriptorCount;
      AccumulateIsSum((acc + c) % U32_MODULUS, sizes[1..]);
      ModAdd(acc + c, SumCounts(sizes[1..]));
    }
  }

  /** `create_descriptor_pool`: `maxSets` is the summed descriptor count, the pool sizes are passed through, sets may be freed. */
  function CreateDescriptorPool(sizes: seq<DescriptorPoolSize>): (r: DescriptorPoolCreateInfo)
    ensures r.maxSets == SumCounts(sizes) % U32_MODULUS
    ensures SumCounts(sizes) < U32_MODULUS ==> r.maxSets == SumCounts(sizes)
    ensures sizes == [] ==> r.maxSets == 0
    ensures r.poolSizeCount == |sizes| % U32_MODULUS && r.poolSizes == sizes && r.freeDescriptorSet
  {
    AccumulateIsSum(0, sizes);
    DescriptorPoolCreateInfo(true, Accumulate(0, sizes), |sizes| % U32_MODULUS, sizes)
  }

  /** A descriptor set layout and the pool its one set is allocated from. */
  datatype DescriptorSetData = DescriptorSetData(layout: DescriptorSetLayoutCreateInfo, pool: DescriptorPoolCreateInfo)

  /** The layout `descriptor_set_data` asks for: a uniform buffer for the vertex stage, a combined image sampler for the fragment stage. */
  const SET_BINDINGS: seq<BindingData> :=
    [BindingData(UniformBuffer, 1, SHADER_STAGE_VERTEX), BindingData(CombinedImageSampler, 1, SHADER_STAGE_FRAGMENT)]

  /** The pool `descriptor_set_data` asks for: one descriptor of each kind. */
  const SET_POOL_SIZES: seq<DescriptorPoolSize> :=
    [DescriptorPoolSize(UniformBuffer, 1), DescriptorPoolSize(CombinedImageSampler, 1)]

  /**
   * The `descriptor_set_data` constructor: the fixed two-binding layout (numbered by the
   * `src/pipeline.cc` rule) and its pool, whose `maxSets` is 2.
   */
  method NewDescriptorSetData() returns (d: DescriptorSetData)
    ensures ValidLayout(d.layout)
    ensures d.layout.bindings == [DescriptorSetLayoutBinding(0, UniformBuffer, 1, SHADER_STAGE_VERTEX),
                                  DescriptorSetLayoutBinding(1, CombinedImageSampler, 1, SHADER_STAGE_FRAGMENT)]
    ensures d.pool.maxSets == 2 && d.pool.poolSizes == SET_POOL_SIZES && d.pool.freeDescriptorSet
  {
    var layout := CreateDescriptorSetLayout(SET_BINDINGS);
    LayoutBindingsValid(SET_BINDINGS);
    assert SumCounts(SET_POOL_SIZES) == 2 by {
      assert SET_POOL_SIZES[1..][1..] == [];
    }
    d := DescriptorSetData(layout, CreateDescriptorPool(SET_POOL_SIZES));
  }

  /** The `descriptor_set_data` layout as the `thengine` copy writes it: four bindings, numbers 0, 0, 0 and 1. */
  lemma DescriptorSetDataAsWritten()
    ensures LayoutBindingsAsWritten(SET_BINDINGS) ==
            [DEFAULT_BINDING, DEFAULT_BINDING,
             DescriptorSetLayoutBinding(0, UniformBuffer, 1, SHADER_STAGE_VERTEX),
             DescriptorSetLayoutBinding(1, CombinedImageSampler, 1, SHADER_STAGE_FRAGMENT)]
  {
    assert LayoutBindings(SET_BINDINGS)[0] == BindingFor(0, SET_BINDINGS[0]);
    assert LayoutBindings(SET_BINDINGS)[1] == BindingFor(1, SET_BINDINGS[1]);
  }
}
