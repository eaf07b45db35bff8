/** Choosing a device memory type for an allocation (`find_memory_type`, `allocate_device_memory`). */
module Memory {
  import opened Wrappers
  import opened Vk

  /** `VK_MAX_MEMORY_TYPES`: the length of the `memoryTypes` array of the memory properties. */
  const MAX_MEMORY_TYPES: nat := 32

  datatype MemoryType = MemoryType(propertyFlags: Flags, heapIndex: nat)

  /** `VkPhysicalDeviceMemoryProperties` without the heaps: all 32 array slots, of which the first `memoryTypeCount` are valid. */
  datatype MemoryProperties = MemoryProperties(memoryTypeCount: nat, memoryTypes: seq<MemoryType>)

  predicate WellFormed(p: MemoryProperties)
  {
    |p.memoryTypes| == MAX_MEMORY_TYPES && p.memoryTypeCount <= MAX_MEMORY_TYPES
  }

  /** `VkMemoryRequirements` as reported for a buffer. */
  datatype MemoryRequirements = MemoryRequirements(size: nat, alignment: nat, memoryTypeBits: Flags)

  /** `VkMemoryAllocateInfo`. */
  datatype MemoryAllocateInfo = MemoryAllocateInfo(allocationSize: nat, memoryTypeIndex: nat)

  /** Memory type `i` is allowed by the filter and has every requested property flag. */
  predicate Qualifies(p: MemoryProperties, typeFilter: Flags, flags: Flags, i: nat)
    requires WellFormed(p) && i < MAX_MEMORY_TYPES
  {
    BitSet(typeFilter, i) && Contains(p.memoryTypes[i].propertyFlags, flags)
  }

  /** The least qualifying index in `[from, bound)`, if there is one. */
  function FirstQualifying(p: MemoryProperties, typeFilter: Flags, flags: Flags, from: nat, bound: nat): (r: Option<nat>)
    requires WellFormed(p) && from <= bound <= MAX_MEMORY_TYPES
    ensures r.Some? ==> from <= r.value < bound && Qualifies(p, typeFilter, flags, r.value)
    ensures r.Some? ==> forall j :: from <= j < r.value ==> !Qualifies(p, typeFilter, flags, j)
    ensures r.None? ==> forall j :: from <= j < bound ==> !Qualifies(p, typeFilter, flags, j)
    decreases bound - from
  {
    if from == bound then None
    else if Qualifies(p, typeFilter, flags, from) then Some(from)
    else FirstQualifying(p, typeFilter, flags, from + 1, bound)
  }

  /**
   * `find_memory_type` of the `throttle::graphics` libraries: the least valid index (below
   * `memoryTypeCount`) whose filter bit is set and whose flags contain the requested ones, or an error.
   */
  method FindMemoryType(p: MemoryProperties, typeFilter: Flags, flags: Flags) returns (r: Result<nat>)
    requires WellFormed(p)
    ensures r.Ok? ==> r.value < p.memoryTypeCount && Qualifies(p, typeFilter, flags, r.value)
    ensures r.Ok? ==> forall j :: 0 <= j < r.value ==> !Qualifies(p, typeFilter, flags, j)
    ensures r.Err? ==> r.error == NoSuitableMemoryType
    ensures r.Err? <==> forall j :: 0 <= j < p.memoryTypeCount ==> !Qualifies(p, typeFilter, flags, j)
  {
    var i := 0;
    while i < p.memoryTypeCount
      invariant 0 <= i <= p.memoryTypeCount
      invariant forall j :: 0 <= j < i ==> !Qualifies(p, typeFilter, flags, j)
    {
      if BitSet(typeFilter, i) && Contains(p.memoryTypes[i].propertyFlags, flags) {
        assert Qualifies(p, typeFilter, flags, i);
        return Ok(i);
      }
      i := i + 1;
    }
    return Err(NoSuitableMemoryType);
  }

  /**
   * `ezvk::find_memory_type`: a `std::find_if` over all 32 slots of the array, not only the valid ones,
   * whose predicate bumps a counter on every call; the counter minus one is the index of the match.
   */
  method FindMemoryTypeAllSlots(p: MemoryProperties, typeFilter: Flags, flags: Flags) returns (r: Result<nat>)
    requires WellFormed(p)
    ensures r == match FirstQualifying(p, typeFilter, flags, 0, MAX_MEMORY_TYPES)
                 case Some(i) => Ok(i)
                 case None => Err(NoSuitableMemoryType)
  {
    var counter := 0;
    var pos := 0;
    var found := false;
    while pos < MAX_MEMORY_TYPES && !found
      invariant 0 <= pos <= MAX_MEMORY_TYPES
      invariant counter == if found then pos + 1 else pos
      invariant found ==> FirstQualifying(p, typeFilter, flags, 0, MAX_MEMORY_TYPES) == Some(pos)
      invariant !found ==>
        FirstQualifying(p, typeFilter, flags, 0, MAX_MEMORY_TYPES) == FirstQualifying(p, typeFilter, flags, pos, MAX_MEMORY_TYPES)
      decreases MAX_MEMORY_TYPES - pos, if found then 0 else 1
    {
      var hit := BitSet(typeFilter, counter) && Contains(p.memoryTypes[pos].propertyFlags, flags);
      counter := counter + 1;
      if hit {
        found := true;
      } else {
        pos := pos + 1;
      }
    }
    if !found {
      return Err(NoSuitableMemoryType);
    }
    return Ok(counter - 1);
  }

  /** The filter allows no index at or above `bound`. */
  predicate FilterBelow(typeFilter: Flags, bound: nat)
    requires bound <= MAX_MEMORY_TYPES
  {
    forall i :: bound <= i < MAX_MEMORY_TYPES ==> !BitSet(typeFilter, i)
  }

  /** A qualifying index found below `bound` is the one found below any larger bound. */
  lemma {:induction false} FirstQualifyingPrefix(p: MemoryProperties, typeFilter: Flags, flags: Flags, from: nat, bound: nat, bound': nat)
    requires WellFormed(p) && from <= bound <= bound' <= MAX_MEMORY_TYPES
    requires FirstQualifying(p, typeFilter, flags, from, bound).Some?
    ensures FirstQualifying(p, typeFilter, flags, from, bound') == FirstQualifying(p, typeFilter, flags, from, bound)
    decreases bound - from
  {
    if !Qualifies(p, typeFilter, flags, from) {
      FirstQualifyingPrefix(p, typeFilter, flags, from + 1, bound, bound');
    }
  }

  /**
   * Scanning the unused slots as well changes nothing as long as the filter sets no bit at or above
   * `memoryTypeCount`, which is what the memory requirements a driver reports satisfy.
   */
  lemma AllSlotsAgree(p: MemoryProperties, typeFilter: Flags, flags: Flags)
    requires WellFormed(p) && FilterBelow(typeFilter, p.memoryTypeCount)
    ensures FirstQualifying(p, typeFilter, flags, 0, MAX_MEMORY_TYPES) == FirstQualifying(p, typeFilter, flags, 0, p.memoryTypeCount)
  {
    if FirstQualifying(p, typeFilter, flags, 0, p.memoryTypeCount).Some? {
      FirstQualifyingPrefix(p, typeFilter, flags, 0, p.memoryTypeCount, MAX_MEMORY_TYPES);
    }
  }

  /**
   * An unused slot can be chosen when the filter does set bits above `memoryTypeCount`: with one valid
   * type, a filter of only bit 1 and no requested flags, slot 1 qualifies only for the all-slots scan.
   */
  lemma AllSlotsCanPickUnusedSlot()
    ensures var p := MemoryProperties(1, seq(MAX_MEMORY_TYPES, _ => MemoryType(0, 0)));
            FirstQualifying(p, 2, 0, 0, p.memoryTypeCount).None? &&
            FirstQualifying(p, 2, 0, 0, MAX_MEMORY_TYPES) == Some(1)
  {
    var p := MemoryProperties(1, seq(MAX_MEMORY_TYPES, _ => MemoryType(0, 0)));
    assert !BitSet(2, 0);
    assert BitSet(2, 1);
    assert FirstQualifying(p, 2, 0, 1, MAX_MEMORY_TYPES) == Some(1);
  }

  /** `allocate_device_memory`: the requirement's size, and the memory type `find_memory_type` picks for its type bits. */
  method AllocateDeviceMemory(p: MemoryProperties, reqs: MemoryRequirements, flags: Flags) returns (r: Result<MemoryAllocateInfo>)
    requires WellFormed(p)
    ensures r.Ok? ==> r.value.allocationSize == reqs.size
    ensures r.Ok? ==> FirstQualifying(p, reqs.memoryTypeBits, flags, 0, p.memoryTypeCount) == Some(r.value.memoryTypeIndex)
    ensures r.Err? <==> FirstQualifying(p, reqs.memoryTypeBits, flags, 0, p.memoryTypeCount).None?
    ensures r.Err? ==> r.error == NoSuitableMemoryType
  {
    var index := FindMemoryType(p, reqs.memoryTypeBits, flags);
    LeastIsFirst(p, reqs.memoryTypeBits, flags, index);
    if index.Err? {
      return Err(index.error);
    }
    return Ok(MemoryAllocateInfo(reqs.size, index.value));
  }

  /** The index characterised by the search's contract is the one `FirstQualifying` names. */
  lemma LeastIsFirst(p: MemoryProperties, typeFilter: Flags, flags: Flags, r: Result<nat>)
    requires WellFormed(p)
    requires r.Ok? ==> r.value < p.memoryTypeCount && Qualifies(p, typeFilter, flags, r.value)
    requires r.Ok? ==> forall j :: 0 <= j < r.value ==> !Qualifies(p, typeFilter, flags, j)
    requires r.Err? <==> forall j :: 0 <= j < p.memoryTypeCount ==> !Qualifies(p, typeFilter, flags, j)
    ensures r.Ok? <==> FirstQualifying(p, typeFilter, flags, 0, p.memoryTypeCount).Some?
    ensures r.Ok? ==> FirstQualifying(p, typeFilter, flags, 0, p.memoryTypeCount) == Some(r.value)
  {
  }

  /** `ezvk::allocate_device_memory`, built on the all-slots search. */
  method AllocateDeviceMemoryAllSlots(p: MemoryProperties, reqs: MemoryRequirements, flags: Flags) returns (r: Result<MemoryAllocateInfo>)
    requires WellFormed(p)
    ensures r.Ok? ==> r.value.allocationSize == reqs.size
    ensures r.Ok? ==> FirstQualifying(p, reqs.memoryTypeBits, flags, 0, MAX_MEMORY_TYPES) == Some(r.value.memoryTypeIndex)
    ensures r.Err? <==> FirstQualifying(p, reqs.memoryTypeBits, flags, 0, MAX_MEMORY_TYPES).None?
    ensures r.Err? ==> r.error == NoSuitableMemoryType
  {
    var index := FindMemoryTypeAllSlots(p, reqs.memoryTypeBits, flags);
    if index.Err? {
      return Err(index.error);
    }
    return Ok(MemoryAllocateInfo(reqs.size, index.value));
  }
}
