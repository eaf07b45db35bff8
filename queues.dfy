/**
 * Queue families: which families can draw or present, the first such family, and the queue
 * handles fetched from the logical device (`ezvk/queues.hpp` and the `queue_families` files of the
 * `throttle::graphics` libraries).
 */
module Queues {
  import opened Wrappers
  import opened Vk
  import opened Utils

  /** `vk::QueueFamilyProperties`: the capabilities of one family and how many queues it has. */
  datatype QueueFamilyProperties = QueueFamilyProperties(queueFlags: Flags, queueCount: nat)

  /** A queue handle; the driver hands out the same queue for the same family and index. */
  datatype Queue = Queue(family: nat, index: nat)

  predicate StrictlyIncreasing(s: seq<nat>)
  {
    forall i, j :: 0 <= i < j < |s| ==> s[i] < s[j]
  }

  predicate HasQueueType(properties: seq<QueueFamilyProperties>, queueBits: Flags, i: nat)
  {
    i < |properties| && Intersects(properties[i].queueFlags, queueBits)
  }

  predicate Supported(surfaceSupport: seq<bool>, i: nat)
  {
    i < |surfaceSupport| && surfaceSupport[i]
  }

  /** `find_family_indices_with_queue_type`: every family whose flags meet the requested bits, ascending. */
  method FindFamilyIndicesWithQueueType(properties: seq<QueueFamilyProperties>, queueBits: Flags) returns (indices: seq<nat>)
    ensures StrictlyIncreasing(indices)
    ensures forall i: nat :: i in indices <==> HasQueueType(properties, queueBits, i)
  {
    indices := [];
    var i := 0;
    while i < |properties|
      invariant 0 <= i <= |properties|
      invariant StrictlyIncreasing(indices)
      invariant forall k :: 0 <= k < |indices| ==> indices[k] < i
      invariant forall k: nat :: k in indices <==> k < i && HasQueueType(properties, queueBits, k)
    {
      if Intersects(properties[i].queueFlags, queueBits) {
        indices := indices + [i];
      }
      i := i + 1;
    }
  }

  /**
   * `find_present_family_indices`: every family index below the family count for which the surface
   * support query answers true, ascending. `surfaceSupport[i]` is the answer for family `i`.
   */
  method FindPresentFamilyIndices(familyCount: nat, surfaceSupport: seq<bool>) returns (indices: seq<nat>)
    requires |surfaceSupport| == familyCount
    ensures StrictlyIncreasing(indices)
    ensures forall i: nat :: i in indices <==> Supported(surfaceSupport, i)
  {
    indices := [];
    var i := 0;
    while i < familyCount
      invariant 0 <= i <= familyCount
      invariant StrictlyIncreasing(indices)
      invariant forall k :: 0 <= k < |indices| ==> indices[k] < i
      invariant forall k: nat :: k in indices <==> k < i && Supported(surfaceSupport, k)
    {
      if surfaceSupport[i] {
        indices := indices + [i];
      }
      i := i + 1;
    }
  }

  /** A strictly increasing list is determined by its elements: both finders have exactly one possible result. */
  lemma {:induction false} StrictlyIncreasingUnique(a: seq<nat>, b: seq<nat>)
    requires StrictlyIncreasing(a) && StrictlyIncreasing(b)
    requires forall x :: x in a <==> x in b
    ensures a == b
    decreases |a|
  {
    assert |a| > 0 ==> a[0] in b;
    assert |b| > 0 ==> b[0] in a;
    if |a| > 0 && |b| > 0 {
      assert a[0] in b && b[0] in a;
      forall x | x in a[1..]
        ensures x in b[1..]
      {
        var k :| 1 <= k < |a| && a[k] == x;
        assert x in a;
        var m :| 0 <= m < |b| && b[m] == x;
        assert m != 0;
      }
      forall x | x in b[1..]
        ensures x in a[1..]
      {
        var k :| 1 <= k < |b| && b[k] == x;
        assert x in b;
        var m :| 0 <= m < |a| && a[m] == x;
        assert m != 0;
      }
      StrictlyIncreasingUnique(a[1..], b[1..]);
    }
  }

  /** `std::set_intersection` of two ascending lists: the common elements, ascending. */
  method SetIntersection(a: seq<nat>, b: seq<nat>) returns (r: seq<nat>)
    requires StrictlyIncreasing(a) && StrictlyIncreasing(b)
    ensures StrictlyIncreasing(r)
    ensures forall x :: x in r <==> x in a && x in b
  {
    r := [];
    var i, j := 0, 0;
    while i < |a| && j < |b|
      invariant 0 <= i <= |a| && 0 <= j <= |b|
      invariant StrictlyIncreasing(r)
      invariant forall x :: x in r <==> x in a[..i] && x in b[..j]
      invariant i < |a| ==> forall k :: 0 <= k < j ==> b[k] < a[i]
      invariant j < |b| ==> forall k :: 0 <= k < i ==> a[k] < b[j]
      invariant forall k :: 0 <= k < |r| ==> (i < |a| ==> r[k] < a[i]) && (j < |b| ==> r[k] < b[j])
      decreases |a| - i + |b| - j
    {
      assert a[..i + 1] == a[..i] + [a[i]];
      assert b[..j + 1] == b[..j] + [b[j]];
      if a[i] < b[j] {
        i := i + 1;
      } else if b[j] < a[i] {
        j := j + 1;
      } else {
        r := r + [a[i]];
        i, j := i + 1, j + 1;
      }
    }
    forall x | x in a && x in b
      ensures x in a[..i] && x in b[..j]
    {
      var k :| 0 <= k < |a| && a[k] == x;
      var m :| 0 <= m < |b| && b[m] == x;
    }
  }

  // ---------------------------------------------------------------------------------------------
  // The first graphics family and the first presenting family

  predicate IsGraphicsFamily(qfp: QueueFamilyProperties)
  {
    Intersects(qfp.queueFlags, QUEUE_GRAPHICS)
  }

  /** `find_graphics_family_index`: the position of the first family with the graphics bit, or the error it throws. */
  function FindGraphicsFamilyIndex(properties: seq<QueueFamilyProperties>): (r: Result<nat>)
    ensures r.Ok? ==> r.value < |properties| && IsGraphicsFamily(properties[r.value])
    ensures r.Ok? ==> forall j :: 0 <= j < r.value ==> !IsGraphicsFamily(properties[j])
    ensures r.Err? <==> forall j :: 0 <= j < |properties| ==> !IsGraphicsFamily(properties[j])
    ensures r.Err? ==> r.error == NoGraphicsFamily
  {
    match FindIf(properties, IsGraphicsFamily)
    case Some(i) => Ok(i)
    case None => Err(NoGraphicsFamily)
  }

  /**
   * What `find_graphics_and_present_family_indices` returns: the first graphics family and the
   * lowest index with surface support, looked up in that order.
   */
  function GraphicsAndPresent(properties: seq<QueueFamilyProperties>, surfaceSupport: seq<bool>): (r: Result<(nat, nat)>)
    ensures r.Ok? ==> FindGraphicsFamilyIndex(properties) == Ok(r.value.0)
    ensures r.Ok? ==> r.value.1 < |surfaceSupport| && surfaceSupport[r.value.1]
    ensures r.Ok? ==> forall j :: 0 <= j < r.value.1 ==> !surfaceSupport[j]
    ensures FindGraphicsFamilyIndex(properties).Err? ==> r == Err(NoGraphicsFamily)
    ensures FindGraphicsFamilyIndex(properties).Ok? && (forall j :: 0 <= j < |surfaceSupport| ==> !surfaceSupport[j])
            ==> r == Err(NoPresentFamily)
    ensures r.Ok? <==> FindGraphicsFamilyIndex(properties).Ok? && exists j :: 0 <= j < |surfaceSupport| && surfaceSupport[j]
  {
    match FindGraphicsFamilyIndex(properties)
    case Err(e) => Err(e)
    case Ok(g) =>
      match FindIf(surfaceSupport, (b: bool) => b)
      case Some(p) => Ok((g, p))
      case None => Err(NoPresentFamily)
  }

  /** `find_graphics_and_present_family_indices`: the graphics lookup, then an early-return scan for surface support. */
  method FindGraphicsAndPresentFamilyIndices(properties: seq<QueueFamilyProperties>, surfaceSupport: seq<bool>)
    returns (r: Result<(nat, nat)>)
    requires |surfaceSupport| == |properties|
    ensures r == GraphicsAndPresent(properties, surfaceSupport)
  {
    var g := FindGraphicsFamilyIndex(properties);
    if g.Err? {
      return Err(g.error);
    }
    var idx := 0;
    while idx < |properties|
      invariant 0 <= idx <= |properties|
      invariant forall j :: 0 <= j < idx ==> !surfaceSupport[j]
    {
      if surfaceSupport[idx] {
        return Ok((g.value, idx));
      }
      idx := idx + 1;
    }
    return Err(NoPresentFamily);
  }

  /** The ascending graphics list starts with the family `find_graphics_family_index` picks, and is empty iff that throws. */
  lemma GraphicsFrontIsFirst(properties: seq<QueueFamilyProperties>, indices: seq<nat>)
    requires StrictlyIncreasing(indices)
    requires forall i: nat :: i in indices <==> HasQueueType(properties, QUEUE_GRAPHICS, i)
    ensures indices == [] <==> FindGraphicsFamilyIndex(properties).Err?
    ensures indices != [] ==> FindGraphicsFamilyIndex(properties) == Ok(indices[0])
  {
    var r := FindGraphicsFamilyIndex(properties);
    assert indices != [] ==> indices[0] in indices;
    if r.Ok? {
      assert HasQueueType(properties, QUEUE_GRAPHICS, r.value);
      assert r.value in indices;
      var k :| 0 <= k < |indices| && indices[k] == r.value;
      assert HasQueueType(properties, QUEUE_GRAPHICS, indices[0]);
    }
  }

  /**
   * Each lookup picks its own first family: with a graphics-only family 0 and a family 1 that can
   * both draw and present, the result is (0, 1) although family 1 alone would have served.
   */
  lemma NoPreferenceForCombinedFamily()
    ensures GraphicsAndPresent([QueueFamilyProperties(QUEUE_GRAPHICS, 1), QueueFamilyProperties(QUEUE_GRAPHICS, 1)], [false, true])
            == Ok((0, 1))
  {
    var props := [QueueFamilyProperties(QUEUE_GRAPHICS, 1), QueueFamilyProperties(QUEUE_GRAPHICS, 1)];
    assert IsGraphicsFamily(props[0]);
    assert FindIf([false, true], (b: bool) => b) == Some(1);
  }

  // ---------------------------------------------------------------------------------------------
  // Queue handles

  /** `ezvk::device_queue`: the queue together with the family and index it was fetched with. */
  datatype DeviceQueue = DeviceQueue(queue: Queue, familyIndex: nat, queueIndex: nat)

  function MakeDeviceQueue(family: nat, index: nat): (r: DeviceQueue)
    ensures r.familyIndex == family && r.queueIndex == index
    ensures r.queue == Queue(r.familyIndex, r.queueIndex)
  {
    DeviceQueue(Queue(family, index), family, index)
  }

  /** The two `i_graphics_present_queues` implementations. */
  datatype GraphicsPresentQueues =
    | Separate(graphicsQueue: Queue, presentQueue: Queue)
    | Single(queue: Queue)
  {
    function Graphics(): Queue
    {
      if Separate? then graphicsQueue else queue
    }

    function Present(): Queue
    {
      if Separate? then presentQueue else queue
    }
  }

  /** `separate_graphics_present_queues`: graphics from (graphics family, graphics index), present from (present family, present index). */
  function SeparateGraphicsPresentQueues(graphicsFamily: nat, graphics: nat, presentFamily: nat, present: nat): (r: GraphicsPresentQueues)
    ensures r.Graphics() == Queue(graphicsFamily, graphics) && r.Present() == Queue(presentFamily, present)
    ensures (graphicsFamily, graphics) != (presentFamily, present) ==> r.Graphics() != r.Present()
  {
    Separate(Queue(graphicsFamily, graphics), Queue(presentFamily, present))
  }

  /** `single_graphics_present_queues`: one queue answers both roles. */
  function SingleGraphicsPresentQueues(family: nat, index: nat): (r: GraphicsPresentQueues)
    ensures r.Graphics() == r.Present() == Queue(family, index)
  {
    Single(Queue(family, index))
  }

  /** Separate queues built from one family and index behave as the single-queue variant. */
  lemma SeparateOfSameIsSingle(family: nat, index: nat)
    ensures SeparateGraphicsPresentQueues(family, index, family, index).Graphics() == SingleGraphicsPresentQueues(family, index).Graphics()
    ensures SeparateGraphicsPresentQueues(family, index, family, index).Present() == SingleGraphicsPresentQueues(family, index).Present()
  {
  }

  /** The engine's `queues` record: both family indices and queue 0 of each family. */
  datatype EngineQueues = EngineQueues(graphics: Queue, present: Queue, graphicsIndex: nat, presentIndex: nat)

  method MakeEngineQueues(properties: seq<QueueFamilyProperties>, surfaceSupport: seq<bool>) returns (r: Result<EngineQueues>)
    requires |surfaceSupport| == |properties|
    ensures r.Err? <==> GraphicsAndPresent(properties, surfaceSupport).Err?
    ensures r.Err? ==> r.error == GraphicsAndPresent(properties, surfaceSupport).error
    ensures r.Ok? ==> (r.value.graphicsIndex, r.value.presentIndex) == GraphicsAndPresent(properties, surfaceSupport).value
    ensures r.Ok? ==> r.value.graphics == Queue(r.value.graphicsIndex, 0) && r.value.present == Queue(r.value.presentIndex, 0)
  {
    var indices := FindGraphicsAndPresentFamilyIndices(properties, surfaceSupport);
    if indices.Err? {
      return Err(indices.error);
    }
    var (g, p) := indices.value;
    return Ok(EngineQueues(Queue(g, 0), Queue(p, 0), g, p));
  }
}
