/**
 * Physical-device selection and the logical-device request: the extension support checks, the
 * first-suitable device pick and the queue requests for the distinct graphics/present families
 * (`device.cc`/`device.hpp` of the `throttle::graphics` libraries and `ezvk/device.hpp`).
 */
module Device {
  import opened Wrappers
  import opened Utils
  import opened Queues

  /** `VK_KHR_SWAPCHAIN_EXTENSION_NAME`. */
  const SWAPCHAIN_EXTENSION: string := "VK_KHR_swapchain"

  /** `vk::ExtensionProperties` without the spec version. */
  datatype ExtensionProperties = ExtensionProperties(extensionName: string)

  /** What the model needs of a physical device: its extensions, its queue families and, per family, surface support. */
  datatype PhysicalDevice = PhysicalDevice(
    extensions: seq<ExtensionProperties>,
    queueFamilies: seq<QueueFamilyProperties>,
    surfaceSupport: seq<bool>)

  /** The device offers an extension of this name. */
  predicate Offers(extensions: seq<ExtensionProperties>, name: string)
  {
    exists i :: 0 <= i < |extensions| && extensions[i].extensionName == name
  }

  /** Every required name is offered. */
  predicate OffersAll(extensions: seq<ExtensionProperties>, required: seq<string>)
  {
    forall k :: 0 <= k < |required| ==> Offers(extensions, required[k])
  }

  function Elements<T>(s: seq<T>): set<T>
  {
    set x | x in s
  }

  function OfferedNames(extensions: seq<ExtensionProperties>): set<string>
  {
    set e | e in extensions :: e.extensionName
  }

  /**
   * `device_supports_extensions`: the required names go into a `std::set`, every offered name is
   * erased from it, and the device qualifies iff the set ends up empty.
   */
  method DeviceSupportsExtensions(extensions: seq<ExtensionProperties>, required: seq<string>) returns (b: bool)
    ensures b <==> OffersAll(extensions, required)
    ensures required == [] ==> b
  {
    var remaining := Elements(required);
    for k := 0 to |extensions|
      invariant remaining == Elements(required) - OfferedNames(extensions[..k])
    {
      assert OfferedNames(extensions[..k + 1]) == OfferedNames(extensions[..k]) + {extensions[k].extensionName} by {
        assert extensions[..k + 1] == extensions[..k] + [extensions[k]];
      }
      remaining := remaining - {extensions[k].extensionName};
    }
    assert extensions[..|extensions|] == extensions;
    b := remaining == {};
    if b {
      forall k | 0 <= k < |required|
        ensures Offers(extensions, required[k])
      {
        assert required[k] in Elements(required);
        assert required[k] !in remaining;
        assert required[k] in OfferedNames(extensions);
        var e :| e in extensions && e.extensionName == required[k];
        var i :| 0 <= i < |extensions| && extensions[i] == e;
      }
    } else {
      var name :| name in remaining;
      var k :| 0 <= k < |required| && required[k] == name;
    }
  }

  /** The outcome of the support check depends only on the set of required names: order and repetition do not matter. */
  lemma OffersAllBySet(extensions: seq<ExtensionProperties>, required: seq<string>, required': seq<string>)
    requires Elements(required) == Elements(required')
    ensures OffersAll(extensions, required) <==> OffersAll(extensions, required')
  {
    if OffersAll(extensions, required) {
      forall k | 0 <= k < |required'|
        ensures Offers(extensions, required'[k])
      {
        assert required'[k] in Elements(required);
      }
    }
    if OffersAll(extensions, required') {
      forall k | 0 <= k < |required|
        ensures Offers(extensions, required[k])
      {
        assert required[k] in Elements(required');
      }
    }
  }

  predicate Suitable(d: PhysicalDevice)
  {
    Offers(d.extensions, SWAPCHAIN_EXTENSION)
  }

  /** `is_device_suitable`: the device supports the swapchain extension. */
  method IsDeviceSuitable(d: PhysicalDevice) returns (b: bool)
    ensures b <==> Suitable(d)
  {
    b := DeviceSupportsExtensions(d.extensions, [SWAPCHAIN_EXTENSION]);
    assert [SWAPCHAIN_EXTENSION][0] == SWAPCHAIN_EXTENSION;
  }

  /** `pick_physical_device`: the first suitable device in enumeration order, or the null handle (`None`). */
  method PickPhysicalDevice(devices: seq<PhysicalDevice>) returns (r: Option<PhysicalDevice>)
    ensures r.None? <==> forall i :: 0 <= i < |devices| ==> !Suitable(devices[i])
    ensures r.Some? ==> exists i :: 0 <= i < |devices| && devices[i] == r.value && Suitable(devices[i]) &&
                                    forall j :: 0 <= j < i ==> !Suitable(devices[j])
  {
    for i := 0 to |devices|
      invariant forall j :: 0 <= j < i ==> !Suitable(devices[j])
    {
      var ok := IsDeviceSuitable(devices[i]);
      if ok {
        return Some(devices[i]);
      }
    }
    return None;
  }

  // ---------------------------------------------------------------------------------------------
  // create_device

  /** `vk::DeviceQueueCreateInfo` without the priority pointer. */
  datatype DeviceQueueCreateInfo = DeviceQueueCreateInfo(queueFamilyIndex: nat, queueCount: nat)

  /** `vk::DeviceCreateInfo`: the queue requests, the enabled layers and the enabled extensions. */
  datatype DeviceCreateInfo = DeviceCreateInfo(
    queueCreateInfos: seq<DeviceQueueCreateInfo>,
    enabledLayers: seq<string>,
    enabledExtensions: seq<string>)

  function Families(qs: seq<DeviceQueueCreateInfo>): (r: seq<nat>)
    ensures |r| == |qs| && forall i :: 0 <= i < |qs| ==> r[i] == qs[i].queueFamilyIndex
  {
    if qs == [] then [] else [qs[0].queueFamilyIndex] + Families(qs[1..])
  }

  /** The distinct values among two family indices, in ascending order. */
  function DistinctAscending(g: nat, p: nat): seq<nat>
  {
    if g == p then [g] else if g < p then [g, p] else [p, g]
  }

  /** A set of naturals holding `x` has a least element, found by descending from `x`. */
  lemma {:induction false} HasLeast(s: set<nat>, x: nat)
    requires x in s
    ensures exists m :: m in s && forall y :: y in s ==> m <= y
    decreases x
  {
    if exists y :: y in s && y < x {
      var y :| y in s && y < x;
      HasLeast(s, y);
    }
  }

  /** Iteration over a `std::set<uint32_t>`: every element once, in ascending order. */
  method Ascending(s: set<nat>) returns (r: seq<nat>)
    ensures StrictlyIncreasing(r)
    ensures forall x :: x in r <==> x in s
    ensures |r| == |s|
  {
    var remaining := s;
    r := [];
    while remaining != {}
      invariant remaining <= s
      invariant StrictlyIncreasing(r)
      invariant forall x :: x in r <==> x in s && x !in remaining
      invariant forall i, y :: 0 <= i < |r| && y in remaining ==> r[i] < y
      invariant |r| + |remaining| == |s|
      decreases |remaining|
    {
      var x :| x in remaining;
      HasLeast(remaining, x);
      var m :| m in remaining && forall y :: y in remaining ==> m <= y;
      assert |remaining - {m}| == |remaining| - 1;
      r := r + [m];
      remaining := remaining - {m};
    }
  }

  /** An ascending duplicate-free listing of `{g, p}` is `DistinctAscending(g, p)`. */
  lemma AscendingPair(g: nat, p: nat, r: seq<nat>)
    requires StrictlyIncreasing(r)
    requires forall x :: x in r <==> x in {g, p}
    requires |r| == |{g, p}|
    ensures r == DistinctAscending(g, p)
  {
    if g == p {
      assert {g, p} == {g};
      assert |r| == 1 && r[0] in r;
    } else {
      assert |{g, p}| == 2;
      assert r[0] in r && r[1] in r;
      assert g in r && p in r;
    }
  }

  /**
   * `create_device` (the request it passes to the driver): one queue of each distinct family among
   * the graphics and present indices, ascending; no layers; exactly the swapchain extension. The
   * family lookup's errors propagate.
   */
  method CreateDevice(d: PhysicalDevice) returns (r: Result<DeviceCreateInfo>)
    requires |d.surfaceSupport| == |d.queueFamilies|
    ensures r.Ok? <==> GraphicsAndPresent(d.queueFamilies, d.surfaceSupport).Ok?
    ensures r.Err? ==> r.error == GraphicsAndPresent(d.queueFamilies, d.surfaceSupport).error
    ensures r.Ok? ==> var (g, p) := GraphicsAndPresent(d.queueFamilies, d.surfaceSupport).value;
                      Families(r.value.queueCreateInfos) == DistinctAscending(g, p)
    ensures r.Ok? ==> forall i :: 0 <= i < |r.value.queueCreateInfos| ==> r.value.queueCreateInfos[i].queueCount == 1
    ensures r.Ok? ==> r.value.enabledLayers == [] && r.value.enabledExtensions == [SWAPCHAIN_EXTENSION]
  {
    var indices := FindGraphicsAndPresentFamilyIndices(d.queueFamilies, d.surfaceSupport);
    if indices.Err? {
      return Err(indices.error);
    }
    var (g, p) := indices.value;
    var unique := Ascending({g, p});
    AscendingPair(g, p, unique);
    var queueCreateInfos: seq<DeviceQueueCreateInfo> := [];
    for k := 0 to |unique|
      invariant |queueCreateInfos| == k
      invariant forall i :: 0 <= i < k ==> queueCreateInfos[i] == DeviceQueueCreateInfo(unique[i], 1)
    {
      queueCreateInfos := queueCreateInfos + [DeviceQueueCreateInfo(unique[k], 1)];
    }
    assert Families(queueCreateInfos) == unique;
    return Ok(DeviceCreateInfo(queueCreateInfos, [], [SWAPCHAIN_EXTENSION]));
  }

  /** With a single family for graphics and presentation, one queue is requested; with two, two. */
  lemma QueueRequestCount(g: nat, p: nat)
    ensures |DistinctAscending(g, p)| == if g == p then 1 else 2
    ensures StrictlyIncreasing(DistinctAscending(g, p))
    ensures forall x :: x in DistinctAscending(g, p) <==> x == g || x == p
  {
  }

  // ---------------------------------------------------------------------------------------------
  // ezvk::physical_device_selector

  function ExtensionName(e: ExtensionProperties): string
  {
    e.extensionName
  }

  /** `Found` with the extension-name projection is `Offers`. */
  lemma FoundIsOffers(extensions: seq<ExtensionProperties>, name: string)
    ensures Found(extensions, ExtensionName, name) <==> Offers(extensions, name)
  {
    if Offers(extensions, name) {
      var i :| 0 <= i < |extensions| && extensions[i].extensionName == name;
      assert ExtensionName(extensions[i]) == name;
    }
  }

  /**
   * `supports_extensions`: the requested names the device lacks (`find_all_missing` over the
   * extension names), paired with whether that list is empty.
   */
  method SupportsExtensions(d: PhysicalDevice, required: seq<string>) returns (r: (bool, seq<string>))
    ensures r.1 == Missing(d.extensions, required, ExtensionName)
    ensures r.0 <==> r.1 == []
    ensures r.0 <==> OffersAll(d.extensions, required)
  {
    var missing := FindAllMissing(d.extensions, required, ExtensionName);
    MissingShape(d.extensions, required, ExtensionName);
    forall k | 0 <= k < |required| {
      FoundIsOffers(d.extensions, required[k]);
    }
    return (missing == [], missing);
  }

  /** The test `enumerate_suitable_physical_devices` applies: the first component of `supports_extensions`. */
  function SupportsAll(required: seq<string>): PhysicalDevice -> bool
  {
    (d: PhysicalDevice) => OffersAll(d.extensions, required)
  }

  /** `enumerate_suitable_physical_devices`: the devices that support every requested extension, in enumeration order. */
  method EnumerateSuitablePhysicalDevices(devices: seq<PhysicalDevice>, required: seq<string>) returns (suitable: seq<PhysicalDevice>)
    ensures suitable == Filter(devices, SupportsAll(required))
  {
    suitable := [];
    for i := 0 to |devices|
      invariant suitable == Filter(devices[..i], SupportsAll(required))
    {
      assert devices[..i + 1][..i] == devices[..i];
      var supported := SupportsExtensions(devices[i], required);
      if supported.0 {
        suitable := suitable + [devices[i]];
      }
    }
    assert devices[..|devices|] == devices;
  }

  /** The suitable devices are exactly the enumerated ones that support every requested extension, each as often as enumerated. */
  lemma SuitableDevices(devices: seq<PhysicalDevice>, required: seq<string>, d: PhysicalDevice)
    ensures d in Filter(devices, SupportsAll(required)) <==> d in devices && OffersAll(d.extensions, required)
    ensures multiset(Filter(devices, SupportsAll(required)))[d] ==
            if OffersAll(d.extensions, required) then multiset(devices)[d] else 0
  {
    FilterShape(devices, SupportsAll(required));
    FilterCount(devices, SupportsAll(required), d);
  }
}
