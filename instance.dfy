/**
 * Instance creation: the extensions and layers the application asks for, and the nested-loop
 * checks that the loader supports all of them (`instance.cc`/`instance.hpp` of the
 * `throttle::graphics` libraries).
 */
module Instance {
  import opened Wrappers
  import opened Utils
  import opened Device

  /** The debug-utils instance extension, appended to whatever the windowing library needs. */
  const DEBUG_UTILS_EXTENSION: string := "VK_EXT_debug_utils"

  /** The Khronos validation layer, the only layer requested. */
  const VALIDATION_LAYER: string := "VK_LAYER_KHRONOS_validation"

  /** `vk::LayerProperties` without versions and description. */
  datatype LayerProperties = LayerProperties(layerName: string)

  function LayerName(l: LayerProperties): string
  {
    l.layerName
  }

  /** Every requested name equals the name of some supported entry. */
  predicate AllSupported<P>(requested: seq<string>, supported: seq<P>, name: P -> string)
  {
    forall k :: 0 <= k < |requested| ==> Found(supported, name, requested[k])
  }

  /**
   * `get_required_extensions`: the list the windowing library reports (an input here), with the
   * debug-utils extension pushed onto its end.
   */
  function GetRequiredExtensions(windowing: seq<string>): (r: seq<string>)
    ensures |r| == |windowing| + 1
    ensures r[..|windowing|] == windowing
    ensures r[|windowing|] == DEBUG_UTILS_EXTENSION
  {
    windowing + [DEBUG_UTILS_EXTENSION]
  }

  /** `get_required_layers`: exactly the validation layer. */
  function GetRequiredLayers(): (r: seq<string>)
    ensures |r| == 1 && r[0] == VALIDATION_LAYER
  {
    [VALIDATION_LAYER]
  }

  /**
   * The loop shared by `extensions_supported` and `layers_supported`: for each requested name a
   * `found` flag is cleared, set by any supported entry whose name compares equal, and the check
   * returns false at the first name left unfound.
   */
  method NamesSupported<P>(requested: seq<string>, supported: seq<P>, name: P -> string) returns (b: bool)
    ensures b <==> AllSupported(requested, supported, name)
    ensures requested == [] ==> b
  {
    var found := false;
    for k := 0 to |requested|
      invariant forall j :: 0 <= j < k ==> Found(supported, name, requested[j])
    {
      found := false;
      for s := 0 to |supported|
        invariant found <==> exists t :: 0 <= t < s && name(supported[t]) == requested[k]
      {
        if name(supported[s]) == requested[k] {
          found := true;
        }
      }
      if !found {
        assert !Found(supported, name, requested[k]);
        return false;
      }
    }
    return true;
  }

  /** `extensions_supported`: every requested extension is among the instance extensions the loader reports. */
  method ExtensionsSupported(extensions: seq<string>, supported: seq<ExtensionProperties>) returns (b: bool)
    ensures b <==> AllSupported(extensions, supported, ExtensionName)
  {
    b := NamesSupported(extensions, supported, ExtensionName);
  }

  /** `layers_supported`: every requested layer is among the layers the loader reports. */
  method LayersSupported(layers: seq<string>, supported: seq<LayerProperties>) returns (b: bool)
    ensures b <==> AllSupported(layers, supported, LayerName)
  {
    b := NamesSupported(layers, supported, LayerName);
  }

  /** `is_supported`: both checks hold. */
  method IsSupported(extensions: seq<string>, layers: seq<string>,
                     supportedExtensions: seq<ExtensionProperties>, supportedLayers: seq<LayerProperties>) returns (b: bool)
    ensures b <==> AllSupported(extensions, supportedExtensions, ExtensionName) && AllSupported(layers, supportedLayers, LayerName)
  {
    b := ExtensionsSupported(extensions, supportedExtensions);
    if b {
      b := LayersSupported(layers, supportedLayers);
    }
  }

  /** The Vulkan-relevant part of `vk::InstanceCreateInfo` and its `vk::ApplicationInfo`. */
  datatype InstanceCreateInfo = InstanceCreateInfo(
    applicationName: string,
    applicationVersion: nat,
    engineName: string,
    engineVersion: nat,
    apiVersion: nat,
    enabledLayers: seq<string>,
    enabledExtensions: seq<string>)

  /**
   * `create_instance`: the required extensions and layers, refused with an error when the loader
   * lacks any of them; otherwise all of them are enabled, and the loader's version is used for the
   * application, engine and API versions.
   */
  method CreateInstance(windowing: seq<string>, version: nat,
                        supportedExtensions: seq<ExtensionProperties>, supportedLayers: seq<LayerProperties>)
    returns (r: Result<InstanceCreateInfo>)
    ensures r.Err? <==> !(AllSupported(GetRequiredExtensions(windowing), supportedExtensions, ExtensionName) &&
                          AllSupported(GetRequiredLayers(), supportedLayers, LayerName))
    ensures r.Err? ==> r.error == UnsupportedInstance
    ensures r.Ok? ==> r.value.enabledExtensions == GetRequiredExtensions(windowing) &&
                      r.value.enabledLayers == GetRequiredLayers()
    ensures r.Ok? ==> r.value.applicationVersion == version && r.value.engineVersion == version &&
                      r.value.apiVersion == version
  {
    var extensions := GetRequiredExtensions(windowing);
    var layers := GetRequiredLayers();
    var ok := IsSupported(extensions, layers, supportedExtensions, supportedLayers);
    if !ok {
      return Err(UnsupportedInstance);
    }
    return Ok(InstanceCreateInfo("Triangles intersection", version, "Best engine", version, version, layers, extensions));
  }

  /** The support rule splits over concatenation. */
  lemma {:induction false} AllSupportedConcat<P>(a: seq<string>, b: seq<string>, supported: seq<P>, name: P -> string)
    ensures AllSupported(a + b, supported, name) <==> AllSupported(a, supported, name) && AllSupported(b, supported, name)
  {
    if AllSupported(a, supported, name) && AllSupported(b, supported, name) {
      forall k | 0 <= k < |a + b|
        ensures Found(supported, name, (a + b)[k])
      {
        if k < |a| {
          assert (a + b)[k] == a[k];
        } else {
          assert (a + b)[k] == b[k - |a|];
        }
      }
    }
    if AllSupported(a + b, supported, name) {
      forall k | 0 <= k < |a|
        ensures Found(supported, name, a[k])
      {
        assert (a + b)[k] == a[k];
      }
      forall k | 0 <= k < |b|
        ensures Found(supported, name, b[k])
      {
        assert (a + b)[|a| + k] == b[k];
      }
    }
  }

  /**
   * Instance creation succeeds iff the loader supports every extension the windowing library
   * needs, the debug-utils extension and the validation layer.
   */
  lemma CreateInstanceCondition(windowing: seq<string>, supportedExtensions: seq<ExtensionProperties>, supportedLayers: seq<LayerProperties>)
    ensures AllSupported(GetRequiredExtensions(windowing), supportedExtensions, ExtensionName) &&
            AllSupported(GetRequiredLayers(), supportedLayers, LayerName)
        <==> AllSupported(windowing, supportedExtensions, ExtensionName) &&
             Found(supportedExtensions, ExtensionName, DEBUG_UTILS_EXTENSION) &&
             Found(supportedLayers, LayerName, VALIDATION_LAYER)
  {
    AllSupportedConcat(windowing, [DEBUG_UTILS_EXTENSION], supportedExtensions, ExtensionName);
    assert [DEBUG_UTILS_EXTENSION][0] == DEBUG_UTILS_EXTENSION;
    assert GetRequiredLayers()[0] == VALIDATION_LAYER;
  }
}
