/**
  The published device inventory of core/registry: devices, their functions and
  argument specs, and lookup by handle.
 */
module Registry {
  import opened Options

  datatype ValueType = BoolType | Int64Type | Uint64Type | DoubleType | StringType | BytesType | UnspecifiedType

  datatype ArgSpec = ArgSpec(
    name: string, kind: ValueType, required: bool,
    minDouble: Option<real>, maxDouble: Option<real>,
    minInt64: Option<int>, maxInt64: Option<int>,
    minUint64: Option<int>, maxUint64: Option<int>,
    allowedValues: seq<string>)

  datatype Category = UnspecifiedCategory | ReadCategory | ActuateCategory | ConfigCategory

  /** Function id 0 is "no id": the selectors treat it as absent. */
  datatype FunctionSpec = FunctionSpec(
    functionId: nat, name: string, args: seq<ArgSpec>, category: Category,
    allowedModes: seq<string>, minIntervalMs: nat)

  /** `functions` is the name-keyed map of the source, in key order. */
  datatype Device = Device(providerId: string, deviceId: string, functions: seq<FunctionSpec>) {
    function Handle(): string { providerId + "/" + deviceId }
  }

  /** Fails closed: only a function declared READ is not actuating. */
  predicate IsActuating(spec: FunctionSpec) { spec.category != ReadCategory }

  /** No later device has this one's handle. */
  predicate IsLastOf(devices: seq<Device>, i: nat)
    requires i < |devices|
  {
    forall j :: i < j < |devices| ==> devices[j].Handle() != devices[i].Handle()
  }

  /** The device a handle resolves to: the index maps a handle to its last occurrence. */
  function Find(devices: seq<Device>, handle: string): (found: Option<Device>)
    ensures found.Some? ==> found.value in devices && found.value.Handle() == handle
    ensures found.None? ==> forall d :: d in devices ==> d.Handle() != handle
    ensures found.Some? ==> exists i :: 0 <= i < |devices| && devices[i] == found.value && IsLastOf(devices, i)
  {
    if devices == [] then None
    else if devices[|devices| - 1].Handle() == handle then Some(devices[|devices| - 1])
    else Find(devices[..|devices| - 1], handle)
  }

  /** Names are map keys, so distinct; ids must be distinct for an id selector to be unambiguous. */
  predicate WellFormedDevice(device: Device) {
    && device.providerId != "" && '/' !in device.providerId && device.deviceId != ""
    && (forall i, j :: 0 <= i < j < |device.functions| ==> device.functions[i].name != device.functions[j].name)
    && (forall i, j :: 0 <= i < j < |device.functions| && device.functions[i].functionId != 0 ==>
          device.functions[i].functionId != device.functions[j].functionId)
  }

  predicate WellFormed(devices: seq<Device>) {
    && (forall d :: d in devices ==> WellFormedDevice(d))
    && (forall i, j :: 0 <= i < j < |devices| ==> devices[i].Handle() != devices[j].Handle())
  }

  /** Publishing a provider's new inventory: its old devices leave, the others keep their order. */
  function Without(devices: seq<Device>, provider: string): seq<Device> {
    if devices == [] then []
    else if devices[0].providerId == provider then Without(devices[1..], provider)
    else [devices[0]] + Without(devices[1..], provider)
  }

  /** The devices of other providers, and none more often than before. */
  lemma {:induction false} WithoutExactly(devices: seq<Device>, provider: string)
    ensures forall d :: d in Without(devices, provider) <==> d in devices && d.providerId != provider
    ensures |Without(devices, provider)| <= |devices|
  {
    if devices != [] {
      WithoutExactly(devices[1..], provider);
    }
  }

  lemma WithoutFirst(first: Device, rest: seq<Device>, provider: string)
    ensures Without([first] + rest, provider) ==
              (if first.providerId == provider then [] else [first]) + Without(rest, provider)
  {
    assert ([first] + rest)[1..] == rest;
  }

  /** Part by part, so the others keep their number and their order. */
  lemma {:induction false} WithoutSplits(devices: seq<Device>, more: seq<Device>, provider: string)
    ensures Without(devices + more, provider) == Without(devices, provider) + Without(more, provider)
  {
    if devices == [] {
      assert devices + more == more;
    } else {
      var first, rest := devices[0], devices[1..];
      WithoutSplits(rest, more, provider);
      WithoutFirst(first, rest, provider);
      WithoutFirst(first, rest + more, provider);
      assert devices == [first] + rest && devices + more == [first] + (rest + more);
    }
  }

  function Replace(devices: seq<Device>, provider: string, discovered: seq<Device>): seq<Device> {
    Without(devices, provider) + discovered
  }
}
