/**
  The refuse-hookless gate of core/runtime/actuation_gate.cpp: AUTO is refused
  when automation is enabled, something actuates, and no mode-transition hook
  covers AUTO -> FAULT.
 */
module ActuationGate {
  import opened Modes
  import opened Registry

  /** A hook's mode filters; empty or "*" matches any mode. */
  datatype HookConfig = HookConfig(from: string, to: string)

  datatype AutomationConfig = AutomationConfig(enabled: bool, before: seq<HookConfig>, after: seq<HookConfig>)

  predicate CoversAutoToFault(hook: HookConfig) {
    && (hook.from == "" || hook.from == "*" || hook.from == "AUTO")
    && (hook.to == "" || hook.to == "*" || hook.to == "FAULT")
  }

  /** The dispatcher's own match of a filter against a mode. */
  predicate FilterMatches(filter: string, mode: Mode) { filter == "" || filter == "*" || filter == NameOf(mode) }

  /** The dispatcher runs the hook on this change of mode. */
  predicate FiresOn(hook: HookConfig, prev: Mode, next: Mode) {
    FilterMatches(hook.from, prev) && FilterMatches(hook.to, next)
  }

  /** The gate counts a hook exactly when the dispatcher would run it on AUTO to FAULT. */
  lemma GateCountsWhatFires(hook: HookConfig)
    ensures CoversAutoToFault(hook) <==> FiresOn(hook, Auto, Fault)
  {
  }

  /**
    The gate refuses exactly when automation is enabled, some function of some
    device is not declared READ, and no hook, before or after, fires on AUTO to FAULT.
   */
  lemma GateRefusesExactly(automation: AutomationConfig, devices: seq<Device>)
    ensures GateRefuses(automation, devices) <==>
              && automation.enabled
              && (forall h <- automation.before + automation.after :: !FiresOn(h, Auto, Fault))
              && exists i, j :: 0 <= i < |devices| && 0 <= j < |devices[i].functions|
                                && devices[i].functions[j].category != ReadCategory
  {
    forall h ensures CoversAutoToFault(h) <==> FiresOn(h, Auto, Fault) {
      GateCountsWhatFires(h);
    }
    if HasFaultHook(automation) {
      var h :| (h in automation.before || h in automation.after) && CoversAutoToFault(h);
      assert h in automation.before + automation.after;
    }
    if Actuates(devices) {
      var d, f :| d in devices && f in d.functions && IsActuating(f);
      var i :| 0 <= i < |devices| && devices[i] == d;
      var j :| 0 <= j < |devices[i].functions| && devices[i].functions[j] == f;
    }
    if exists i, j :: 0 <= i < |devices| && 0 <= j < |devices[i].functions|
                      && devices[i].functions[j].category != ReadCategory {
      var i, j :| 0 <= i < |devices| && 0 <= j < |devices[i].functions|
                  && devices[i].functions[j].category != ReadCategory;
      assert devices[i] in devices && devices[i].functions[j] in devices[i].functions;
    }
  }

  predicate HasFaultHook(automation: AutomationConfig) {
    || (exists h :: h in automation.before && CoversAutoToFault(h))
    || (exists h :: h in automation.after && CoversAutoToFault(h))
  }

  /** Something in the inventory can actuate; an unclassified function counts. */
  predicate Actuates(devices: seq<Device>) {
    exists d :: d in devices && exists f :: f in d.functions && IsActuating(f)
  }

  predicate GateRefuses(automation: AutomationConfig, devices: seq<Device>) {
    automation.enabled && !HasFaultHook(automation) && Actuates(devices)
  }

  /** The device and function names of everything that actuates, in inventory order. */
  function ActuatingIn(handle: string, functions: seq<FunctionSpec>): seq<(string, string)> {
    if functions == [] then []
    else
      var last := functions[|functions| - 1];
      ActuatingIn(handle, functions[..|functions| - 1]) + if IsActuating(last) then [(handle, last.name)] else []
  }

  function ActuatingNames(devices: seq<Device>): seq<(string, string)> {
    if devices == [] then []
    else
      var last := devices[|devices| - 1];
      ActuatingNames(devices[..|devices| - 1]) + ActuatingIn(last.Handle(), last.functions)
  }

  lemma {:induction false} NamesSomeInDevice(handle: string, functions: seq<FunctionSpec>)
    ensures ActuatingIn(handle, functions) == [] <==> forall f :: f in functions ==> !IsActuating(f)
  {
    if functions != [] {
      NamesSomeInDevice(handle, functions[..|functions| - 1]);
      assert functions == functions[..|functions| - 1] + [functions[|functions| - 1]];
    }
  }

  lemma {:induction false} NamesInDevice(handle: string, functions: seq<FunctionSpec>, n: (string, string))
    ensures n in ActuatingIn(handle, functions) <==>
              n.0 == handle && exists f <- functions :: f.category != ReadCategory && f.name == n.1
  {
    if functions != [] {
      NamesInDevice(handle, functions[..|functions| - 1], n);
      assert functions == functions[..|functions| - 1] + [functions[|functions| - 1]];
    }
  }

  /** Named are exactly the functions not declared READ, each with its device's handle. */
  lemma {:induction false} NamesExactly(devices: seq<Device>, n: (string, string))
    ensures n in ActuatingNames(devices) <==>
              exists d <- devices :: d.Handle() == n.0 && HasActuating(d.functions, n.1)
  {
    if devices != [] {
      var front, last := devices[..|devices| - 1], devices[|devices| - 1];
      assert devices == front + [last];
      NamesExactly(front, n);
      NamesInDevice(last.Handle(), last.functions, n);
    }
  }

  predicate HasActuating(functions: seq<FunctionSpec>, name: string) {
    exists f <- functions :: f.category != ReadCategory && f.name == name
  }

  /** Something is named exactly when something actuates. */
  lemma {:induction false} NamesSomeExactlyWhenActuating(devices: seq<Device>)
    ensures ActuatingNames(devices) != [] <==> Actuates(devices)
  {
    if devices != [] {
      var front, last := devices[..|devices| - 1], devices[|devices| - 1];
      assert devices == front + [last];
      NamesSomeExactlyWhenActuating(front);
      NamesSomeInDevice(last.Handle(), last.functions);
    }
  }

  /** `evaluate_hookless_auto_gate`: the verdict, and the actuating functions it names. */
  method EvaluateGate(automation: AutomationConfig, devices: seq<Device>)
    returns (refused: bool, actuating: seq<(string, string)>)
    ensures refused <==> GateRefuses(automation, devices)
    ensures actuating == if refused then ActuatingNames(devices) else []
  {
    actuating := [];
    if !automation.enabled || HasFaultHook(automation) {
      return false, actuating;
    }
    for i := 0 to |devices|
      invariant actuating == ActuatingNames(devices[..i])
    {
      var device := devices[i];
      assert devices[..i + 1][..i] == devices[..i];
      ghost var before := actuating;
      for j := 0 to |device.functions|
        invariant actuating == before + ActuatingIn(device.Handle(), device.functions[..j])
      {
        assert device.functions[..j + 1][..j] == device.functions[..j];
        if IsActuating(device.functions[j]) {
          actuating := actuating + [(device.Handle(), device.functions[j].name)];
        }
      }
      assert device.functions[..|device.functions|] == device.functions;
    }
    assert devices[..|devices|] == devices;
    NamesSomeExactlyWhenActuating(devices);
    refused := actuating != [];
  }
}
