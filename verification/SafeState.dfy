/**
  The declared safe-state ladder of core/control/safe_state.cpp: which rung is
  planned, what it calls, its verdict, and the coverage report judged against
  the same rung. The latch itself is in `LatchPersistence` and `Protocol`.
 */
module SafeState {
  import opened Options
  import opened Registry
  import opened Arguments
  import opened CallRouter

  datatype CallConfig = CallConfig(handle: string, functionId: nat, functionName: string, args: Args)

  datatype SafetyConfig = SafetyConfig(hooks: seq<CallConfig>, setpoints: seq<CallConfig>, zeroIsSafe: bool)

  datatype Kind = Hooks | Setpoints | Zero | NoRung

  /** An actuating output of the inventory, as the ladder sees it: declared ACTUATE, nothing wider. */
  datatype Output = Output(handle: string, spec: FunctionSpec)

  function OutputsOfDevice(handle: string, functions: seq<FunctionSpec>): (outputs: seq<Output>)
    ensures forall o :: o in outputs <==>
              o.handle == handle && o.spec in functions && o.spec.category == ActuateCategory
    ensures |outputs| <= |functions|
  {
    if functions == [] then []
    else (if functions[0].category == ActuateCategory then [Output(handle, functions[0])] else [])
         + OutputsOfDevice(handle, functions[1..])
  }

  function Outputs(devices: seq<Device>): (outputs: seq<Output>)
    ensures forall o :: o in outputs <==>
              exists d :: d in devices && o.handle == d.Handle() && o.spec in d.functions
                          && o.spec.category == ActuateCategory
  {
    if devices == [] then []
    else OutputsOfDevice(devices[0].Handle(), devices[0].functions) + Outputs(devices[1..])
  }

  predicate Matches(call: CallConfig, output: Output) {
    call.handle == output.handle && Selects(call.functionId, call.functionName, output.spec)
  }

  predicate Targeted(calls: seq<CallConfig>, output: Output) {
    exists i :: 0 <= i < |calls| && Matches(calls[i], output)
  }

  function PlannedKind(devices: seq<Device>, safety: SafetyConfig): Kind {
    if safety.hooks != [] then Hooks
    else if safety.setpoints != [] && forall o :: o in Outputs(devices) ==> Targeted(safety.setpoints, o) then Setpoints
    else if safety.zeroIsSafe then Zero
    else NoRung
  }

  /** Setpoints are declared, and some one of them drives each ACTUATE function of each device. */
  predicate SetpointsCover(devices: seq<Device>, setpoints: seq<CallConfig>) {
    && setpoints != []
    && forall i, j :: 0 <= i < |devices| && 0 <= j < |devices[i].functions|
                      && devices[i].functions[j].category == ActuateCategory ==>
         Drives(setpoints, devices[i].Handle(), devices[i].functions[j])
  }

  predicate Drives(calls: seq<CallConfig>, handle: string, f: FunctionSpec) {
    exists k :: 0 <= k < |calls| && calls[k].handle == handle
                && (calls[k].functionId == 0 || calls[k].functionId == f.functionId)
                && (calls[k].functionName == "" || calls[k].functionName == f.name)
                && !(calls[k].functionId == 0 && calls[k].functionName == "")
  }

  /** The ladder's order, told by the config and the inventory. */
  predicate IsPlanned(devices: seq<Device>, safety: SafetyConfig, kind: Kind) {
    var covered := SetpointsCover(devices, safety.setpoints);
    && (kind == Hooks <==> safety.hooks != [])
    && (kind == Setpoints <==> safety.hooks == [] && covered)
    && (kind == Zero <==> safety.hooks == [] && !covered && safety.zeroIsSafe)
    && (kind == NoRung <==> safety.hooks == [] && !covered && !safety.zeroIsSafe)
  }

  lemma TargetedIsDriven(calls: seq<CallConfig>, output: Output)
    ensures Targeted(calls, output) <==> Drives(calls, output.handle, output.spec)
  {
    if Targeted(calls, output) {
      var k :| 0 <= k < |calls| && Matches(calls[k], output);
    }
    if Drives(calls, output.handle, output.spec) {
      var k :| 0 <= k < |calls| && calls[k].handle == output.handle
                && (calls[k].functionId == 0 || calls[k].functionId == output.spec.functionId)
                && (calls[k].functionName == "" || calls[k].functionName == output.spec.name)
                && !(calls[k].functionId == 0 && calls[k].functionName == "");
      assert Matches(calls[k], output);
    }
  }

  lemma CoverIsEveryOutput(devices: seq<Device>, setpoints: seq<CallConfig>)
    ensures SetpointsCover(devices, setpoints) <==>
              setpoints != [] && forall o :: o in Outputs(devices) ==> Targeted(setpoints, o)
  {
    forall o ensures Targeted(setpoints, o) <==> Drives(setpoints, o.handle, o.spec) {
      TargetedIsDriven(setpoints, o);
    }
    if forall o :: o in Outputs(devices) ==> Targeted(setpoints, o) {
      forall i, j | 0 <= i < |devices| && 0 <= j < |devices[i].functions|
                    && devices[i].functions[j].category == ActuateCategory
        ensures Drives(setpoints, devices[i].Handle(), devices[i].functions[j])
      {
        assert devices[i] in devices && devices[i].functions[j] in devices[i].functions;
        assert Output(devices[i].Handle(), devices[i].functions[j]) in Outputs(devices);
      }
    }
    if SetpointsCover(devices, setpoints) {
      forall o | o in Outputs(devices) ensures Targeted(setpoints, o) {
        var d :| d in devices && o.handle == d.Handle() && o.spec in d.functions && o.spec.category == ActuateCategory;
        var i, j :| 0 <= i < |devices| && devices[i] == d && 0 <= j < |d.functions| && d.functions[j] == o.spec;
        assert Drives(setpoints, devices[i].Handle(), devices[i].functions[j]);
      }
    }
  }

  lemma PlannedExactly(devices: seq<Device>, safety: SafetyConfig)
    ensures IsPlanned(devices, safety, PlannedKind(devices, safety))
  {
    CoverIsEveryOutput(devices, safety.setpoints);
  }

  method IsTargeted(calls: seq<CallConfig>, output: Output) returns (targeted: bool)
    ensures targeted <==> Targeted(calls, output)
  {
    for j := 0 to |calls|
      invariant forall k :: 0 <= k < j ==> !Matches(calls[k], output)
    {
      if Matches(calls[j], output) {
        return true;
      }
    }
    return false;
  }

  /** `planned_safe_state_kind`: count the outputs no setpoint targets, then pick the rung. */
  method PlanKind(devices: seq<Device>, safety: SafetyConfig) returns (kind: Kind)
    ensures kind == PlannedKind(devices, safety) && IsPlanned(devices, safety, kind)
  {
    PlannedExactly(devices, safety);
    var outputs := Outputs(devices);
    var uncovered := 0;
    for i := 0 to |outputs|
      invariant 0 <= uncovered
      invariant uncovered == 0 <==> forall k :: 0 <= k < i ==> Targeted(safety.setpoints, outputs[k])
    {
      var covered := IsTargeted(safety.setpoints, outputs[i]);
      if !covered {
        uncovered := uncovered + 1;
      }
    }
    assert uncovered == 0 <==> forall o :: o in outputs ==> Targeted(safety.setpoints, o);
    if safety.hooks != [] {
      return Hooks;
    }
    if safety.setpoints != [] && uncovered == 0 {
      return Setpoints;
    }
    return if safety.zeroIsSafe then Zero else NoRung;
  }

  // ---- Calls ------------------------------------------------------------------

  /** A zero of a numeric type; no zero is invented for the others. */
  function ZeroValue(kind: ValueType): Option<Value> {
    match kind
    case DoubleType => Some(DoubleValue(0.0))
    case Int64Type => Some(Int64Value(0))
    case Uint64Type => Some(Uint64Value(0))
    case _ => None
  }

  /** Every required argument zeroed on top of `args`; `None` when one has no zero. */
  function ZeroFill(specs: seq<ArgSpec>, args: Args): Option<Args> {
    if specs == [] then Some(args)
    else if !specs[0].required then ZeroFill(specs[1..], args)
    else
      match ZeroValue(specs[0].kind)
      case None => None
      case Some(zero) => ZeroFill(specs[1..], args[specs[0].name := zero])
  }

  /** `build_zero_args`: also refuses a function with nothing to zero. */
  function ZeroArgs(spec: FunctionSpec): Option<Args> {
    var filled := ZeroFill(spec.args, map[]);
    if filled.Some? && filled.value == map[] then None else filled
  }

  /** It fails exactly on a required argument with no zero. */
  lemma {:induction false} ZeroFillFailsExactly(specs: seq<ArgSpec>, args: Args)
    ensures ZeroFill(specs, args).None? <==> exists s :: s in specs && s.required && ZeroValue(s.kind).None?
  {
    if specs != [] {
      assert specs == [specs[0]] + specs[1..];
      if !specs[0].required {
        ZeroFillFailsExactly(specs[1..], args);
      } else if ZeroValue(specs[0].kind).Some? {
        ZeroFillFailsExactly(specs[1..], args[specs[0].name := ZeroValue(specs[0].kind).value]);
      }
    }
  }

  lemma {:induction false} ZeroFillIsZero(specs: seq<ArgSpec>, args: Args)
    requires ZeroFill(specs, args).Some?
    requires forall name :: name in args ==> Number(args[name]) == Some(0.0)
    ensures var out := ZeroFill(specs, args).value;
            && args.Keys <= out.Keys
            && (forall name :: name in out ==> Number(out[name]) == Some(0.0))
            && (forall s :: s in specs && s.required ==> s.name in out)
  {
    if specs != [] {
      var next := if specs[0].required then args[specs[0].name := ZeroValue(specs[0].kind).value] else args;
      ZeroFillIsZero(specs[1..], next);
      assert specs == [specs[0]] + specs[1..];
    }
  }

  /** Only the numeric types have a zero, and it is one of that type. */
  lemma ZeroValueExactly(kind: ValueType)
    ensures ZeroValue(kind).Some? <==> kind == DoubleType || kind == Int64Type || kind == Uint64Type
    ensures ZeroValue(kind).Some? ==>
              HasType(ZeroValue(kind).value, kind) && Number(ZeroValue(kind).value) == Some(0.0)
  {
  }

  /** Zero arguments are refused exactly for a required one that is not numeric, or for want of any required one. */
  lemma ZeroArgsFailExactly(spec: FunctionSpec)
    ensures ZeroArgs(spec).None? <==>
              || (forall i :: 0 <= i < |spec.args| ==> !spec.args[i].required)
              || (exists i :: 0 <= i < |spec.args| && spec.args[i].required && !IsNumeric(spec.args[i].kind))
  {
    ZeroFillFailsExactly(spec.args, map[]);
    forall s | s in spec.args ensures ZeroValue(s.kind).None? <==> !IsNumeric(s.kind) {
      ZeroValueExactly(s.kind);
    }
    if ZeroFill(spec.args, map[]).Some? {
      ZeroFillIsZero(spec.args, map[]);
      ZeroFillNames(spec.args, map[]);
    }
  }

  predicate IsNumeric(kind: ValueType) { kind == DoubleType || kind == Int64Type || kind == Uint64Type }

  /** Nothing is filled in but required arguments. */
  lemma {:induction false} ZeroFillNames(specs: seq<ArgSpec>, args: Args)
    requires ZeroFill(specs, args).Some?
    ensures forall name <- ZeroFill(specs, args).value ::
              name in args || exists i :: 0 <= i < |specs| && specs[i].required && specs[i].name == name
  {
    if specs != [] {
      var next := if specs[0].required then args[specs[0].name := ZeroValue(specs[0].kind).value] else args;
      ZeroFillNames(specs[1..], next);
      forall name <- ZeroFill(specs, args).value
        ensures name in args || exists i :: 0 <= i < |specs| && specs[i].required && specs[i].name == name
      {
        if name !in next {
          var i :| 0 <= i < |specs[1..]| && specs[1..][i].required && specs[1..][i].name == name;
          assert specs[i + 1].required && specs[i + 1].name == name;
        }
      }
    }
  }

  datatype Cause = RunCause | ConfigCause

  /** `sent` is the function and arguments the provider received, when the call got that far. */
  datatype Outcome = Outcome(handle: string, success: bool, cause: Cause, sent: Option<(FunctionSpec, Args)>)

  /** The runtime around one call, and the provider's reply should it be dispatched. */
  datatype Attempt = Attempt(world: World, locked: World, reply: bool)

  /** The cause reported for a refusal: an undispatched NOT_FOUND or INVALID_ARGUMENT is the config's. */
  function CauseOf(why: Refusal): Cause {
    match why
    case ProviderUnknown | BadHandle | DeviceUnknown | FunctionUnknown | SelectorRefused | ArgumentsRefused =>
      ConfigCause
    case _ => RunCause
  }

  function SafeRequest(handle: string, functionId: nat, functionName: string, args: Args): Request {
    Request(handle, functionId, functionName, args, false, false, true, false)
  }

  function Execute(devices: seq<Device>, request: Request, attempt: Attempt): Outcome {
    match RouteCall(devices, request, attempt.world, attempt.locked, None)
    case Refused(why) => Outcome(request.handle, false, CauseOf(why), None)
    case Dispatch(spec, args) => Outcome(request.handle, attempt.reply, RunCause, Some((spec, args)))
  }

  /** A failure is the config's exactly when the router refused the request itself, or knows no such provider. */
  lemma ConfigCauseExactly(devices: seq<Device>, request: Request, attempt: Attempt)
    ensures var route := RouteCall(devices, request, attempt.world, attempt.locked, None);
            Execute(devices, request, attempt).cause == ConfigCause <==>
              route.Refused? && (route.why.ProviderUnknown? || !IsRuntimeRefusal(route.why))
  {
  }

  datatype Planned = Declared(call: CallConfig) | Zeroing(output: Output) {
    function Handle(): string { if Declared? then call.handle else output.handle }
  }

  /** `run_call` and `run_zero_call`. */
  function Perform(devices: seq<Device>, planned: Planned, attempt: Attempt): Outcome {
    match planned
    case Declared(call) =>
      Execute(devices, SafeRequest(call.handle, call.functionId, call.functionName, call.args), attempt)
    case Zeroing(output) =>
      match ZeroArgs(output.spec)
      case None => Outcome(output.handle, false, ConfigCause, None)
      case Some(args) =>
        Execute(devices, SafeRequest(output.handle, output.spec.functionId, output.spec.name, args), attempt)
  }

  // ---- The ladder -------------------------------------------------------------

  function Rung(devices: seq<Device>, safety: SafetyConfig): (rung: seq<Planned>) {
    match PlannedKind(devices, safety)
    case Hooks => seq(|safety.hooks|, i requires 0 <= i < |safety.hooks| => Declared(safety.hooks[i]))
    case Setpoints => seq(|safety.setpoints|, i requires 0 <= i < |safety.setpoints| => Declared(safety.setpoints[i]))
    case Zero =>
      var outputs := Outputs(devices);
      seq(|outputs|, i requires 0 <= i < |outputs| => Zeroing(outputs[i]))
    case NoRung => []
  }

  predicate Wanted(only: Option<string>, handle: string) { only.None? || only.value == handle }

  /** The calls a run issues: those wanted and not to an absent device. */
  function Issued(rung: seq<Planned>, only: Option<string>, absent: set<string>): seq<Planned> {
    if rung == [] then []
    else
      var rest := Issued(rung[1..], only, absent);
      if Wanted(only, rung[0].Handle()) && rung[0].Handle() !in absent then [rung[0]] + rest else rest
  }

  /** What a rung is made of, told by the config and the inventory, in their order. */
  lemma RungExactly(devices: seq<Device>, safety: SafetyConfig)
    ensures var rung, outputs := Rung(devices, safety), Outputs(devices);
            var covered := SetpointsCover(devices, safety.setpoints);
            && (safety.hooks != [] ==>
                  |rung| == |safety.hooks| && forall i :: 0 <= i < |rung| ==> rung[i] == Declared(safety.hooks[i]))
            && (safety.hooks == [] && covered ==>
                  && |rung| == |safety.setpoints|
                  && forall i :: 0 <= i < |rung| ==> rung[i] == Declared(safety.setpoints[i]))
            && (safety.hooks == [] && !covered && safety.zeroIsSafe ==>
                  |rung| == |outputs| && forall i :: 0 <= i < |rung| ==> rung[i] == Zeroing(outputs[i]))
            && (safety.hooks == [] && !covered && !safety.zeroIsSafe ==> rung == [])
  {
    PlannedExactly(devices, safety);
  }

  /** Issued are the rung's calls that are wanted and not to an absent device; skipped, the wanted to absent ones. */
  lemma {:induction false} IssuedExactly(rung: seq<Planned>, only: Option<string>, absent: set<string>)
    ensures forall p: Planned ::
              && (p in Issued(rung, only, absent) <==>
                    p in rung && (only == None || only.value == p.Handle()) && p.Handle() !in absent)
              && (p in Skipped(rung, only, absent) <==>
                    p in rung && (only == None || only.value == p.Handle()) && p.Handle() in absent)
  {
    if rung != [] {
      var front, last := rung[..|rung| - 1], rung[|rung| - 1];
      assert rung == front + [last];
      IssuedExactly(front, only, absent);
      IssuedSnoc(front, last, only, absent);
    }
  }

  /**
    The calls a run issues, told by the config and the inventory: the hooks if any
    are declared; else the setpoints if they drive every output; else, only where
    zero is declared safe, each output zeroed; and always only those wanted and not
    to an absent device.
   */
  lemma LadderIssuesExactly(devices: seq<Device>, safety: SafetyConfig, only: Option<string>, absent: set<string>,
                            p: Planned)
    ensures p in Issued(Rung(devices, safety), only, absent) <==>
              && (only == None || only.value == p.Handle()) && p.Handle() !in absent
              && if safety.hooks != [] then p.Declared? && p.call in safety.hooks
                 else if SetpointsCover(devices, safety.setpoints) then p.Declared? && p.call in safety.setpoints
                 else safety.zeroIsSafe && p.Zeroing? && p.output in Outputs(devices)
  {
    var rung := Rung(devices, safety);
    IssuedExactly(rung, only, absent);
    RungExactly(devices, safety);
    if p in rung {
      var i :| 0 <= i < |rung| && rung[i] == p;
    }
    if safety.hooks != [] {
      DeclaredIn(safety.hooks, rung, p);
    } else if SetpointsCover(devices, safety.setpoints) {
      DeclaredIn(safety.setpoints, rung, p);
    } else if safety.zeroIsSafe && p.Zeroing? && p.output in Outputs(devices) {
      var i :| 0 <= i < |Outputs(devices)| && Outputs(devices)[i] == p.output;
      assert rung[i] == p;
    }
  }

  lemma DeclaredIn(calls: seq<CallConfig>, rung: seq<Planned>, p: Planned)
    requires |rung| == |calls| && forall i :: 0 <= i < |rung| ==> rung[i] == Declared(calls[i])
    ensures p in rung <==> p.Declared? && p.call in calls
  {
    if p.Declared? && p.call in calls {
      var i :| 0 <= i < |calls| && calls[i] == p.call;
      assert rung[i] == p;
    }
  }

  lemma {:induction false} UnfilteredIssuesAll(rung: seq<Planned>)
    ensures Issued(rung, None, {}) == rung
  {
    if rung != [] {
      UnfilteredIssuesAll(rung[1..]);
    }
  }

  lemma {:induction false} IssuedSnoc(rung: seq<Planned>, last: Planned, only: Option<string>, absent: set<string>)
    ensures Issued(rung + [last], only, absent) ==
            Issued(rung, only, absent)
            + (if Wanted(only, last.Handle()) && last.Handle() !in absent then [last] else [])
  {
    if rung == [] {
      assert ([last])[1..] == [];
    } else {
      assert (rung + [last])[1..] == rung[1..] + [last];
      IssuedSnoc(rung[1..], last, only, absent);
    }
  }

  /** The calls a run records instead of issuing. */
  function Skipped(rung: seq<Planned>, only: Option<string>, absent: set<string>): seq<Planned> {
    if rung == [] then []
    else
      var last := rung[|rung| - 1];
      Skipped(rung[..|rung| - 1], only, absent)
      + (if Wanted(only, last.Handle()) && last.Handle() in absent then [last] else [])
  }

  /** Each action is `perform` of the call issued in its place. */
  ghost predicate PerformedBy(perform: (Planned, nat) -> Outcome, issued: seq<Planned>, actions: seq<Outcome>) {
    |actions| == |issued| && forall i :: 0 <= i < |actions| ==> actions[i] == perform(issued[i], i)
  }

  lemma PerformedNext(perform: (Planned, nat) -> Outcome, issued: seq<Planned>, actions: seq<Outcome>, call: Planned)
    requires PerformedBy(perform, issued, actions)
    ensures PerformedBy(perform, issued + [call], actions + [perform(call, |actions|)])
  {
  }

  predicate AllSucceeded(actions: seq<Outcome>) { forall i :: 0 <= i < |actions| ==> actions[i].success }

  lemma AllSucceededNext(actions: seq<Outcome>, last: Outcome)
    ensures AllSucceeded(actions + [last]) <==> AllSucceeded(actions) && last.success
  {
    assert (actions + [last])[|actions|] == last;
    assert forall i :: 0 <= i < |actions| ==> (actions + [last])[i] == actions[i];
  }

  /** Each action is the performance of the call issued in its place. */
  ghost predicate Performed(devices: seq<Device>, issued: seq<Planned>, attempts: nat -> Attempt,
                            actions: seq<Outcome>)
  {
    |actions| == |issued| && forall i :: 0 <= i < |actions| ==> actions[i] == Perform(devices, issued[i], attempts(i))
  }

  /** The loop every rung shares: perform the wanted calls in order, record the absent ones. */
  method PerformRung(rung: seq<Planned>, only: Option<string>, absent: set<string>, perform: (Planned, nat) -> Outcome)
    returns (actions: seq<Outcome>, skipped: seq<Planned>, ok: bool)
    ensures PerformedBy(perform, Issued(rung, only, absent), actions)
    ensures skipped == Skipped(rung, only, absent)
    ensures ok <==> AllSucceeded(actions)
  {
    actions, skipped, ok := [], [], true;
    ghost var issued: seq<Planned> := [];
    for i := 0 to |rung|
      invariant issued == Issued(rung[..i], only, absent) && PerformedBy(perform, issued, actions)
      invariant skipped == Skipped(rung[..i], only, absent)
      invariant ok <==> AllSucceeded(actions)
    {
      var call := rung[i];
      assert rung[..i + 1] == rung[..i] + [call];
      IssuedSnoc(rung[..i], call, only, absent);
      assert rung[..i + 1][..i] == rung[..i];
      if Wanted(only, call.Handle()) {
        if call.Handle() in absent {
          skipped := skipped + [call];
        } else {
          var outcome := perform(call, |actions|);
          AllSucceededNext(actions, outcome);
          PerformedNext(perform, issued, actions, call);
          actions, issued := actions + [outcome], issued + [call];
          ok := ok && outcome.success;
        }
      }
    }
    assert rung[..|rung|] == rung;
  }

  datatype LadderResult = LadderResult(kind: Kind, actions: seq<Outcome>, skipped: seq<Planned>, achieved: bool)

  /**
    `run_ladder`: exactly one rung, every issued call performed in order, the
    absent ones recorded instead. `attempts(i)` is the runtime around the i-th
    issued call.
   */
  method RunLadder(devices: seq<Device>, safety: SafetyConfig, only: Option<string>, absent: set<string>,
                   attempts: nat -> Attempt) returns (result: LadderResult)
    ensures result.kind == PlannedKind(devices, safety) && IsPlanned(devices, safety, result.kind)
    ensures result.kind == NoRung ==> result.actions == [] && result.skipped == []
    ensures Performed(devices, Issued(Rung(devices, safety), only, absent), attempts, result.actions)
    ensures result.skipped == Skipped(Rung(devices, safety), only, absent)
    ensures result.achieved <==> Achieved(devices, safety, result.actions)
    ensures result.achieved <==>
              && result.kind != NoRung && result.actions != []
              && forall i :: 0 <= i < |result.actions| ==> result.actions[i].success
  {
    var kind := PlanKind(devices, safety);
    var actions, skipped, ok := PerformRung(Rung(devices, safety), only, absent,
      (planned: Planned, i: nat) => Perform(devices, planned, attempts(i)));
    return LadderResult(kind, actions, skipped, kind != NoRung && actions != [] && ok);
  }

  /** The run's verdict: a rung ran, issued something, and everything it issued succeeded. */
  ghost predicate Achieved(devices: seq<Device>, safety: SafetyConfig, actions: seq<Outcome>) {
    PlannedKind(devices, safety) != NoRung && actions != [] && AllSucceeded(actions)
  }

  lemma FoundByHandle(devices: seq<Device>, device: Device)
    requires WellFormed(devices) && device in devices
    ensures Find(devices, device.Handle()) == Some(device)
  {
    var found := Find(devices, device.Handle());
    var i, j :| 0 <= i < |devices| && 0 <= j < |devices| && devices[i] == device && devices[j] == found.value;
    assert i == j;
  }

  /** A safe-state call whose selectors agree with an output reaches exactly that output, if it is dispatched. */
  lemma DispatchReachesOutput(devices: seq<Device>, output: Output, functionId: nat, functionName: string,
                              args: Args, attempt: Attempt)
    requires WellFormed(devices) && output in Outputs(devices)
    requires Selects(functionId, functionName, output.spec)
    ensures var outcome := Execute(devices, SafeRequest(output.handle, functionId, functionName, args), attempt);
            outcome.sent.Some? ==>
              outcome.sent.value.0 == output.spec && Coerce(output.spec.args, args) == Some(outcome.sent.value.1)
  {
    var device :| device in devices && output.handle == device.Handle() && output.spec in device.functions;
    HandleParses(device);
    FoundByHandle(devices, device);
    ResolvesExactlyWhatItSelects(device, functionId, functionName, output.spec);
  }

  /** A successful declared call that matches an output was dispatched to exactly that output. */
  lemma SetpointReaches(devices: seq<Device>, call: CallConfig, output: Output, attempt: Attempt)
    requires WellFormed(devices) && output in Outputs(devices) && Matches(call, output)
    requires Perform(devices, Declared(call), attempt).success
    ensures var outcome := Perform(devices, Declared(call), attempt);
            outcome.handle == output.handle && outcome.sent.Some? && outcome.sent.value.0 == output.spec
  {
    DispatchReachesOutput(devices, output, call.functionId, call.functionName, call.args, attempt);
  }

  /**
    A setpoints run reported as achieved really drove the machine: every ACTUATE
    function of every device had a successful call that resolved to exactly it.
   */
  lemma SetpointsAchievedDroveEveryOutput(devices: seq<Device>, safety: SafetyConfig, attempts: nat -> Attempt,
                                          actions: seq<Outcome>, output: Output)
    requires WellFormed(devices)
    requires PlannedKind(devices, safety) == Setpoints
    requires Performed(devices, Issued(Rung(devices, safety), None, {}), attempts, actions)
    requires Achieved(devices, safety, actions)
    requires output in Outputs(devices)
    ensures exists i :: 0 <= i < |actions| && actions[i].success && actions[i].handle == output.handle
                        && actions[i].sent.Some? && actions[i].sent.value.0 == output.spec
  {
    UnfilteredIssuesAll(Rung(devices, safety));
    var i :| 0 <= i < |safety.setpoints| && Matches(safety.setpoints[i], output);
    SetpointReaches(devices, safety.setpoints[i], output, attempts(i));
    assert actions[i] == Perform(devices, Declared(safety.setpoints[i]), attempts(i));
  }

  /** The zero rung's selectors agree with their function unless it has neither an id nor a name. */
  lemma ZeroSelects(devices: seq<Device>, output: Output, args: Args, attempt: Attempt)
    requires WellFormed(devices) && output in Outputs(devices)
    requires var request := SafeRequest(output.handle, output.spec.functionId, output.spec.name, args);
             Execute(devices, request, attempt).success
    ensures Selects(output.spec.functionId, output.spec.name, output.spec)
  {
  }

  /** The outcome drove exactly this output, with each required argument a numeric zero. */
  ghost predicate ZeroedBy(output: Output, outcome: Outcome) {
    && outcome.success && outcome.handle == output.handle
    && outcome.sent.Some? && outcome.sent.value.0 == output.spec
    && forall arg :: arg in output.spec.args && arg.required ==>
         arg.name in outcome.sent.value.1 && Number(outcome.sent.value.1[arg.name]) == Some(0.0)
  }

  lemma ZeroCallZeroes(devices: seq<Device>, output: Output, attempt: Attempt)
    requires WellFormed(devices) && output in Outputs(devices)
    requires Perform(devices, Zeroing(output), attempt).success
    ensures ZeroedBy(output, Perform(devices, Zeroing(output), attempt))
  {
    var args := ZeroArgs(output.spec).value;
    ZeroSelects(devices, output, args, attempt);
    DispatchReachesOutput(devices, output, output.spec.functionId, output.spec.name, args, attempt);
    ZeroFillIsZero(output.spec.args, map[]);
    CoercionPreservesNumbers(output.spec.args, args);
  }

  /** A zero run reported as achieved drove every output with each required argument a numeric zero. */
  lemma ZeroAchievedZeroedEveryOutput(devices: seq<Device>, safety: SafetyConfig, attempts: nat -> Attempt,
                                      actions: seq<Outcome>, output: Output)
    requires WellFormed(devices)
    requires PlannedKind(devices, safety) == Zero
    requires Performed(devices, Issued(Rung(devices, safety), None, {}), attempts, actions)
    requires Achieved(devices, safety, actions)
    requires output in Outputs(devices)
    ensures exists i :: 0 <= i < |actions| && ZeroedBy(output, actions[i])
  {
    UnfilteredIssuesAll(Rung(devices, safety));
    var outputs := Outputs(devices);
    var i :| 0 <= i < |outputs| && outputs[i] == output;
    assert Rung(devices, safety)[i] == Zeroing(output);
    ZeroCallZeroes(devices, output, attempts(i));
  }

  // ---- The coverage report ------------------------------------------------------

  /** Whether the zero rung is reported unable to drive the output. */
  predicate ZeroUncovered(devices: seq<Device>, output: Output) {
    match ZeroArgs(output.spec)
    case None => true
    case Some(args) =>
      !ValidateCall(devices,
        Request(output.handle, output.spec.functionId, output.spec.name, args, false, false, false, false))
  }

  predicate DeclaredUncovered(devices: seq<Device>, calls: seq<CallConfig>, output: Output) {
    forall i :: 0 <= i < |calls| ==>
      !(Matches(calls[i], output)
        && ValidateCall(devices,
             SafeRequest(calls[i].handle, calls[i].functionId, calls[i].functionName, calls[i].args)))
  }

  predicate IsUncovered(devices: seq<Device>, safety: SafetyConfig, kind: Kind, output: Output) {
    match kind
    case Hooks => DeclaredUncovered(devices, safety.hooks, output)
    case Setpoints => DeclaredUncovered(devices, safety.setpoints, output)
    case Zero => ZeroUncovered(devices, output)
    case NoRung => true
  }

  /** The outputs that satisfy `p`, in order. */
  function Only(p: Output -> bool, outputs: seq<Output>): seq<Output> {
    if outputs == [] then []
    else
      var last := outputs[|outputs| - 1];
      Only(p, outputs[..|outputs| - 1]) + if p(last) then [last] else []
  }

  lemma {:induction false} OnlyThose(p: Output -> bool, outputs: seq<Output>)
    ensures forall o :: o in Only(p, outputs) <==> o in outputs && p(o)
  {
    if outputs != [] {
      OnlyThose(p, outputs[..|outputs| - 1]);
      assert outputs == outputs[..|outputs| - 1] + [outputs[|outputs| - 1]];
    }
  }

  method Select(p: Output -> bool, outputs: seq<Output>) returns (selected: seq<Output>)
    ensures selected == Only(p, outputs)
  {
    selected := [];
    for i := 0 to |outputs|
      invariant selected == Only(p, outputs[..i])
    {
      assert outputs[..i + 1][..i] == outputs[..i];
      if p(outputs[i]) {
        selected := selected + [outputs[i]];
      }
    }
    assert outputs[..|outputs|] == outputs;
  }

  /** `uncovered_functions`: the outputs the rung cannot drive, in inventory order. */
  method UncoveredFunctions(devices: seq<Device>, safety: SafetyConfig, kind: Kind) returns (uncovered: seq<Output>)
    ensures uncovered == Only(o => IsUncovered(devices, safety, kind, o), Outputs(devices))
    ensures forall o :: o in uncovered <==> o in Outputs(devices) && IsUncovered(devices, safety, kind, o)
  {
    uncovered := Select(o => IsUncovered(devices, safety, kind, o), Outputs(devices));
    OnlyThose(o => IsUncovered(devices, safety, kind, o), Outputs(devices));
  }

  /**
    The report is exact for the zero rung: with the output's provider registered
    and available, it is listed exactly when its ladder call would fail for a
    config cause, whatever the provider would reply.
   */
  lemma ZeroReportIsExact(devices: seq<Device>, output: Output, attempt: Attempt)
    requires WellFormed(devices) && output in Outputs(devices)
    requires exists d :: d in devices && d.Handle() == output.handle
                         && d.providerId in attempt.world.providers && attempt.world.providers[d.providerId]
    ensures ZeroUncovered(devices, output) <==>
            var outcome := Perform(devices, Zeroing(output), attempt);
            !outcome.success && outcome.cause == ConfigCause
  {
    if ZeroArgs(output.spec).Some? {
      OutputProviderUp(devices, output, attempt);
      var args := ZeroArgs(output.spec).value;
      var request := SafeRequest(output.handle, output.spec.functionId, output.spec.name, args);
      ConfigFailureIsInvalid(devices, request, attempt);
      SameDryRun(devices, request,
        Request(output.handle, output.spec.functionId, output.spec.name, args, false, false, false, false));
    }
  }

  /** With its provider up, a safe-state call fails for a config cause exactly when the dry run refuses it. */
  lemma ConfigFailureIsInvalid(devices: seq<Device>, request: Request, attempt: Attempt)
    requires request.safeState && ParseHandle(request.handle).Some?
    requires var provider := ParseHandle(request.handle).value.0;
             provider in attempt.world.providers && attempt.world.providers[provider]
    ensures var outcome := Execute(devices, request, attempt);
            !outcome.success && outcome.cause == ConfigCause <==> !ValidateCall(devices, request)
  {
    DryRunIsExact(devices, request, attempt.world, attempt.locked, None);
    if RouteCall(devices, request, attempt.world, attempt.locked, None).Refused? {
      DryRunPredictsRefusal(devices, request, attempt.world, attempt.locked, None);
    }
  }

  /** The dry run looks only at the handle, the selectors and the arguments. */
  lemma SameDryRun(devices: seq<Device>, a: Request, b: Request)
    requires a.handle == b.handle && a.args == b.args
    requires a.functionId == b.functionId && a.functionName == b.functionName
    ensures ValidateCall(devices, a) <==> ValidateCall(devices, b)
  {
  }

  /** The output's provider is the one its handle names, and it is up. */
  lemma OutputProviderUp(devices: seq<Device>, output: Output, attempt: Attempt)
    requires WellFormed(devices)
    requires exists d :: d in devices && d.Handle() == output.handle
                         && d.providerId in attempt.world.providers && attempt.world.providers[d.providerId]
    ensures ParseHandle(output.handle).Some?
    ensures var provider := ParseHandle(output.handle).value.0;
            provider in attempt.world.providers && attempt.world.providers[provider]
  {
    var device :| device in devices && device.Handle() == output.handle
                  && device.providerId in attempt.world.providers && attempt.world.providers[device.providerId];
    HandleParses(device);
  }

  /** A call dispatched to an output had selectors that agree with it, and passes the dry run. */
  lemma ReachingCallMatches(devices: seq<Device>, call: CallConfig, output: Output, attempt: Attempt)
    requires WellFormed(devices) && output in Outputs(devices)
    requires var outcome := Perform(devices, Declared(call), attempt);
             outcome.handle == output.handle && outcome.sent.Some? && outcome.sent.value.0 == output.spec
    ensures Matches(call, output)
    ensures ValidateCall(devices, SafeRequest(call.handle, call.functionId, call.functionName, call.args))
  {
    var request := SafeRequest(call.handle, call.functionId, call.functionName, call.args);
    DispatchedCallsValidate(devices, request, attempt.world, attempt.locked, None);
    DispatchedExactlyWhenUnhindered(devices, request, attempt.world, attempt.locked, None);
    var device :| device in devices && output.handle == device.Handle() && output.spec in device.functions;
    FoundByHandle(devices, device);
    ResolvesExactlyWhatItSelects(device, call.functionId, call.functionName, output.spec);
  }

  /** A declared rung's report is exact: with its provider up, an output is listed exactly when no call reaches it. */
  lemma DeclaredReportIsExact(devices: seq<Device>, calls: seq<CallConfig>, output: Output, attempt: Attempt)
    requires WellFormed(devices) && output in Outputs(devices)
    requires exists d :: d in devices && d.Handle() == output.handle
                         && d.providerId in attempt.world.providers && attempt.world.providers[d.providerId]
    ensures DeclaredUncovered(devices, calls, output) <==>
              forall i :: 0 <= i < |calls| ==> !Reaches(devices, calls[i], output, attempt)
  {
    if !DeclaredUncovered(devices, calls, output) {
      CoveredOutputIsDriven(devices, calls, output, attempt);
    }
    forall i | 0 <= i < |calls| && Reaches(devices, calls[i], output, attempt)
      ensures !DeclaredUncovered(devices, calls, output)
    {
      ReachingCallMatches(devices, calls[i], output, attempt);
    }
  }

  predicate Reaches(devices: seq<Device>, call: CallConfig, output: Output, attempt: Attempt) {
    var outcome := Perform(devices, Declared(call), attempt);
    outcome.handle == output.handle && outcome.sent.Some? && outcome.sent.value.0 == output.spec
  }

  /** A declared rung's report is sound: an output it does not list has a call that reaches exactly it. */
  lemma CoveredOutputIsDriven(devices: seq<Device>, calls: seq<CallConfig>, output: Output, attempt: Attempt)
    requires WellFormed(devices) && output in Outputs(devices)
    requires exists d :: d in devices && d.Handle() == output.handle
                         && d.providerId in attempt.world.providers && attempt.world.providers[d.providerId]
    requires !DeclaredUncovered(devices, calls, output)
    ensures exists i :: 0 <= i < |calls| && Reaches(devices, calls[i], output, attempt)
  {
    var i :| 0 <= i < |calls| && Matches(calls[i], output)
             && ValidateCall(devices,
                  SafeRequest(calls[i].handle, calls[i].functionId, calls[i].functionName, calls[i].args));
    var device :| device in devices && device.Handle() == output.handle
                  && device.providerId in attempt.world.providers && attempt.world.providers[device.providerId];
    HandleParses(device);
    DryRunIsExact(devices, SafeRequest(calls[i].handle, calls[i].functionId, calls[i].functionName, calls[i].args),
                  attempt.world, attempt.locked, None);
    DispatchReachesOutput(devices, output, calls[i].functionId, calls[i].functionName, calls[i].args, attempt);
    assert Reaches(devices, calls[i], output, attempt);
  }
}
