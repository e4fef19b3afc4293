/**
  The call path of core/control/call_router.cpp: handle parsing, selector
  resolution, the dry run `validate_call`, and `execute_call` with its runtime
  gates.

  Runtime state the source reads at two instants, before and after it waits for
  the provider's lock, is two `World` values. Error texts are reduced to causes.
 */
module CallRouter {
  import opened Options
  import opened Registry
  import opened Arguments
  import Modes

  // ---- Handles -------------------------------------------------------------

  function FirstSlash(s: string): (i: nat)
    ensures i <= |s|
    ensures forall k :: 0 <= k < i ==> s[k] != '/'
    ensures i < |s| ==> s[i] == '/'
  {
    if s == [] || s[0] == '/' then 0 else 1 + FirstSlash(s[1..])
  }

  /** Provider and device id of a handle, split at its first slash. */
  function ParseHandle(handle: string): Option<(string, string)> {
    var i := FirstSlash(handle);
    if i == |handle| then None
    else if i == 0 || i + 1 == |handle| then None
    else Some((handle[..i], handle[i + 1..]))
  }

  /** Parsing splits a handle and nothing else: joining its parts gives the handle back. */
  lemma ParsedHandleRejoins(handle: string)
    requires ParseHandle(handle).Some?
    ensures var (provider, device) := ParseHandle(handle).value;
            provider + "/" + device == handle && '/' !in provider && provider != "" && device != ""
  {
    var i := FirstSlash(handle);
    assert handle[..i] + [handle[i]] + handle[i + 1..] == handle;
  }

  /** A registered device's handle parses to its own provider and device id. */
  lemma HandleParses(device: Device)
    requires WellFormedDevice(device)
    ensures ParseHandle(device.Handle()) == Some((device.providerId, device.deviceId))
  {
    var h, n := device.Handle(), |device.providerId|;
    assert h[n] == '/';
    var i := FirstSlash(h);
    assert forall k :: 0 <= k < n ==> h[k] == device.providerId[k];
    assert i == n;
    assert h[..n] == device.providerId && h[n + 1..] == device.deviceId;
  }

  // ---- Requests and their resolution ---------------------------------------

  datatype Request = Request(
    handle: string, functionId: nat, functionName: string, args: Args,
    isAutomated: bool, isBehaviorTree: bool, safeState: bool, faultEntryHook: bool)

  /** A mismatched pair of selectors, or none at all, is `BadSelector`. */
  datatype Resolution = Resolved(spec: FunctionSpec) | NoSuchFunction | BadSelector

  function FirstWithId(functions: seq<FunctionSpec>, id: nat): (found: Option<FunctionSpec>)
    ensures found.Some? ==> found.value in functions && found.value.functionId == id
    ensures found.None? ==> forall f :: f in functions ==> f.functionId != id
  {
    if functions == [] then None
    else if functions[0].functionId == id then Some(functions[0])
    else FirstWithId(functions[1..], id)
  }

  function WithName(functions: seq<FunctionSpec>, name: string): (found: Option<FunctionSpec>)
    ensures found.Some? ==> found.value in functions && found.value.name == name
    ensures found.None? ==> forall f :: f in functions ==> f.name != name
  {
    if functions == [] then None
    else if functions[0].name == name then Some(functions[0])
    else WithName(functions[1..], name)
  }

  function Resolve(device: Device, functionId: nat, functionName: string): Resolution {
    if functionId != 0 then
      match FirstWithId(device.functions, functionId)
      case None => NoSuchFunction
      case Some(spec) => if functionName != "" && functionName != spec.name then BadSelector else Resolved(spec)
    else if functionName == "" then BadSelector
    else
      match WithName(device.functions, functionName)
      case None => NoSuchFunction
      case Some(spec) => Resolved(spec)
  }

  /** Whether the given selectors agree with `spec`, and at least one is given. */
  predicate Selects(functionId: nat, functionName: string, spec: FunctionSpec) {
    && (functionId != 0 ==> functionId == spec.functionId)
    && (functionName != "" ==> functionName == spec.name)
    && (functionId != 0 || functionName != "")
  }

  /** On a well-formed device, selectors resolve to a function exactly when they agree with it. */
  lemma ResolvesExactlyWhatItSelects(device: Device, functionId: nat, functionName: string, spec: FunctionSpec)
    requires WellFormedDevice(device) && spec in device.functions
    ensures Resolve(device, functionId, functionName) == Resolved(spec) <==> Selects(functionId, functionName, spec)
  {
  }

  /** `validate_call`: the device exists, the function resolves, the coerced arguments validate. */
  predicate ValidateCall(devices: seq<Device>, request: Request) {
    Find(devices, request.handle).Some? &&
    match ParseHandle(request.handle)
    case None => false
    case Some((provider, device)) =>
      match Find(devices, provider + "/" + device)
      case None => false
      case Some(found) =>
        match Resolve(found, request.functionId, request.functionName)
        case Resolved(spec) =>
          var coerced := Coerce(spec.args, request.args);
          coerced.Some? && ValidArguments(spec.args, coerced.value)
        case _ => false
  }

  // ---- Execution ------------------------------------------------------------

  /** The runtime state the gates read. `now` is the steady clock, in nanoseconds. */
  datatype World = World(
    mode: Option<Modes.Mode>, blockManual: bool,
    providers: map<string, bool>,        // registered providers, and whether each is available
    latched: bool, admitsHooks: bool, lost: set<string>, now: int)

  datatype Refusal =
    | IdleMode | ManualInAuto | ModeNotAllowed | StopLatched | DeviceLatched | TooSoon
    | ProviderUnknown | ProviderDown
    | BadHandle | DeviceUnknown | FunctionUnknown | SelectorRefused | ArgumentsRefused

  /** Refusals that come from the runtime's state, not from the request and the inventory. */
  predicate IsRuntimeRefusal(why: Refusal) {
    || why.IdleMode? || why.ManualInAuto? || why.ModeNotAllowed? || why.StopLatched? || why.DeviceLatched?
    || why.TooSoon? || why.ProviderUnknown? || why.ProviderDown?
  }

  datatype Route = Refused(why: Refusal) | Dispatch(spec: FunctionSpec, args: Args)

  predicate LatchHolds(request: Request, spec: FunctionSpec, world: World) {
    !request.safeState && world.latched && IsActuating(spec) && !(request.faultEntryHook && world.admitsHooks)
  }

  predicate LossHolds(request: Request, spec: FunctionSpec, world: World) {
    !request.safeState && request.isBehaviorTree && request.handle in world.lost && IsActuating(spec)
  }

  function ModeName(mode: Option<Modes.Mode>): string {
    match mode
    case None => Modes.NameOf(Modes.Manual)
    case Some(m) => Modes.NameOf(m)
  }

  function UpperChar(c: char): char {
    if 'a' <= c <= 'z' then 'A' + (c - 'a') else c
  }

  function Upper(s: string): string { seq(|s|, i requires 0 <= i < |s| => UpperChar(s[i])) }

  predicate ModeAllowed(spec: FunctionSpec, mode: Option<Modes.Mode>) {
    spec.allowedModes == [] || exists m :: m in spec.allowedModes && Upper(m) == ModeName(mode)
  }

  const NANOS_PER_MS: int := 1_000_000

  /** The interval gate, on the whole milliseconds elapsed since the function's last dispatch. */
  predicate IntervalHolds(request: Request, spec: FunctionSpec, last: Option<int>, now: int) {
    spec.minIntervalMs > 0 && !request.safeState && last.Some?
    && (now - last.value) / NANOS_PER_MS < spec.minIntervalMs
  }

  /** Everything `execute_call` checks before it takes the provider's lock. */
  function RouteFirst(devices: seq<Device>, request: Request, world: World): Route {
    if !request.safeState && world.mode == Some(Modes.Idle) then Refused(IdleMode)
    else if !request.isAutomated && !request.safeState && world.mode == Some(Modes.Auto) && world.blockManual then
      Refused(ManualInAuto)
    else
      match ParseHandle(request.handle)
      case None => Refused(BadHandle)
      case Some((provider, device)) =>
        if provider !in world.providers then Refused(ProviderUnknown)
        else if !world.providers[provider] then Refused(ProviderDown)
        else
          match Find(devices, provider + "/" + device)
          case None => Refused(DeviceUnknown)
          case Some(found) =>
            match Resolve(found, request.functionId, request.functionName)
            case NoSuchFunction => Refused(FunctionUnknown)
            case BadSelector => Refused(SelectorRefused)
            case Resolved(spec) =>
              if !request.safeState && !ModeAllowed(spec, world.mode) then Refused(ModeNotAllowed)
              else if LatchHolds(request, spec, world) then Refused(StopLatched)
              else if LossHolds(request, spec, world) then Refused(DeviceLatched)
              else
                var coerced := Coerce(spec.args, request.args);
                if coerced.None? || !ValidArguments(spec.args, coerced.value) then Refused(ArgumentsRefused)
                else Dispatch(spec, coerced.value)
  }

  /** The whole decision: `world` before the wait for the lock, `locked` under it. */
  function RouteCall(devices: seq<Device>, request: Request, world: World, locked: World, last: Option<int>): Route {
    match RouteFirst(devices, request, world)
    case Refused(why) => Refused(why)
    case Dispatch(spec, args) =>
      if LatchHolds(request, spec, locked) then Refused(StopLatched)
      else if LossHolds(request, spec, locked) then Refused(DeviceLatched)
      else if IntervalHolds(request, spec, last, locked.now) then Refused(TooSoon)
      else Dispatch(spec, args)
  }

  /** Every dispatched call passes the dry run on the registry snapshot it was resolved against. */
  lemma DispatchedCallsValidate(devices: seq<Device>, request: Request, world: World, locked: World, last: Option<int>)
    requires RouteCall(devices, request, world, locked, last).Dispatch?
    ensures ValidateCall(devices, request)
    ensures !LatchHolds(request, RouteCall(devices, request, world, locked, last).spec, locked)
    ensures ValidArguments(RouteCall(devices, request, world, locked, last).spec.args,
                           RouteCall(devices, request, world, locked, last).args)
  {
    ParsedHandleRejoins(request.handle);
  }

  /** A refusal names the request exactly when the dry run refuses it, whatever the runtime state. */
  lemma DryRunPredictsRefusal(devices: seq<Device>, request: Request, world: World, locked: World, last: Option<int>)
    requires RouteCall(devices, request, world, locked, last).Refused?
    ensures var why := RouteCall(devices, request, world, locked, last).why;
            && (ValidateCall(devices, request) ==> IsRuntimeRefusal(why))
            && (!IsRuntimeRefusal(why) ==> !ValidateCall(devices, request))
  {
    if ParseHandle(request.handle).Some? {
      ParsedHandleRejoins(request.handle);
    }
  }

  /** With no runtime gate in the way, the dry run accepts exactly what would be dispatched. */
  lemma DryRunIsExact(devices: seq<Device>, request: Request, world: World, locked: World, last: Option<int>)
    requires request.safeState
    requires ParseHandle(request.handle).Some? ==>
             var (provider, _) := ParseHandle(request.handle).value;
             provider in world.providers && world.providers[provider]
    ensures RouteCall(devices, request, world, locked, last).Dispatch? <==> ValidateCall(devices, request)
  {
    if RouteCall(devices, request, world, locked, last).Dispatch? {
      DispatchedCallsValidate(devices, request, world, locked, last);
    } else {
      DryRunPredictsRefusal(devices, request, world, locked, last);
    }
  }

  // ---- What a call is dispatched or refused for ------------------------------

  /** The declared word, in any case, is the upper-case `name`. */
  predicate SameLetters(word: string, name: string) {
    && |word| == |name|
    && forall i :: 0 <= i < |word| ==>
         word[i] == name[i] || ('a' <= word[i] <= 'z' && word[i] as int == name[i] as int + 32)
  }

  predicate IsUpperCase(name: string) { forall i :: 0 <= i < |name| ==> 'A' <= name[i] <= 'Z' }

  lemma UpperMatches(word: string, name: string)
    requires IsUpperCase(name)
    ensures Upper(word) == name <==> SameLetters(word, name)
  {
    if Upper(word) == name {
      forall i | 0 <= i < |word|
        ensures word[i] == name[i] || ('a' <= word[i] <= 'z' && word[i] as int == name[i] as int + 32)
      {
        assert name[i] == UpperChar(word[i]);
      }
    }
    if SameLetters(word, name) {
      forall i | 0 <= i < |word| ensures Upper(word)[i] == name[i] {
      }
    }
  }

  predicate Names(words: seq<string>, name: string) {
    exists i :: 0 <= i < |words| && SameLetters(words[i], name)
  }

  /** The mode is among those declared; with no mode manager it reads as MANUAL. */
  predicate IsListed(words: seq<string>, mode: Option<Modes.Mode>) {
    || (mode == Some(Modes.Auto) && Names(words, "AUTO"))
    || (mode == Some(Modes.Idle) && Names(words, "IDLE"))
    || (mode == Some(Modes.Fault) && Names(words, "FAULT"))
    || ((mode == Some(Modes.Manual) || mode == None) && Names(words, "MANUAL"))
  }

  lemma ModeAllowedExactly(spec: FunctionSpec, mode: Option<Modes.Mode>)
    ensures ModeAllowed(spec, mode) <==> spec.allowedModes == [] || IsListed(spec.allowedModes, mode)
  {
    var words, name := spec.allowedModes, ModeName(mode);
    assert IsUpperCase("AUTO") && IsUpperCase("IDLE") && IsUpperCase("FAULT") && IsUpperCase("MANUAL");
    forall m | m in words ensures Upper(m) == name <==> SameLetters(m, name) {
      UpperMatches(m, name);
    }
    if exists m :: m in words && Upper(m) == name {
      var m :| m in words && Upper(m) == name;
      var i :| 0 <= i < |words| && words[i] == m;
      assert Names(words, name);
    }
    if Names(words, name) {
      var i :| 0 <= i < |words| && SameLetters(words[i], name);
      assert words[i] in words && Upper(words[i]) == name;
    }
  }

  /** The function the request selects, if its device and selectors are good. */
  function Selected(devices: seq<Device>, request: Request): Option<FunctionSpec> {
    match Find(devices, request.handle)
    case None => None
    case Some(found) =>
      match Resolve(found, request.functionId, request.functionName)
      case Resolved(spec) => Some(spec)
      case _ => None
  }

  predicate ProviderUp(request: Request, world: World) {
    && ParseHandle(request.handle).Some?
    && var (provider, _) := ParseHandle(request.handle).value; provider in world.providers && world.providers[provider]
  }

  /** The stop latch is open to the call: not engaged, or letting a FAULT-entry hook through. */
  predicate LatchOpen(request: Request, world: World) {
    !world.latched || (request.faultEntryHook && world.admitsHooks)
  }

  /** No gate stands against the call: a safe-state call passes them all. */
  predicate Unhindered(request: Request, spec: FunctionSpec, world: World, locked: World, last: Option<int>) {
    request.safeState ||
    (&& world.mode != Some(Modes.Idle)
     && (request.isAutomated || world.mode != Some(Modes.Auto) || !world.blockManual)
     && (spec.allowedModes == [] || IsListed(spec.allowedModes, world.mode))
     && (spec.category == ReadCategory || (LatchOpen(request, world) && LatchOpen(request, locked)))
     && (spec.category == ReadCategory || !request.isBehaviorTree
         || (request.handle !in world.lost && request.handle !in locked.lost))
     && (spec.minIntervalMs == 0 || last == None || locked.now - last.value >= spec.minIntervalMs * NANOS_PER_MS))
  }

  lemma IntervalHoldsExactly(request: Request, spec: FunctionSpec, last: Option<int>, now: int)
    ensures IntervalHolds(request, spec, last, now) <==>
              && !request.safeState && spec.minIntervalMs > 0 && last.Some?
              && now - last.value < spec.minIntervalMs * NANOS_PER_MS
  {
  }

  /** The two gates ahead of the lookup let the call by. */
  predicate ModeLets(request: Request, world: World) {
    && (request.safeState || world.mode != Some(Modes.Idle))
    && !(!request.isAutomated && !request.safeState && world.mode == Some(Modes.Auto) && world.blockManual)
  }

  lemma UnhinderedAtEachGate(request: Request, spec: FunctionSpec, world: World, locked: World, last: Option<int>)
    ensures Unhindered(request, spec, world, locked, last) <==>
              && ModeLets(request, world) && (request.safeState || ModeAllowed(spec, world.mode))
              && !LatchHolds(request, spec, world) && !LossHolds(request, spec, world)
              && !LatchHolds(request, spec, locked) && !LossHolds(request, spec, locked)
              && !IntervalHolds(request, spec, last, locked.now)
  {
    ModeAllowedExactly(spec, world.mode);
    IntervalHoldsExactly(request, spec, last, locked.now);
  }

  lemma FirstRoute(devices: seq<Device>, request: Request, world: World)
    ensures var route, spec := RouteFirst(devices, request, world), Selected(devices, request);
            && (route.Dispatch? <==>
                  && ModeLets(request, world) && ProviderUp(request, world) && ValidateCall(devices, request)
                  && spec.Some? && (request.safeState || ModeAllowed(spec.value, world.mode))
                  && !LatchHolds(request, spec.value, world) && !LossHolds(request, spec.value, world))
            && (route.Dispatch? ==>
                  spec == Some(route.spec) && Some(route.args) == Coerce(route.spec.args, request.args))
  {
    if ParseHandle(request.handle).Some? {
      ParsedHandleRejoins(request.handle);
    }
  }

  /**
    A call is dispatched exactly when its provider is up, the dry run accepts it,
    and it is a safe-state call or no gate stands against it: IDLE, AUTO for a
    manual call, the modes declared, the stop latch before and under the lock for
    all but READ functions, the device-loss latch for tree calls, the interval.
   */
  lemma DispatchedExactlyWhenUnhindered(devices: seq<Device>, request: Request, world: World, locked: World,
                                        last: Option<int>)
    ensures var route, spec := RouteCall(devices, request, world, locked, last), Selected(devices, request);
            && (route.Dispatch? <==>
                  && ProviderUp(request, world) && ValidateCall(devices, request)
                  && spec.Some? && Unhindered(request, spec.value, world, locked, last))
            && (route.Dispatch? ==>
                  spec == Some(route.spec) && Some(route.args) == Coerce(route.spec.args, request.args))
  {
    FirstRoute(devices, request, world);
    var spec := Selected(devices, request);
    if spec.Some? {
      UnhinderedAtEachGate(request, spec.value, world, locked, last);
    }
  }

  /** The reason given is the case, told by the fields the gate reads. */
  predicate IsCase(why: Refusal, devices: seq<Device>, request: Request, world: World, locked: World,
                   last: Option<int>)
  {
    var spec := Selected(devices, request);
    match why
    case IdleMode => !request.safeState && world.mode == Some(Modes.Idle)
    case ManualInAuto =>
      !request.safeState && !request.isAutomated && world.mode == Some(Modes.Auto) && world.blockManual
    case ModeNotAllowed =>
      && !request.safeState && spec.Some? && spec.value.allowedModes != []
      && !IsListed(spec.value.allowedModes, world.mode)
    case StopLatched =>
      && !request.safeState && spec.Some? && spec.value.category != ReadCategory
      && (!LatchOpen(request, world) || !LatchOpen(request, locked))
    case DeviceLatched =>
      && !request.safeState && request.isBehaviorTree && spec.Some? && spec.value.category != ReadCategory
      && (request.handle in world.lost || request.handle in locked.lost)
    case TooSoon =>
      && !request.safeState && spec.Some? && spec.value.minIntervalMs > 0 && last.Some?
      && locked.now - last.value < spec.value.minIntervalMs * NANOS_PER_MS
    case BadHandle => ParseHandle(request.handle).None?
    case ProviderUnknown =>
      ParseHandle(request.handle).Some? && ParseHandle(request.handle).value.0 !in world.providers
    case ProviderDown => ParseHandle(request.handle).Some? && !ProviderUp(request, world)
    case DeviceUnknown => Find(devices, request.handle).None?
    case FunctionUnknown => Find(devices, request.handle).Some? && spec.None?
    case SelectorRefused => Find(devices, request.handle).Some? && spec.None?
    case ArgumentsRefused => spec.Some? && !ValidateCall(devices, request)
  }

  lemma FirstRefusalIsCase(devices: seq<Device>, request: Request, world: World, locked: World, last: Option<int>)
    requires RouteFirst(devices, request, world).Refused?
    ensures IsCase(RouteFirst(devices, request, world).why, devices, request, world, locked, last)
  {
    if ParseHandle(request.handle).Some? {
      ParsedHandleRejoins(request.handle);
    }
    var spec := Selected(devices, request);
    if spec.Some? {
      ModeAllowedExactly(spec.value, world.mode);
    }
  }

  lemma RefusedForTheReasonGiven(devices: seq<Device>, request: Request, world: World, locked: World,
                                 last: Option<int>)
    requires RouteCall(devices, request, world, locked, last).Refused?
    ensures IsCase(RouteCall(devices, request, world, locked, last).why, devices, request, world, locked, last)
  {
    var route := RouteFirst(devices, request, world);
    if route.Refused? {
      FirstRefusalIsCase(devices, request, world, locked, last);
    } else {
      FirstRoute(devices, request, world);
      IntervalHoldsExactly(request, route.spec, last, locked.now);
    }
  }

  /** The dry run, part by part. */
  lemma ValidatesExactly(devices: seq<Device>, request: Request)
    ensures ValidateCall(devices, request) <==>
              && ParseHandle(request.handle).Some? && Selected(devices, request).Some?
              && var specs := Selected(devices, request).value.args;
                 var args := Coerce(specs, request.args);
                 && args.Some?
                 && (forall i :: 0 <= i < |specs| && specs[i].required ==> specs[i].name in args.value)
                 && (forall name <- args.value :: IsDeclared(specs, name, args.value[name]))
  {
    if ParseHandle(request.handle).Some? {
      ParsedHandleRejoins(request.handle);
    }
    if Selected(devices, request).Some? {
      var specs := Selected(devices, request).value.args;
      if Coerce(specs, request.args).Some? {
        ValidExactlyAsDeclared(specs, Coerce(specs, request.args).value);
      }
    }
  }

  /** Each argument dispatched is the request's own, coerced, and admitted by the declaration that judges it. */
  lemma DispatchedArgumentsAreDeclared(devices: seq<Device>, request: Request, world: World, locked: World,
                                       last: Option<int>, name: string)
    requires RouteCall(devices, request, world, locked, last).Dispatch?
    requires name in RouteCall(devices, request, world, locked, last).args
    ensures var route := RouteCall(devices, request, world, locked, last);
            && name in request.args
            && (route.args[name] == request.args[name]
                || (Number(route.args[name]).Some? && Number(route.args[name]) == Number(request.args[name])))
            && IsDeclared(route.spec.args, name, route.args[name])
  {
    var route := RouteCall(devices, request, world, locked, last);
    DispatchedExactlyWhenUnhindered(devices, request, world, locked, last);
    DispatchedCallsValidate(devices, request, world, locked, last);
    ValidExactlyAsDeclared(route.spec.args, route.args);
    CoercionPreservesNumbers(route.spec.args, request.args);
  }

  // ---- The interval between dispatches ---------------------------------------

  datatype Sent = Sent(handle: string, functionId: nat, minIntervalMs: nat, safeState: bool, at: int)

  /** Where a rate-limited function's calls stand: no non-safe-state call too close after any earlier one. */
  ghost predicate Spaced(sent: seq<Sent>) {
    forall i, j :: 0 <= i < j < |sent|
                   && sent[i].handle == sent[j].handle && sent[i].functionId == sent[j].functionId
                   && sent[i].minIntervalMs > 0 && !sent[j].safeState ==>
      sent[j].at - sent[i].at >= sent[j].minIntervalMs * NANOS_PER_MS
  }

  function LastOf(lastDispatch: map<(string, nat), int>, request: Request, spec: FunctionSpec): Option<int> {
    var key := (request.handle, spec.functionId);
    if key in lastDispatch then Some(lastDispatch[key]) else None
  }

  /** What is remembered of the function the request selects. */
  function LastFor(lastDispatch: map<(string, nat), int>, devices: seq<Device>, request: Request): Option<int> {
    match Selected(devices, request)
    case None => None
    case Some(spec) => LastOf(lastDispatch, request, spec)
  }

  /** The function was dispatched less than its interval before `now`. */
  ghost predicate SentWithin(sent: seq<Sent>, handle: string, spec: FunctionSpec, now: int) {
    exists i :: 0 <= i < |sent| && sent[i].handle == handle && sent[i].functionId == spec.functionId
                && now - sent[i].at < spec.minIntervalMs * NANOS_PER_MS
  }

  /** The newest dispatch of each rate-limited function, and nothing but dispatches. */
  ghost predicate Remembered(sent: seq<Sent>, lastDispatch: map<(string, nat), int>) {
    && (forall i :: 0 <= i < |sent| && sent[i].minIntervalMs > 0 ==>
          && (sent[i].handle, sent[i].functionId) in lastDispatch
          && sent[i].at <= lastDispatch[(sent[i].handle, sent[i].functionId)])
    && (forall key <- lastDispatch :: WasSent(sent, key, lastDispatch[key]))
  }

  ghost predicate WasSent(sent: seq<Sent>, key: (string, nat), at: int) {
    exists i :: 0 <= i < |sent| && (sent[i].handle, sent[i].functionId) == key && sent[i].at == at
  }

  /** A dispatch is remembered, and everything remembered before it still was one. */
  lemma RememberedNext(sent: seq<Sent>, lastDispatch: map<(string, nat), int>, next: Sent)
    requires Remembered(sent, lastDispatch) && forall i :: 0 <= i < |sent| ==> sent[i].at <= next.at
    ensures var key := (next.handle, next.functionId);
            var after := if next.minIntervalMs > 0 then lastDispatch[key := next.at] else lastDispatch;
            Remembered(sent + [next], after)
  {
    var all, key := sent + [next], (next.handle, next.functionId);
    assert all[|sent|] == next;
    forall k, at | WasSent(sent, k, at) ensures WasSent(all, k, at) {
      var i :| 0 <= i < |sent| && (sent[i].handle, sent[i].functionId) == k && sent[i].at == at;
      assert all[i] == sent[i];
    }
    assert WasSent(all, key, next.at);
  }

  /** A dispatch that is a safe-state call, or late enough after the one remembered, keeps the spacing. */
  lemma SpacedNext(sent: seq<Sent>, lastDispatch: map<(string, nat), int>, next: Sent)
    requires Spaced(sent) && Remembered(sent, lastDispatch)
    requires forall i :: 0 <= i < |sent| ==> sent[i].at <= next.at
    requires var key := (next.handle, next.functionId);
             !next.safeState && key in lastDispatch && next.minIntervalMs > 0 ==>
               (next.at - lastDispatch[key]) / NANOS_PER_MS >= next.minIntervalMs
    ensures Spaced(sent + [next])
  {
    var all := sent + [next];
    forall i, j | 0 <= i < j < |all| && all[i].handle == all[j].handle && all[i].functionId == all[j].functionId
                  && all[i].minIntervalMs > 0 && !all[j].safeState
      ensures all[j].at - all[i].at >= all[j].minIntervalMs * NANOS_PER_MS
    {
      if j < |sent| {
        assert all[i] == sent[i] && all[j] == sent[j];
      } else {
        assert all[i] == sent[i];
      }
    }
  }

  class Router {
    var lastDispatch: map<(string, nat), int>
    ghost var sent: seq<Sent>

    /** `lastDispatch` holds the newest dispatch of each rate-limited function, and the spacing holds. */
    ghost predicate Valid()
      reads this
    {
      && Spaced(sent)
      && (forall i, j :: 0 <= i < j < |sent| ==> sent[i].at <= sent[j].at)
      && Remembered(sent, lastDispatch)
    }

    constructor ()
      ensures Valid() && sent == []
    {
      lastDispatch, sent := map[], [];
    }

    /** The interval gate under the provider's lock, and the record of the dispatch it lets through. */
    method PassInterval(request: Request, spec: FunctionSpec, now: int) returns (pass: bool)
      requires Valid()
      requires forall i :: 0 <= i < |sent| ==> sent[i].at <= now
      modifies this
      ensures Valid()
      ensures !pass <==> IntervalHolds(request, spec, LastOf(old(lastDispatch), request, spec), now)
      ensures !pass ==> sent == old(sent) && SentWithin(sent, request.handle, spec, now)
      ensures pass ==>
                sent == old(sent) + [Sent(request.handle, spec.functionId, spec.minIntervalMs, request.safeState, now)]
    {
      var key := (request.handle, spec.functionId);
      if spec.minIntervalMs > 0 {
        if !request.safeState && key in lastDispatch
           && (now - lastDispatch[key]) / NANOS_PER_MS < spec.minIntervalMs {
          IntervalHoldsExactly(request, spec, Some(lastDispatch[key]), now);
          assert WasSent(sent, key, lastDispatch[key]);
          return false;
        }
        lastDispatch := lastDispatch[key := now];
      }
      ghost var next := Sent(request.handle, spec.functionId, spec.minIntervalMs, request.safeState, now);
      SpacedNext(sent, old(lastDispatch), next);
      RememberedNext(sent, old(lastDispatch), next);
      sent := sent + [next];
      return true;
    }

    /**
      `execute_call` up to the provider's reply. The clock is steady, so the
      instant under the lock is no earlier than any dispatch before it.
     */
    method ExecuteCall(devices: seq<Device>, request: Request, world: World, locked: World) returns (route: Route)
      requires Valid()
      requires forall i :: 0 <= i < |sent| ==> sent[i].at <= locked.now
      modifies this
      ensures Valid()
      ensures route == RouteCall(devices, request, world, locked, LastFor(old(lastDispatch), devices, request))
      ensures route.Refused? ==> sent == old(sent)
      ensures route == Refused(TooSoon) ==>
                && Selected(devices, request).Some?
                && SentWithin(sent, request.handle, Selected(devices, request).value, locked.now)
      ensures route.Dispatch? ==>
        sent == old(sent) + [Sent(request.handle, route.spec.functionId, route.spec.minIntervalMs,
                                  request.safeState, locked.now)]
    {
      route := RouteFirst(devices, request, world);
      if route.Refused? {
        return;
      }
      FirstRoute(devices, request, world);
      if LatchHolds(request, route.spec, locked) {
        return Refused(StopLatched);
      }
      if LossHolds(request, route.spec, locked) {
        return Refused(DeviceLatched);
      }
      var pass := PassInterval(request, route.spec, locked.now);
      if !pass {
        return Refused(TooSoon);
      }
    }
  }
}
