/**
  The actuation-safety protocol as one transition system over any number of
  threads: mode requests (core/automation/mode_manager.cpp), the AUTO gates
  (core/runtime/actuation_gate.cpp), the software stop's trigger, hold and clear
  (core/control/safe_state.cpp), the observed emergency stop and provider
  restarts (core/runtime/runtime.cpp), and device calls under per-provider locks
  (core/control/call_router.cpp).

  Every lock section, and every lock-free read or write, is one action. Under
  the mode lock the two commit guards and the mode write are separate actions,
  so the registry and the latch can change between a verdict and the write.
  Gates a call can fail that do not concern the stop are the action `GiveUp`.
 */
module Protocol {
  import opened Options
  import opened Modes
  import opened Registry
  import opened ActuationGate
  import SafeState
  import opened StopChain

  type Tid = nat

  /** The main loop's thread, the only one that updates the stop status and holds for it. */
  const MAIN: Tid := 0

  /** Modes start in IDLE (core/runtime/runtime.cpp, `init_automation`). */
  const START: Mode := Idle

  /** The gate's verdict and the ladder's plan on an inventory; the protocol is safe whatever they are. */
  datatype Config = Config(refuses: seq<Device> -> bool, plan: seq<Device> -> SafeState.Kind)

  /** The configuration the runtime installs. */
  function Installed(automation: AutomationConfig, safety: SafeState.SafetyConfig): Config {
    Config(devices => GateRefuses(automation, devices), devices => SafeState.PlannedKind(devices, safety))
  }

  /** Who asked for the mode change, and so what happens when it is answered. */
  datatype Origin = Operator | FromTrigger(kind: SafeState.Kind) | FromHold | FromRestart

  /** Where a mode request is. It holds the mode lock from `Judging` to `Writing`. */
  datatype ModePc =
    | Opening
    | Before(previous: Mode)
    | Arriving(previous: Mode)
    | Judging(previous: Mode)
    | GateGuard(previous: Mode)
    | LatchGuard(previous: Mode)
    | Writing(previous: Mode)
    | Notifying(previous: Mode)

  /** `since` is how many mode changes had been committed when the request was made. */
  datatype Task =
    | Free
    | Changing(pc: ModePc, next: Mode, origin: Origin, since: nat)
    | Engaging | Planning | Laddering(kind: SafeState.Kind)
    | Updated | HoldWaiting | Holding | HoldReleasing
    | ClearJudging | ClearStoring | ClearReleasing
    | Committing(provider: string, devices: seq<Device>) | Rechecking | Evaluating

  /** `ofStop` marks a call made by a stop's ladder, under the controller's mutex. */
  datatype Call = Call(provider: string, spec: FunctionSpec, safeState: bool, faultHook: bool, ofStop: bool)

  /** Where a thread's device call is. It holds its provider's lock from `Confirming` on. */
  datatype CallPc =
    | NoCall
    | Checking(c: Call)
    | Enrolling(c: Call)
    | Waiting(c: Call, lock: nat)
    | Confirming(c: Call, lock: nat)
    | Ready(c: Call, lock: nat)
    | Sending(c: Call, lock: nat)

  /** An answered mode request, with the span of committed changes it lived through. */
  datatype Reply = Reply(next: Mode, ok: bool, since: nat, until: nat)

  /**
    The history the call-path property speaks of: a ladder call of a stop, an
    actuating call that is not a safe-state call, or the latch being cleared.
    `hook` is true for a FAULT-entry hook made by a stop that planned no rung.
   */
  datatype CallEvent = Driven(provider: string) | Actuated(provider: string, hook: bool) | Released

  /** The mode and its lock; `changes` and `replies` are the history. */
  datatype ModePart = ModePart(mode: Mode, lock: Option<Tid>, changes: seq<Change>, replies: seq<Reply>)

  /** The latch, the controller's mutex, the admitted hook thread, and who last engaged the latch. */
  datatype StopPart = StopPart(latched: bool, ctl: Option<Tid>, admitted: Option<Tid>, engagedBy: Option<Tid>)

  /** The published inventory, and the restart that last made the gate refuse it. */
  datatype GatePart = GatePart(registry: seq<Device>, refusedBy: Option<Tid>)

  /** Lock table, lock owners, the providers a stop's ladder has called, the call history, and the calls under way. */
  datatype CallPart = CallPart(table: map<string, nat>, held: map<nat, Tid>, driven: set<string>,
                               events: seq<CallEvent>, pcs: map<Tid, CallPc>)

  datatype State = State(m: ModePart, stop: StopPart, gate: GatePart, chain: ChainState, calls: CallPart,
                         tasks: map<Tid, Task>)
  {
    function Task(t: Tid): Task { if t in tasks then tasks[t] else Free }
    function Call(t: Tid): CallPc { if t in calls.pcs then calls.pcs[t] else NoCall }

    function WithTask(t: Tid, task: Task): State { this.(tasks := tasks[t := task]) }
    function WithCall(t: Tid, call: CallPc): State { this.(calls := calls.(pcs := calls.pcs[t := call])) }

    /** A request for `next` by `t`, opened at the present instant. */
    function Ask(t: Tid, next: Mode, origin: Origin): State {
      WithTask(t, Changing(Opening, next, origin, |m.changes|))
    }

    /** The latch engaged by `t`, unless it already was. */
    function Latch(t: Tid): State {
      this.(stop := stop.(latched := true, engagedBy := if stop.latched then stop.engagedBy else Some(t)))
    }

    function Controller(owner: Option<Tid>): State { this.(stop := stop.(ctl := owner)) }
    function ModeLock(owner: Option<Tid>): State { this.(m := m.(lock := owner)) }
  }

  /**
    A machine may start latched, from its latch file, and with any inventory. The
    stop's status is first read, and held for, before any mode request
    (core/runtime/runtime.cpp:114), so it may start held, and is then latched.
   */
  ghost predicate Init(s: State) {
    && s.m == ModePart(START, None, [], [])
    && s.stop == StopPart(s.stop.latched, None, None, None)
    && s.gate.refusedBy == None
    && (ChainHolds(s.chain) ==> s.stop.latched)
    && s.calls == CallPart(map[], map[], {}, [], map[])
    && s.tasks == map[]
  }

  // ---- Mode requests -----------------------------------------------------------

  datatype ModeAction =
    | Request(next: Mode) | Open | Veto | CallbacksDone | TakeLock | JudgeIt | CheckGate | CheckLatch | Write | Finish

  predicate ModeEnabled(s: State, t: Tid, a: ModeAction) {
    var task := s.Task(t);
    match a
    case Request(_) => task.Free? && s.Call(t).NoCall?
    case Open => task.Changing? && task.pc.Opening? && s.m.lock.None? && s.Call(t).NoCall?
    case Veto => task.Changing? && task.pc.Before? && task.next != Fault && s.Call(t).NoCall?
    case CallbacksDone => task.Changing? && task.pc.Before? && s.Call(t).NoCall?
    case TakeLock => task.Changing? && task.pc.Arriving? && s.m.lock.None?
    case JudgeIt => task.Changing? && task.pc.Judging?
    case CheckGate => task.Changing? && task.pc.GateGuard?
    case CheckLatch => task.Changing? && task.pc.LatchGuard?
    case Write => task.Changing? && task.pc.Writing?
    case Finish => task.Changing? && task.pc.Notifying? && s.Call(t).NoCall?
  }

  /** The request returns. A trigger then withdraws its hook admission and releases the controller. */
  function Answered(s: State, t: Tid, ok: bool): State
    requires s.Task(t).Changing?
  {
    var task := s.Task(t);
    var told := s.(m := s.m.(replies := s.m.replies + [Reply(task.next, ok, task.since, |s.m.changes|)]));
    (if task.origin.FromTrigger? then told.(stop := told.stop.(admitted := None, ctl := None)) else told)
      .WithTask(t, Free)
  }

  function ModeFire(cfg: Config, s: State, t: Tid, a: ModeAction): State
    requires ModeEnabled(s, t, a)
  {
    var task := s.Task(t);
    match a
    case Request(next) => s.Ask(t, next, Operator)
    case Open =>
      (match Admit(s.m.mode, task.next)
       case NoChange => Answered(s, t, true)
       case Illegal => Answered(s, t, false)
       case Proceed(previous) => s.WithTask(t, task.(pc := Before(previous))))
    case Veto => Answered(s, t, false)
    case CallbacksDone => s.WithTask(t, task.(pc := Arriving(task.pc.previous)))
    case TakeLock => s.ModeLock(Some(t)).WithTask(t, task.(pc := Judging(task.pc.previous)))
    case JudgeIt =>
      (match Judge(s.m.mode, task.pc.previous, task.next)
       case Refuse => Answered(s.ModeLock(None), t, false)
       case AlreadyFault => Answered(s.ModeLock(None), t, true)
       case Commit(previous) =>
         s.WithTask(t, task.(pc := if task.next == Fault then Writing(previous) else GateGuard(previous))))
    case CheckGate =>
      if task.next == Auto && cfg.refuses(s.gate.registry) then Answered(s.ModeLock(None), t, false)
      else s.WithTask(t, task.(pc := LatchGuard(task.pc.previous)))
    case CheckLatch =>
      if task.next == Auto && s.stop.latched then Answered(s.ModeLock(None), t, false)
      else s.WithTask(t, task.(pc := Writing(task.pc.previous)))
    case Write =>
      s.(m := s.m.(mode := task.next, lock := None,
                   changes := s.m.changes + [Change(task.pc.previous, task.next)]))
       .WithTask(t, task.(pc := Notifying(task.pc.previous)))
    case Finish => Answered(s, t, true)
  }

  // ---- The software stop and the observed one ------------------------------------

  datatype StopAction =
    | Press | Engage | PlanLadder | LadderDone
    | Update(chain: ChainState) | JudgeStatus | BeginHold | StoreHold | EndHold
    | BeginClear | CheckClear | StoreClear | EndClear

  predicate StopEnabled(s: State, t: Tid, a: StopAction) {
    var task := s.Task(t);
    match a
    case Press => task.Free? && s.Call(t).NoCall? && s.stop.ctl.None?
    case Engage => task.Engaging?
    case PlanLadder => task.Planning?
    case LadderDone => task.Laddering? && s.Call(t).NoCall?
    case Update(chain) => t == MAIN && task.Free? && s.Call(t).NoCall? && chain != NotConfigured
    case JudgeStatus => task.Updated?
    case BeginHold => task.HoldWaiting? && s.stop.ctl.None?
    case StoreHold => task.Holding?
    case EndHold => task.HoldReleasing?
    case BeginClear => task.Free? && s.Call(t).NoCall? && s.stop.ctl.None?
    case CheckClear => task.ClearJudging?
    case StoreClear => task.ClearStoring?
    case EndClear => task.ClearReleasing?
  }

  function StopFire(cfg: Config, s: State, t: Tid, a: StopAction): State
    requires StopEnabled(s, t, a)
  {
    var task := s.Task(t);
    match a
    case Press => s.Controller(Some(t)).WithTask(t, Engaging)
    case Engage => s.Latch(t).WithTask(t, Planning)
    case PlanLadder => s.WithTask(t, Laddering(cfg.plan(s.gate.registry)))
    case LadderDone =>
      s.(stop := s.stop.(admitted := if task.kind.NoRung? then Some(t) else s.stop.admitted))
       .Ask(t, Fault, FromTrigger(task.kind))
    case Update(chain) => if chain == s.chain then s else s.(chain := chain).WithTask(t, Updated)
    case JudgeStatus => s.WithTask(t, if ChainHolds(s.chain) then HoldWaiting else Free)
    case BeginHold => s.Controller(Some(t)).WithTask(t, Holding)
    case StoreHold => s.Latch(t).WithTask(t, HoldReleasing)
    case EndHold => s.Controller(None).Ask(t, Fault, FromHold)
    case BeginClear => s.Controller(Some(t)).WithTask(t, ClearJudging)
    case CheckClear =>
      if ChainHolds(s.chain) then s.Controller(None).WithTask(t, Free) else s.WithTask(t, ClearStoring)
    case StoreClear =>
      s.(stop := s.stop.(latched := false),
         calls := s.calls.(driven := {}, events := s.calls.events + [Released])).WithTask(t, ClearReleasing)
    case EndClear => s.Controller(None).WithTask(t, Free)
  }

  // ---- Provider restarts -----------------------------------------------------------

  datatype RestartAction = BeginRestart(provider: string, devices: seq<Device>) | CommitDevices | ReadMode | EvaluateNow

  predicate RestartEnabled(s: State, t: Tid, a: RestartAction) {
    var task := s.Task(t);
    match a
    case BeginRestart(_, _) => task.Free? && s.Call(t).NoCall?
    case CommitDevices => task.Committing?
    case ReadMode => task.Rechecking? && s.m.lock.None?
    case EvaluateNow => task.Evaluating?
  }

  function RestartFire(cfg: Config, s: State, t: Tid, a: RestartAction): State
    requires RestartEnabled(s, t, a)
  {
    var task := s.Task(t);
    match a
    case BeginRestart(provider, devices) => s.WithTask(t, Committing(provider, devices))
    case CommitDevices =>
      s.(gate := GatePart(Replace(s.gate.registry, task.provider, task.devices),
                          if cfg.refuses(s.gate.registry) then s.gate.refusedBy else Some(t))).WithTask(t, Rechecking)
    case ReadMode => s.WithTask(t, if s.m.mode == Auto then Evaluating else Free)
    case EvaluateNow =>
      if cfg.refuses(s.gate.registry) then s.Ask(t, Fault, FromRestart) else s.WithTask(t, Free)
  }

  // ---- Device calls ------------------------------------------------------------------

  datatype CallAction = StartCall(c: Call) | CheckFirst | Enroll | Acquire | Confirm | GiveUp | Send | EndCall

  /** Which calls a thread may make: hooks only inside a mode request, ladder calls only inside a stop. */
  predicate MayCall(task: Task, c: Call) {
    match task
    case Free => !c.faultHook && !c.ofStop
    case Laddering(kind) => !kind.NoRung? && c.safeState && c.ofStop && !c.faultHook
    case Changing(pc, next, _, _) =>
      (pc.Before? || pc.Notifying?) && !c.safeState && !c.ofStop && c.faultHook == (next == Fault)
    case _ => false
  }

  predicate LatchHolds(s: State, t: Tid, c: Call) {
    !c.safeState && s.stop.latched && IsActuating(c.spec) && !(c.faultHook && s.stop.admitted == Some(t))
  }

  predicate CallEnabled(s: State, t: Tid, a: CallAction) {
    var call := s.Call(t);
    match a
    case StartCall(c) => call.NoCall? && MayCall(s.Task(t), c)
    case CheckFirst => call.Checking?
    case Enroll => call.Enrolling?
    case Acquire => call.Waiting? && call.lock !in s.calls.held
    case Confirm => call.Confirming?
    case GiveUp => call.Checking? || call.Enrolling? || call.Confirming? || call.Ready?
    case Send => call.Ready?
    case EndCall => call.Sending?
  }

  /** Made by a stop whose ladder planned no rung, inside its own FAULT entry. */
  predicate InRunglessStop(task: Task) {
    task.Changing? && task.next == Fault && task.origin == FromTrigger(SafeState.NoRung)
  }

  function Unlock(s: State, lock: nat): State { s.(calls := s.calls.(held := s.calls.held - {lock})) }

  function CallFire(s: State, t: Tid, a: CallAction): State
    requires CallEnabled(s, t, a)
  {
    var call := s.Call(t);
    match a
    case StartCall(c) => s.WithCall(t, Checking(c))
    case CheckFirst => s.WithCall(t, if LatchHolds(s, t, call.c) then NoCall else Enrolling(call.c))
    case Enroll =>
      var provider := call.c.provider;
      var table := if provider in s.calls.table then s.calls.table else s.calls.table[provider := |s.calls.table|];
      s.(calls := s.calls.(table := table)).WithCall(t, Waiting(call.c, table[provider]))
    case Acquire =>
      s.(calls := s.calls.(held := s.calls.held[call.lock := t])).WithCall(t, Confirming(call.c, call.lock))
    case Confirm =>
      if LatchHolds(s, t, call.c) then Unlock(s, call.lock).WithCall(t, NoCall)
      else s.WithCall(t, Ready(call.c, call.lock))
    case GiveUp =>
      (if call.Confirming? || call.Ready? then Unlock(s, call.lock) else s).WithCall(t, NoCall)
    case Send =>
      var sent :=
        if call.c.ofStop then
          s.(calls := s.calls.(driven := s.calls.driven + {call.c.provider},
                               events := s.calls.events + [Driven(call.c.provider)]))
        else if !call.c.safeState && IsActuating(call.c.spec) then
          s.(calls := s.calls.(events := s.calls.events
              + [Actuated(call.c.provider, call.c.faultHook && InRunglessStop(s.Task(t)))]))
        else s;
      sent.WithCall(t, Sending(call.c, call.lock))
    case EndCall => Unlock(s, call.lock).WithCall(t, NoCall)
  }

  // ---- Runs ----------------------------------------------------------------------------

  datatype Action = ModeStep(mode: ModeAction) | StopStep(stop: StopAction) | RestartStep(restart: RestartAction)
                  | CallStep(call: CallAction)

  predicate Enabled(s: State, t: Tid, a: Action) {
    match a
    case ModeStep(m) => ModeEnabled(s, t, m)
    case StopStep(p) => StopEnabled(s, t, p)
    case RestartStep(r) => RestartEnabled(s, t, r)
    case CallStep(c) => CallEnabled(s, t, c)
  }

  function Fire(cfg: Config, s: State, t: Tid, a: Action): State
    requires Enabled(s, t, a)
  {
    match a
    case ModeStep(m) => ModeFire(cfg, s, t, m)
    case StopStep(p) => StopFire(cfg, s, t, p)
    case RestartStep(r) => RestartFire(cfg, s, t, r)
    case CallStep(c) => CallFire(s, t, c)
  }

  ghost predicate Next(cfg: Config, s: State, s': State) {
    exists t: Tid, a: Action :: Enabled(s, t, a) && s' == Fire(cfg, s, t, a)
  }

  ghost predicate StepsTo(cfg: Config, run: seq<State>, i: nat)
    requires 0 < i < |run|
  {
    Next(cfg, run[i - 1], run[i])
  }

  /** Every interleaving: from a start state, any thread fires any enabled action, any number of times. */
  ghost predicate IsRun(cfg: Config, run: seq<State>) {
    run != [] && Init(run[0]) && forall i :: 0 < i < |run| ==> StepsTo(cfg, run, i)
  }
}
