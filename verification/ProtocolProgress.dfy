/**
  What each task of `Protocol` comes to when nothing stands in its way: one thread
  plays it from beginning to end while no other moves. With `ProtocolSafety` this
  says the protocol refuses what it must and nothing else.
 */
module ProtocolProgress {
  import opened Options
  import opened Modes
  import opened Registry
  import opened Protocol
  import opened StopChain
  import CallRouter

  /** Thread `t` plays these actions, one after the other, and nobody else moves. */
  ghost predicate Plays(cfg: Config, s: State, t: Tid, actions: seq<Action>, s': State)
    decreases |actions|
  {
    if actions == [] then s' == s
    else Enabled(s, t, actions[0]) && Plays(cfg, Fire(cfg, s, t, actions[0]), t, actions[1..], s')
  }

  lemma {:induction false} PlaysOn(cfg: Config, s: State, t: Tid, first: seq<Action>, mid: State, then': seq<Action>,
                                   s': State)
    requires Plays(cfg, s, t, first, mid) && Plays(cfg, mid, t, then', s')
    ensures Plays(cfg, s, t, first + then', s')
    decreases |first|
  {
    if first == [] {
      assert first + then' == then';
    } else {
      PlaysOn(cfg, Fire(cfg, s, t, first[0]), t, first[1..], mid, then', s');
      assert (first + then')[1..] == first[1..] + then';
    }
  }

  lemma PlaysThrice(cfg: Config, s: State, t: Tid, a: seq<Action>, s1: State, b: seq<Action>, s2: State, c: seq<Action>,
                    s3: State)
    requires Plays(cfg, s, t, a, s1) && Plays(cfg, s1, t, b, s2) && Plays(cfg, s2, t, c, s3)
    ensures Plays(cfg, s, t, a + b + c, s3)
  {
    PlaysOn(cfg, s, t, a, s1, b, s2);
    PlaysOn(cfg, s, t, a + b, s2, c, s3);
  }

  lemma PlaysOne(cfg: Config, s: State, t: Tid, a: Action)
    requires Enabled(s, t, a)
    ensures Plays(cfg, s, t, [a], Fire(cfg, s, t, a))
  {
  }

  lemma PlaysTwo(cfg: Config, s: State, t: Tid, a: Action, b: Action)
    requires Enabled(s, t, a) && Enabled(Fire(cfg, s, t, a), t, b)
    ensures Plays(cfg, s, t, [a, b], Fire(cfg, Fire(cfg, s, t, a), t, b))
  {
    PlaysOne(cfg, s, t, a);
    PlaysOne(cfg, Fire(cfg, s, t, a), t, b);
    PlaysOn(cfg, s, t, [a], Fire(cfg, s, t, a), [b], Fire(cfg, Fire(cfg, s, t, a), t, b));
    assert [a] + [b] == [a, b];
  }

  // ---- A mode request -----------------------------------------------------------------

  const OPENING := [ModeStep(Open), ModeStep(CallbacksDone), ModeStep(TakeLock), ModeStep(JudgeIt)]
  const GUARDS := [ModeStep(CheckGate), ModeStep(CheckLatch)]
  const WRITING := [ModeStep(Write), ModeStep(Finish)]

  /** The request's own part of `set_mode`, with every callback allowing. */
  function RequestActions(mode: Mode, next: Mode): seq<Action> {
    if mode == next then [ModeStep(Open)]
    else if next == Fault then OPENING + WRITING
    else OPENING + GUARDS + WRITING
  }

  /** A thread whose request is at `pc`, and that makes no call. */
  predicate IsAt(s: State, t: Tid, pc: ModePc, next: Mode, origin: Origin, since: nat) {
    s.Task(t) == Changing(pc, next, origin, since) && s.Call(t).NoCall?
  }

  /** What is left alone: all but the mode, and what an answered trigger gives back. */
  predicate Answers(s: State, s': State, t: Tid, origin: Origin) {
    && s'.gate == s.gate && s'.chain == s.chain && s'.calls == s.calls && s'.Task(t).Free?
    && s'.stop == if origin.FromTrigger? then s.stop.(admitted := None, ctl := None) else s.stop
  }

  /** The mode part after a change from `previous` is committed and answered. */
  function Committed(m: ModePart, previous: Mode, next: Mode, since: nat): ModePart {
    ModePart(next, None, m.changes + [Change(previous, next)], m.replies + [Reply(next, true, since, |m.changes| + 1)])
  }

  lemma PlaysWriting(cfg: Config, s: State, t: Tid, previous: Mode, next: Mode, origin: Origin, since: nat)
    returns (s': State)
    requires IsAt(s, t, Writing(previous), next, origin, since)
    ensures Plays(cfg, s, t, WRITING, s') && Answers(s, s', t, origin) && s'.m == Committed(s.m, previous, next, since)
  {
    PlaysTwo(cfg, s, t, ModeStep(Write), ModeStep(Finish));
    s' := Fire(cfg, Fire(cfg, s, t, ModeStep(Write)), t, ModeStep(Finish));
  }

  lemma PlaysGuards(cfg: Config, s: State, t: Tid, previous: Mode, next: Mode, origin: Origin, since: nat)
    returns (s': State)
    requires IsAt(s, t, GateGuard(previous), next, origin, since)
    requires next == Auto ==> !cfg.refuses(s.gate.registry) && !s.stop.latched
    ensures Plays(cfg, s, t, GUARDS, s') && IsAt(s', t, Writing(previous), next, origin, since)
    ensures s'.m == s.m && s'.stop == s.stop && s'.gate == s.gate && s'.chain == s.chain && s'.calls == s.calls
  {
    PlaysTwo(cfg, s, t, ModeStep(CheckGate), ModeStep(CheckLatch));
    s' := Fire(cfg, Fire(cfg, s, t, ModeStep(CheckGate)), t, ModeStep(CheckLatch));
  }

  lemma PlaysOpening(cfg: Config, s: State, t: Tid, next: Mode, origin: Origin, since: nat) returns (s': State)
    requires IsAt(s, t, Opening, next, origin, since) && s.m.lock.None? && s.m.mode != next
    requires next == Fault || s.m.mode == Manual || next == Manual
    ensures Plays(cfg, s, t, OPENING, s')
    ensures IsAt(s', t, if next == Fault then Writing(s.m.mode) else GateGuard(s.m.mode), next, origin, since)
    ensures s'.m == s.m.(lock := Some(t))
    ensures s'.stop == s.stop && s'.gate == s.gate && s'.chain == s.chain && s'.calls == s.calls
  {
    var before := Fire(cfg, s, t, ModeStep(Open));
    PlaysTwo(cfg, s, t, ModeStep(Open), ModeStep(CallbacksDone));
    var done := Fire(cfg, before, t, ModeStep(CallbacksDone));
    PlaysTwo(cfg, done, t, ModeStep(TakeLock), ModeStep(JudgeIt));
    s' := Fire(cfg, Fire(cfg, done, t, ModeStep(TakeLock)), t, ModeStep(JudgeIt));
    PlaysOn(cfg, s, t, OPENING[..2], done, OPENING[2..], s');
    assert OPENING[..2] == [ModeStep(Open), ModeStep(CallbacksDone)];
    assert OPENING[2..] == [ModeStep(TakeLock), ModeStep(JudgeIt)];
    assert OPENING[..2] + OPENING[2..] == OPENING;
  }

  /** What a request along a legal edge comes to, whoever made it. */
  lemma PlaysRequest(cfg: Config, s: State, t: Tid, next: Mode, origin: Origin, since: nat) returns (s': State)
    requires IsAt(s, t, Opening, next, origin, since) && s.m.lock.None?
    requires s.m.mode == next || next == Fault || s.m.mode == Manual || next == Manual
    requires next == Auto && s.m.mode != Auto ==> !cfg.refuses(s.gate.registry) && !s.stop.latched
    ensures Plays(cfg, s, t, RequestActions(s.m.mode, next), s') && Answers(s, s', t, origin)
    ensures s'.m == if s.m.mode == next then
                      s.m.(replies := s.m.replies + [Reply(next, true, since, |s.m.changes|)])
                    else Committed(s.m, s.m.mode, next, since)
  {
    if s.m.mode == next {
      PlaysOne(cfg, s, t, ModeStep(Open));
      s' := Fire(cfg, s, t, ModeStep(Open));
    } else {
      var judged := PlaysOpening(cfg, s, t, next, origin, since);
      if next == Fault {
        s' := PlaysWriting(cfg, judged, t, s.m.mode, next, origin, since);
        PlaysOn(cfg, s, t, OPENING, judged, WRITING, s');
      } else {
        var guarded := PlaysGuards(cfg, judged, t, s.m.mode, next, origin, since);
        s' := PlaysWriting(cfg, guarded, t, s.m.mode, next, origin, since);
        PlaysThrice(cfg, s, t, OPENING, judged, GUARDS, guarded, WRITING, s');
      }
    }
  }

  /** A thread with nothing under way. */
  predicate IsIdle(s: State, t: Tid) { s.Task(t).Free? && s.Call(t).NoCall? }

  /**
    From every state with the mode lock free: a request along a legal edge that no
    callback vetoes and no other change overtakes is committed and answered with
    success, latched or not and whatever the inventory, unless it is for AUTO; then
    it is whenever the latch is open and the inventory accepted.
   */
  lemma UnhinderedRequestSucceeds(cfg: Config, s: State, t: Tid, next: Mode) returns (s': State)
    requires IsIdle(s, t) && s.m.lock.None?
    requires s.m.mode == next || next == Fault || s.m.mode == Manual || next == Manual
    requires next == Auto && s.m.mode != Auto ==> !cfg.refuses(s.gate.registry) && !s.stop.latched
    ensures Plays(cfg, s, t, [ModeStep(Request(next))] + RequestActions(s.m.mode, next), s')
    ensures s'.m.mode == next && s'.m.lock.None?
    ensures s'.m.changes == s.m.changes + if s.m.mode == next then [] else [Change(s.m.mode, next)]
    ensures s'.m.replies == s.m.replies + [Reply(next, true, |s.m.changes|, |s'.m.changes|)]
    ensures s'.stop == s.stop && s'.gate == s.gate && s'.chain == s.chain && s'.calls == s.calls
  {
    var asked := Fire(cfg, s, t, ModeStep(Request(next)));
    PlaysOne(cfg, s, t, ModeStep(Request(next)));
    s' := PlaysRequest(cfg, asked, t, next, Operator, |s.m.changes|);
    PlaysOn(cfg, s, t, [ModeStep(Request(next))], asked, RequestActions(s.m.mode, next), s');
  }

  // ---- A software stop -----------------------------------------------------------------------

  const PRESSING := [StopStep(Press), StopStep(Engage), StopStep(PlanLadder), StopStep(LadderDone)]

  /** Up to the FAULT request: latched, with the hooks let through exactly when no rung is planned. */
  lemma PlaysPressing(cfg: Config, s: State, t: Tid) returns (s': State)
    requires IsIdle(s, t) && s.stop.ctl.None?
    ensures Plays(cfg, s, t, PRESSING, s')
    ensures IsAt(s', t, Opening, Fault, FromTrigger(cfg.plan(s.gate.registry)), |s.m.changes|)
    ensures s'.m == s.m && s'.gate == s.gate && s'.chain == s.chain && s'.calls == s.calls
    ensures s'.stop.latched && s'.stop.ctl == Some(t)
    ensures s'.stop.engagedBy == if s.stop.latched then s.stop.engagedBy else Some(t)
    ensures s'.stop.admitted == if cfg.plan(s.gate.registry).NoRung? then Some(t) else s.stop.admitted
  {
    PlaysTwo(cfg, s, t, StopStep(Press), StopStep(Engage));
    var engaged := Fire(cfg, Fire(cfg, s, t, StopStep(Press)), t, StopStep(Engage));
    PlaysTwo(cfg, engaged, t, StopStep(PlanLadder), StopStep(LadderDone));
    s' := Fire(cfg, Fire(cfg, engaged, t, StopStep(PlanLadder)), t, StopStep(LadderDone));
    PlaysOn(cfg, s, t, PRESSING[..2], engaged, PRESSING[2..], s');
    assert PRESSING[..2] == [StopStep(Press), StopStep(Engage)];
    assert PRESSING[2..] == [StopStep(PlanLadder), StopStep(LadderDone)];
    assert PRESSING[..2] + PRESSING[2..] == PRESSING;
  }

  /** A stop leaves the latch engaged, the mode FAULT, and the controller and the hooks' admission given back. */
  lemma StopCompletes(cfg: Config, s: State, t: Tid) returns (s': State)
    requires IsIdle(s, t) && s.stop.ctl.None? && s.m.lock.None?
    ensures Plays(cfg, s, t, PRESSING + RequestActions(s.m.mode, Fault), s')
    ensures s'.m.mode == Fault && s'.stop.latched && s'.stop.ctl.None? && s'.stop.admitted.None? && IsIdle(s', t)
    ensures s'.gate == s.gate && s'.chain == s.chain && s'.calls == s.calls
  {
    var pressed := PlaysPressing(cfg, s, t);
    s' := PlaysRequest(cfg, pressed, t, Fault, FromTrigger(cfg.plan(s.gate.registry)), |s.m.changes|);
    PlaysOn(cfg, s, t, PRESSING, pressed, RequestActions(s.m.mode, Fault), s');
  }

  // ---- The observed stop -----------------------------------------------------------------------

  function StatusActions(chain: ChainState): seq<Action> { [StopStep(Update(chain)), StopStep(JudgeStatus)] }

  const HOLD := [StopStep(BeginHold), StopStep(StoreHold), StopStep(EndHold)]

  lemma PlaysHold(cfg: Config, s: State, t: Tid) returns (s': State)
    requires s.Task(t).HoldWaiting? && s.Call(t).NoCall? && s.stop.ctl.None?
    ensures Plays(cfg, s, t, HOLD, s') && IsAt(s', t, Opening, Fault, FromHold, |s.m.changes|)
    ensures s'.m == s.m && s'.gate == s.gate && s'.chain == s.chain && s'.calls == s.calls
    ensures s'.stop.latched && s'.stop.ctl.None? && s'.stop.admitted == s.stop.admitted
  {
    PlaysTwo(cfg, s, t, StopStep(BeginHold), StopStep(StoreHold));
    var held := Fire(cfg, Fire(cfg, s, t, StopStep(BeginHold)), t, StopStep(StoreHold));
    PlaysOne(cfg, held, t, StopStep(EndHold));
    s' := Fire(cfg, held, t, StopStep(EndHold));
    PlaysOn(cfg, s, t, [StopStep(BeginHold), StopStep(StoreHold)], held, [StopStep(EndHold)], s');
    assert [StopStep(BeginHold), StopStep(StoreHold)] + [StopStep(EndHold)] == HOLD;
  }

  /**
    A changed status is taken, whatever it is. One that holds ends with the latch
    engaged and the mode FAULT; any other changes nothing else.
   */
  lemma StatusChangeCompletes(cfg: Config, s: State, chain: ChainState) returns (s': State)
    requires IsIdle(s, MAIN) && s.stop.ctl.None? && s.m.lock.None? && chain != NotConfigured && chain != s.chain
    ensures Plays(cfg, s, MAIN,
                  StatusActions(chain) + if ChainHolds(chain) then HOLD + RequestActions(s.m.mode, Fault) else [], s')
    ensures s'.chain == chain && s'.gate == s.gate && s'.calls == s.calls && IsIdle(s', MAIN)
    ensures ChainHolds(chain) ==> s'.stop.latched && s'.stop.ctl.None? && s'.m.mode == Fault
    ensures !ChainHolds(chain) ==> s'.stop == s.stop && s'.m == s.m
  {
    PlaysTwo(cfg, s, MAIN, StopStep(Update(chain)), StopStep(JudgeStatus));
    var judged := Fire(cfg, Fire(cfg, s, MAIN, StopStep(Update(chain))), MAIN, StopStep(JudgeStatus));
    if ChainHolds(chain) {
      var held := PlaysHold(cfg, judged, MAIN);
      s' := PlaysRequest(cfg, held, MAIN, Fault, FromHold, |s.m.changes|);
      PlaysOn(cfg, judged, MAIN, HOLD, held, RequestActions(s.m.mode, Fault), s');
      PlaysOn(cfg, s, MAIN, StatusActions(chain), judged, HOLD + RequestActions(s.m.mode, Fault), s');
    } else {
      s' := judged;
      assert StatusActions(chain) + [] == StatusActions(chain);
    }
  }

  // ---- A clear ------------------------------------------------------------------------------------

  const CLEARING := [StopStep(BeginClear), StopStep(CheckClear)]
  const OPENING_LATCH := [StopStep(StoreClear), StopStep(EndClear)]

  /** A clear opens the latch exactly when the observed stop does not hold at its check; refused, it changes nothing. */
  lemma ClearCompletes(cfg: Config, s: State, t: Tid) returns (s': State)
    requires IsIdle(s, t) && s.stop.ctl.None?
    ensures Plays(cfg, s, t, CLEARING + if ChainHolds(s.chain) then [] else OPENING_LATCH, s')
    ensures s'.m == s.m && s'.gate == s.gate && s'.chain == s.chain && IsIdle(s', t)
    ensures s'.stop == if ChainHolds(s.chain) then s.stop else s.stop.(latched := false)
    ensures s'.calls == if ChainHolds(s.chain) then s.calls
                        else s.calls.(driven := {}, events := s.calls.events + [Released])
  {
    PlaysTwo(cfg, s, t, StopStep(BeginClear), StopStep(CheckClear));
    var checked := Fire(cfg, Fire(cfg, s, t, StopStep(BeginClear)), t, StopStep(CheckClear));
    if ChainHolds(s.chain) {
      s' := checked;
      assert CLEARING + [] == CLEARING;
    } else {
      PlaysTwo(cfg, checked, t, StopStep(StoreClear), StopStep(EndClear));
      s' := Fire(cfg, Fire(cfg, checked, t, StopStep(StoreClear)), t, StopStep(EndClear));
      PlaysOn(cfg, s, t, CLEARING, checked, OPENING_LATCH, s');
    }
  }

  // ---- A provider restart ---------------------------------------------------------------------------

  function RestartActions(provider: string, devices: seq<Device>): seq<Action> {
    [RestartStep(BeginRestart(provider, devices)), RestartStep(CommitDevices)]
  }

  /** Once the new inventory is published: look at the mode, and in AUTO at the gate. */
  lemma PlaysRecheck(cfg: Config, s: State, t: Tid) returns (s': State, actions: seq<Action>)
    requires s.Task(t).Rechecking? && s.Call(t).NoCall? && s.m.lock.None?
    ensures Plays(cfg, s, t, actions, s') && s'.stop == s.stop && s'.gate == s.gate && s'.calls == s.calls
    ensures s'.chain == s.chain && IsIdle(s', t)
    ensures s'.m.mode == if s.m.mode == Auto && cfg.refuses(s.gate.registry) then Fault else s.m.mode
  {
    PlaysOne(cfg, s, t, RestartStep(ReadMode));
    s', actions := Fire(cfg, s, t, RestartStep(ReadMode)), [RestartStep(ReadMode)];
    if s.m.mode == Auto {
      PlaysTwo(cfg, s, t, RestartStep(ReadMode), RestartStep(EvaluateNow));
      var evaluated := Fire(cfg, s', t, RestartStep(EvaluateNow));
      s', actions := evaluated, [RestartStep(ReadMode), RestartStep(EvaluateNow)];
      if cfg.refuses(s.gate.registry) {
        s' := PlaysRequest(cfg, evaluated, t, Fault, FromRestart, |s.m.changes|);
        PlaysOn(cfg, s, t, actions, evaluated, RequestActions(s.m.mode, Fault), s');
        actions := actions + RequestActions(s.m.mode, Fault);
      }
    }
  }

  /** A restart publishes the new inventory, and leaves AUTO for FAULT exactly when the gate refuses it. */
  lemma RestartCompletes(cfg: Config, s: State, t: Tid, provider: string, devices: seq<Device>)
    returns (s': State, actions: seq<Action>)
    requires IsIdle(s, t) && s.m.lock.None?
    ensures Plays(cfg, s, t, RestartActions(provider, devices) + actions, s') && IsIdle(s', t)
    ensures s'.gate.registry == Replace(s.gate.registry, provider, devices)
    ensures s'.stop == s.stop && s'.chain == s.chain && s'.calls == s.calls
    ensures s'.m.mode == if s.m.mode == Auto && cfg.refuses(s'.gate.registry) then Fault else s.m.mode
  {
    var a, b := RestartStep(BeginRestart(provider, devices)), RestartStep(CommitDevices);
    PlaysTwo(cfg, s, t, a, b);
    var published := Fire(cfg, Fire(cfg, s, t, a), t, b);
    s', actions := PlaysRecheck(cfg, published, t);
    PlaysOn(cfg, s, t, RestartActions(provider, devices), published, actions, s');
  }

  // ---- A device call -----------------------------------------------------------------------------------

  const APPROACH := [CallStep(CheckFirst), CallStep(Enroll)]
  const LOCKING := [CallStep(Acquire), CallStep(Confirm)]
  const SENDING := [CallStep(Send), CallStep(EndCall)]

  /** The engaged latch refuses the call, told by its fields. */
  predicate IsStopped(s: State, t: Tid, c: Call) {
    && s.stop.latched && !c.safeState && c.spec.category != ReadCategory
    && !(c.faultHook && s.stop.admitted == Some(t))
  }

  /** This protocol's latch gate is the router's, on the same latch, admission and call. */
  lemma LatchGatesAgree(s: State, t: Tid, c: Call, request: CallRouter.Request, world: CallRouter.World)
    requires c.safeState == request.safeState && c.faultHook == request.faultEntryHook
    requires world.latched == s.stop.latched && world.admitsHooks == (s.stop.admitted == Some(t))
    ensures LatchHolds(s, t, c) <==> IsStopped(s, t, c)
    ensures CallRouter.LatchHolds(request, c.spec, world) <==> IsStopped(s, t, c)
  {
  }

  /** The provider's lock: the one it has, or the one it would get. */
  function LockOf(calls: CallPart, provider: string): nat {
    if provider in calls.table then calls.table[provider] else |calls.table|
  }

  /** What the call leaves in the history. */
  function SentEvents(s: State, t: Tid, c: Call): seq<CallEvent> {
    if c.ofStop then [Driven(c.provider)]
    else if !c.safeState && c.spec.category != ReadCategory then
      [Actuated(c.provider, c.faultHook && InRunglessStop(s.Task(t)))]
    else []
  }

  /** All but the calls, and of those all but `t`'s. */
  predicate CallsOnly(s: State, s': State) {
    s'.m == s.m && s'.stop == s.stop && s'.gate == s.gate && s'.chain == s.chain && s'.tasks == s.tasks
  }

  /** At once refused by the latch: nothing is sent. */
  lemma StoppedCallEnds(cfg: Config, s: State, t: Tid, c: Call) returns (s': State)
    requires s.Call(t).NoCall? && MayCall(s.Task(t), c) && IsStopped(s, t, c)
    ensures Plays(cfg, s, t, [CallStep(StartCall(c)), CallStep(CheckFirst)], s')
    ensures CallsOnly(s, s') && s'.Call(t).NoCall? && s'.calls.events == s.calls.events && s'.calls.held == s.calls.held
  {
    PlaysTwo(cfg, s, t, CallStep(StartCall(c)), CallStep(CheckFirst));
    s' := Fire(cfg, Fire(cfg, s, t, CallStep(StartCall(c))), t, CallStep(CheckFirst));
  }

  lemma PlaysApproach(cfg: Config, s: State, t: Tid, c: Call) returns (s': State)
    requires s.Call(t) == Checking(c) && !IsStopped(s, t, c)
    ensures Plays(cfg, s, t, APPROACH, s') && CallsOnly(s, s') && s'.Call(t) == Waiting(c, LockOf(s.calls, c.provider))
    ensures s'.calls.events == s.calls.events && s'.calls.held == s.calls.held
  {
    PlaysTwo(cfg, s, t, CallStep(CheckFirst), CallStep(Enroll));
    s' := Fire(cfg, Fire(cfg, s, t, CallStep(CheckFirst)), t, CallStep(Enroll));
  }

  lemma PlaysLocking(cfg: Config, s: State, t: Tid, c: Call, lock: nat) returns (s': State)
    requires s.Call(t) == Waiting(c, lock) && lock !in s.calls.held && !IsStopped(s, t, c)
    ensures Plays(cfg, s, t, LOCKING, s') && CallsOnly(s, s') && s'.Call(t) == Ready(c, lock)
    ensures s'.calls.events == s.calls.events && s'.calls.held == s.calls.held[lock := t]
  {
    PlaysTwo(cfg, s, t, CallStep(Acquire), CallStep(Confirm));
    s' := Fire(cfg, Fire(cfg, s, t, CallStep(Acquire)), t, CallStep(Confirm));
  }

  lemma PlaysSending(cfg: Config, s: State, t: Tid, c: Call, lock: nat) returns (s': State)
    requires s.Call(t) == Ready(c, lock)
    ensures Plays(cfg, s, t, SENDING, s') && CallsOnly(s, s') && s'.Call(t).NoCall?
    ensures s'.calls.events == s.calls.events + SentEvents(s, t, c) && s'.calls.held == s.calls.held - {lock}
    ensures s'.calls.driven == s.calls.driven + if c.ofStop then {c.provider} else {}
  {
    PlaysTwo(cfg, s, t, CallStep(Send), CallStep(EndCall));
    s' := Fire(cfg, Fire(cfg, s, t, CallStep(Send)), t, CallStep(EndCall));
  }

  /** Past the first check, with the provider's lock free. */
  lemma PlaysToReady(cfg: Config, s: State, t: Tid, c: Call) returns (s': State)
    requires s.Call(t).NoCall? && MayCall(s.Task(t), c) && !IsStopped(s, t, c)
    requires LockOf(s.calls, c.provider) !in s.calls.held
    ensures Plays(cfg, s, t, [CallStep(StartCall(c))] + APPROACH + LOCKING, s') && CallsOnly(s, s')
    ensures s'.Call(t) == Ready(c, LockOf(s.calls, c.provider)) && s'.calls.events == s.calls.events
    ensures s'.calls.held == s.calls.held[LockOf(s.calls, c.provider) := t]
  {
    var start := CallStep(StartCall(c));
    PlaysOne(cfg, s, t, start);
    var begun := Fire(cfg, s, t, start);
    assert begun.Call(t) == Checking(c) && begun.calls == s.calls.(pcs := begun.calls.pcs);
    var waiting := PlaysApproach(cfg, begun, t, c);
    s' := PlaysLocking(cfg, waiting, t, c, LockOf(s.calls, c.provider));
    PlaysThrice(cfg, s, t, [start], begun, APPROACH, waiting, LOCKING, s');
  }

  lemma GivesBack(held: map<nat, Tid>, lock: nat, t: Tid)
    requires lock !in held
    ensures held[lock := t] - {lock} == held
  {
  }

  /** A call the latch does not refuse, to a provider whose lock is free, is sent, and gives the lock back. */
  lemma CallCompletes(cfg: Config, s: State, t: Tid, c: Call) returns (s': State)
    requires s.Call(t).NoCall? && MayCall(s.Task(t), c) && !IsStopped(s, t, c)
    requires LockOf(s.calls, c.provider) !in s.calls.held
    ensures Plays(cfg, s, t, [CallStep(StartCall(c))] + APPROACH + LOCKING + SENDING, s')
    ensures CallsOnly(s, s') && s'.Call(t).NoCall? && s'.calls.held == s.calls.held
    ensures s'.calls.events == s.calls.events + SentEvents(s, t, c)
  {
    var ready := PlaysToReady(cfg, s, t, c);
    GivesBack(s.calls.held, LockOf(s.calls, c.provider), t);
    assert SentEvents(ready, t, c) == SentEvents(s, t, c);
    s' := PlaysSending(cfg, ready, t, c, LockOf(s.calls, c.provider));
    PlaysOn(cfg, s, t, [CallStep(StartCall(c))] + APPROACH + LOCKING, ready, SENDING, s');
  }
}
