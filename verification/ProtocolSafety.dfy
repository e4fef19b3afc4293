/**
  Inductive invariants of `Protocol`, and what they say about every run.

  Each invariant is kept by a step through a small "move" relation that
  mentions only the moving thread and the lock owners: one lemma per kind of
  action shows the action is such a move, and one lemma shows such moves keep
  the invariant.
 */
module ProtocolSafety {
  import opened Options
  import opened Modes
  import opened Registry
  import opened ActuationGate
  import opened Protocol
  import SafeState
  import opened StopChain

  // ---- Locks -------------------------------------------------------------------

  predicate HasModeLock(task: Task) {
    task.Changing? && (task.pc.Judging? || task.pc.GateGuard? || task.pc.LatchGuard? || task.pc.Writing?)
  }

  /** A trigger that has engaged the latch, up to the end of its ladder. */
  predicate Engaged(task: Task) { task.Planning? || task.Laddering? }

  predicate HasController(task: Task) {
    || task.Engaging? || task.Planning? || task.Laddering? || task.Holding? || task.HoldReleasing?
    || task.ClearJudging? || task.ClearStoring? || task.ClearReleasing?
    || (task.Changing? && task.origin.FromTrigger?)
  }

  predicate InCallbacks(task: Task) { task.Changing? && (task.pc.Before? || task.pc.Notifying?) }

  /** What holds of one thread on its own. */
  predicate LocalOk(t: Tid, task: Task, call: CallPc) {
    && (task.Changing? && !task.origin.Operator? ==> task.next == Fault)
    && (task.Changing? && (task.pc.Before? || task.pc.Arriving? || task.pc.Judging?) ==> task.pc.previous != task.next)
    && (task.Updated? || task.HoldWaiting? || task.Holding? ==> t == MAIN)
    && (!call.NoCall? ==> (task.Free? || task.Laddering? || InCallbacks(task))
                          && (call.c.ofStop ==> task.Laddering? && call.c.safeState)
                          && (call.c.faultHook ==> InCallbacks(task) && task.next == Fault))
  }

  /** Mutual exclusion on the mode lock and the controller's mutex. */
  ghost predicate LocksInv(s: State) {
    && (forall t: Tid :: HasModeLock(s.Task(t)) <==> s.m.lock == Some(t))
    && (forall t: Tid :: HasController(s.Task(t)) <==> s.stop.ctl == Some(t))
    && (forall t: Tid :: LocalOk(t, s.Task(t), s.Call(t)))
  }

  /** Ownership moves only by taking a free lock or giving up one's own. */
  predicate LockMove(had: bool, has: bool, before: Option<Tid>, after: Option<Tid>, t: Tid) {
    || (had == has && after == before)
    || (!had && has && before == None && after == Some(t))
    || (had && !has && after == None)
  }

  /** Only `t`'s own entries change. */
  predicate OnlyMoves(s: State, t: Tid, s': State) {
    && (s'.tasks == s.tasks || s'.tasks == s.tasks[t := s'.Task(t)])
    && (s'.calls.pcs == s.calls.pcs || s'.calls.pcs == s.calls.pcs[t := s'.Call(t)])
  }

  lemma OthersStay(s: State, t: Tid, s': State)
    requires OnlyMoves(s, t, s')
    ensures forall u: Tid :: u != t ==> s'.Task(u) == s.Task(u) && s'.Call(u) == s.Call(u)
  {
  }

  predicate LockMoves(s: State, t: Tid, s': State) {
    && OnlyMoves(s, t, s')
    && LockMove(HasModeLock(s.Task(t)), HasModeLock(s'.Task(t)), s.m.lock, s'.m.lock, t)
    && LockMove(HasController(s.Task(t)), HasController(s'.Task(t)), s.stop.ctl, s'.stop.ctl, t)
  }

  predicate LocalMove(s: State, t: Tid, s': State) {
    LocalOk(t, s.Task(t), s.Call(t)) ==> LocalOk(t, s'.Task(t), s'.Call(t))
  }

  lemma MovesKeepLocks(s: State, t: Tid, s': State)
    requires LocksInv(s) && LockMoves(s, t, s') && LocalMove(s, t, s')
    ensures LocksInv(s')
  {
    OthersStay(s, t, s');
  }

  /** Up to the second lock section. */
  predicate IsEarly(a: ModeAction) { a.Request? || a.Open? || a.Veto? || a.CallbacksDone? || a.TakeLock? }

  lemma EarlyLockMoves(cfg: Config, s: State, t: Tid, a: ModeAction)
    requires ModeEnabled(s, t, a) && IsEarly(a)
    ensures LockMoves(s, t, ModeFire(cfg, s, t, a))
  {
  }

  lemma GuardLockMoves(cfg: Config, s: State, t: Tid, a: ModeAction)
    requires ModeEnabled(s, t, a) && (a.JudgeIt? || a.CheckGate? || a.CheckLatch?)
    ensures LockMoves(s, t, ModeFire(cfg, s, t, a))
  {
  }

  lemma CommitLockMoves(cfg: Config, s: State, t: Tid, a: ModeAction)
    requires ModeEnabled(s, t, a) && (a.Write? || a.Finish?)
    ensures LockMoves(s, t, ModeFire(cfg, s, t, a))
  {
  }

  lemma ModeLockMoves(cfg: Config, s: State, t: Tid, a: ModeAction)
    requires ModeEnabled(s, t, a)
    ensures LockMoves(s, t, ModeFire(cfg, s, t, a))
  {
    if IsEarly(a) {
      EarlyLockMoves(cfg, s, t, a);
    } else if a.Write? || a.Finish? {
      CommitLockMoves(cfg, s, t, a);
    } else {
      GuardLockMoves(cfg, s, t, a);
    }
  }

  lemma ModeLocalMove(cfg: Config, s: State, t: Tid, a: ModeAction)
    requires ModeEnabled(s, t, a)
    ensures LocalMove(s, t, ModeFire(cfg, s, t, a))
  {
  }

  predicate IsTrigger(a: StopAction) { a.Press? || a.Engage? || a.PlanLadder? || a.LadderDone? }

  lemma TriggerLockMoves(cfg: Config, s: State, t: Tid, a: StopAction)
    requires StopEnabled(s, t, a) && IsTrigger(a)
    ensures LockMoves(s, t, StopFire(cfg, s, t, a))
  {
  }

  lemma HoldLockMoves(cfg: Config, s: State, t: Tid, a: StopAction)
    requires StopEnabled(s, t, a) && !IsTrigger(a)
    ensures LockMoves(s, t, StopFire(cfg, s, t, a))
  {
  }

  lemma StopLockMoves(cfg: Config, s: State, t: Tid, a: StopAction)
    requires StopEnabled(s, t, a)
    ensures LockMoves(s, t, StopFire(cfg, s, t, a))
  {
    if IsTrigger(a) {
      TriggerLockMoves(cfg, s, t, a);
    } else {
      HoldLockMoves(cfg, s, t, a);
    }
  }

  lemma StopLocalMove(cfg: Config, s: State, t: Tid, a: StopAction)
    requires StopEnabled(s, t, a)
    ensures LocalMove(s, t, StopFire(cfg, s, t, a))
  {
  }

  lemma RestartLockMoves(cfg: Config, s: State, t: Tid, a: RestartAction)
    requires RestartEnabled(s, t, a)
    ensures LockMoves(s, t, RestartFire(cfg, s, t, a))
  {
  }

  lemma RestartLocalMove(cfg: Config, s: State, t: Tid, a: RestartAction)
    requires RestartEnabled(s, t, a)
    ensures LocalMove(s, t, RestartFire(cfg, s, t, a))
  {
  }

  /** A call step leaves mode, latch, gate, status and tasks alone. */
  lemma CallFrame(s: State, t: Tid, a: CallAction)
    requires CallEnabled(s, t, a)
    ensures var s' := CallFire(s, t, a);
            s'.m == s.m && s'.stop == s.stop && s'.gate == s.gate && s'.chain == s.chain && s'.tasks == s.tasks
  {
  }

  /** Up to the provider's lock. */
  predicate IsApproach(a: CallAction) { a.StartCall? || a.CheckFirst? || a.Enroll? || a.Acquire? }

  lemma ApproachOnlyMoves(s: State, t: Tid, a: CallAction)
    requires CallEnabled(s, t, a) && IsApproach(a)
    ensures OnlyMoves(s, t, CallFire(s, t, a))
  {
  }

  lemma DispatchOnlyMoves(s: State, t: Tid, a: CallAction)
    requires CallEnabled(s, t, a) && !IsApproach(a)
    ensures OnlyMoves(s, t, CallFire(s, t, a))
  {
  }

  lemma CallOnlyMoves(s: State, t: Tid, a: CallAction)
    requires CallEnabled(s, t, a)
    ensures OnlyMoves(s, t, CallFire(s, t, a))
  {
    if IsApproach(a) {
      ApproachOnlyMoves(s, t, a);
    } else {
      DispatchOnlyMoves(s, t, a);
    }
  }

  lemma StillLocks(s: State, t: Tid, s': State)
    requires OnlyMoves(s, t, s') && s'.m == s.m && s'.stop == s.stop && s'.tasks == s.tasks
    ensures LockMoves(s, t, s')
  {
  }

  lemma CallLockMoves(s: State, t: Tid, a: CallAction)
    requires CallEnabled(s, t, a)
    ensures LockMoves(s, t, CallFire(s, t, a))
  {
    CallFrame(s, t, a);
    CallOnlyMoves(s, t, a);
    StillLocks(s, t, CallFire(s, t, a));
  }

  lemma CallLocalMove(s: State, t: Tid, a: CallAction)
    requires CallEnabled(s, t, a)
    ensures LocalMove(s, t, CallFire(s, t, a))
  {
  }

  /** What the lock owners' invariant says of the moving thread. */
  predicate OwnsWhatItHolds(s: State, t: Tid) {
    && (HasModeLock(s.Task(t)) ==> s.m.lock == Some(t))
    && (HasController(s.Task(t)) ==> s.stop.ctl == Some(t))
  }

  // ---- AUTO and the stop latch ---------------------------------------------------

  /** A stop whose latch write is done and whose FAULT request is still outstanding. */
  predicate PendingStop(task: Task) {
    || task.Planning? || task.Laddering? || task.HoldReleasing?
    || (task.Changing? && task.next == Fault && !task.pc.Notifying?
        && (task.origin.FromTrigger? || task.origin.FromHold?))
  }

  /** AUTO is current, or past both guards and about to be written. */
  predicate AutoNear(s: State) {
    || s.m.mode == Auto
    || (s.m.lock.Some? && var task := s.Task(s.m.lock.value); task.Changing? && task.next == Auto && task.pc.Writing?)
  }

  predicate LatchInv(s: State) {
    AutoNear(s) && s.stop.latched ==> s.stop.engagedBy.Some? && PendingStop(s.Task(s.stop.engagedBy.value))
  }

  predicate LatchMove(s: State, t: Tid, s': State) {
    && (s'.stop.latched ==>
          || (s.stop.latched && s'.stop.engagedBy == s.stop.engagedBy)
          || (s'.stop.engagedBy == Some(t) && PendingStop(s'.Task(t))))
    && (s.stop.latched && AutoNear(s') ==> AutoNear(s))
    && (PendingStop(s.Task(t)) && AutoNear(s') ==> PendingStop(s'.Task(t)))
  }

  lemma MoveKeepsLatch(s: State, t: Tid, s': State)
    requires LatchInv(s) && OnlyMoves(s, t, s') && LatchMove(s, t, s')
    ensures LatchInv(s')
  {
    OthersStay(s, t, s');
  }

  lemma ModeLatchMove(cfg: Config, s: State, t: Tid, a: ModeAction)
    requires ModeEnabled(s, t, a) && OwnsWhatItHolds(s, t)
    ensures LatchMove(s, t, ModeFire(cfg, s, t, a))
  {
  }

  lemma StopLatchMove(cfg: Config, s: State, t: Tid, a: StopAction)
    requires StopEnabled(s, t, a) && OwnsWhatItHolds(s, t)
    ensures LatchMove(s, t, StopFire(cfg, s, t, a))
  {
  }

  lemma RestartLatchMove(cfg: Config, s: State, t: Tid, a: RestartAction)
    requires RestartEnabled(s, t, a) && OwnsWhatItHolds(s, t)
    ensures LatchMove(s, t, RestartFire(cfg, s, t, a))
  {
  }

  // ---- AUTO and the hookless gate --------------------------------------------------

  /** A restart that has published its inventory and whose re-check, or the FAULT it led to, is outstanding. */
  predicate PendingRecheck(task: Task) {
    || task.Rechecking? || task.Evaluating?
    || (task.Changing? && task.next == Fault && task.origin.FromRestart? && !task.pc.Notifying?)
  }

  /** AUTO is current, or past the gate's guard under the mode lock. */
  predicate AutoPassed(s: State) {
    || s.m.mode == Auto
    || (s.m.lock.Some? && var task := s.Task(s.m.lock.value);
        task.Changing? && task.next == Auto && (task.pc.LatchGuard? || task.pc.Writing?))
  }

  predicate GateInv(cfg: Config, s: State) {
    AutoPassed(s) && cfg.refuses(s.gate.registry) ==>
      s.gate.refusedBy.Some? && PendingRecheck(s.Task(s.gate.refusedBy.value))
  }

  predicate GateMove(cfg: Config, s: State, t: Tid, s': State) {
    && (cfg.refuses(s'.gate.registry) ==>
          || (cfg.refuses(s.gate.registry) && s'.gate.refusedBy == s.gate.refusedBy)
          || (s'.gate.refusedBy == Some(t) && PendingRecheck(s'.Task(t))))
    && (cfg.refuses(s.gate.registry) && AutoPassed(s') ==> AutoPassed(s))
    && (PendingRecheck(s.Task(t)) && AutoPassed(s') && cfg.refuses(s'.gate.registry) ==> PendingRecheck(s'.Task(t)))
  }

  lemma MoveKeepsGate(cfg: Config, s: State, t: Tid, s': State)
    requires GateInv(cfg, s) && OnlyMoves(s, t, s') && GateMove(cfg, s, t, s')
    ensures GateInv(cfg, s')
  {
    OthersStay(s, t, s');
  }

  lemma ModeGateMove(cfg: Config, s: State, t: Tid, a: ModeAction)
    requires ModeEnabled(s, t, a) && OwnsWhatItHolds(s, t)
    ensures GateMove(cfg, s, t, ModeFire(cfg, s, t, a))
  {
  }

  /** A stop's step leaves the mode and the inventory alone, on a thread that is at neither. */
  lemma StopFrame(cfg: Config, s: State, t: Tid, a: StopAction)
    requires StopEnabled(s, t, a)
    ensures var s' := StopFire(cfg, s, t, a); s'.m == s.m && s'.gate == s.gate && OnlyMoves(s, t, s')
    ensures !s.Task(t).Changing? && !PendingRecheck(s.Task(t))
  {
  }

  lemma StopGateMove(cfg: Config, s: State, t: Tid, a: StopAction)
    requires StopEnabled(s, t, a) && OwnsWhatItHolds(s, t)
    ensures GateMove(cfg, s, t, StopFire(cfg, s, t, a))
  {
    StopFrame(cfg, s, t, a);
    OthersStay(s, t, StopFire(cfg, s, t, a));
  }

  lemma RestartGateMove(cfg: Config, s: State, t: Tid, a: RestartAction)
    requires RestartEnabled(s, t, a) && OwnsWhatItHolds(s, t)
    ensures GateMove(cfg, s, t, RestartFire(cfg, s, t, a))
  {
  }

  // ---- The observed emergency stop ---------------------------------------------------

  /** The main loop is between the status update and the latch write of its hold. */
  predicate HoldDue(s: State) {
    var task := s.Task(MAIN);
    task.Updated? || task.HoldWaiting? || task.Holding?
  }

  /** The stop holds and the latch is open, or a clear that already passed its guard is about to open it. */
  predicate Exposed(s: State) {
    ChainHolds(s.chain) && (!s.stop.latched || (s.stop.ctl.Some? && s.Task(s.stop.ctl.value).ClearStoring?))
  }

  predicate ChainInv(s: State) { Exposed(s) ==> HoldDue(s) }

  predicate ChainMove(s: State, t: Tid, s': State) {
    && (Exposed(s') ==> Exposed(s) || (t == MAIN && HoldDue(s')))
    && (t == MAIN && HoldDue(s) && Exposed(s') ==> HoldDue(s'))
  }

  lemma MoveKeepsChain(s: State, t: Tid, s': State)
    requires ChainInv(s) && OnlyMoves(s, t, s') && ChainMove(s, t, s')
    ensures ChainInv(s')
  {
    OthersStay(s, t, s');
  }

  lemma ModeChainMove(cfg: Config, s: State, t: Tid, a: ModeAction)
    requires ModeEnabled(s, t, a) && OwnsWhatItHolds(s, t)
    ensures ChainMove(s, t, ModeFire(cfg, s, t, a))
  {
  }

  lemma StopChainMove(cfg: Config, s: State, t: Tid, a: StopAction)
    requires StopEnabled(s, t, a) && OwnsWhatItHolds(s, t)
    ensures ChainMove(s, t, StopFire(cfg, s, t, a))
  {
  }

  lemma RestartChainMove(cfg: Config, s: State, t: Tid, a: RestartAction)
    requires RestartEnabled(s, t, a) && OwnsWhatItHolds(s, t)
    ensures ChainMove(s, t, RestartFire(cfg, s, t, a))
  {
  }

  // ---- The history of the mode -----------------------------------------------------

  /** Past `Judge`, a request's previous mode is the current one and the change is legal. */
  predicate CommitOk(mode: Mode, task: Task) {
    task.Changing? && (task.pc.GateGuard? || task.pc.LatchGuard? || task.pc.Writing?) ==>
      task.pc.previous == mode && mode != task.next && IsValidTransition(mode, task.next)
  }

  ghost predicate HistoryInv(s: State) {
    && IsPath(START, s.m.changes)
    && s.m.mode == ModeAfter(START, s.m.changes)
    && (s.m.lock.Some? ==> CommitOk(s.m.mode, s.Task(s.m.lock.value)))
  }

  /** The mode changes only by the lock owner's write of the change it was about to make. */
  predicate HistoryMove(s: State, t: Tid, s': State) {
    || (s'.m.changes == s.m.changes && s'.m.mode == s.m.mode
        && (s'.m.lock.None? || s'.m.lock == s.m.lock || s'.m.lock == Some(t))
        && (s'.m.lock == Some(t) ==> CommitOk(s'.m.mode, s'.Task(t))))
    || (s.m.lock == Some(t) && s'.m.lock.None? && s.Task(t).Changing? && s.Task(t).pc.Writing?
        && s'.m.mode == s.Task(t).next
        && s'.m.changes == s.m.changes + [Change(s.Task(t).pc.previous, s.Task(t).next)])
  }

  lemma MoveKeepsHistory(s: State, t: Tid, s': State)
    requires HistoryInv(s) && OnlyMoves(s, t, s') && HistoryMove(s, t, s')
    ensures HistoryInv(s')
  {
    OthersStay(s, t, s');
    if s'.m.changes != s.m.changes {
      PathExtends(START, s.m.changes, s.Task(t).next);
    }
  }

  lemma ModeHistoryMove(cfg: Config, s: State, t: Tid, a: ModeAction)
    requires ModeEnabled(s, t, a) && OwnsWhatItHolds(s, t) && LocalOk(t, s.Task(t), s.Call(t))
    requires s.m.lock == Some(t) ==> CommitOk(s.m.mode, s.Task(t))
    ensures HistoryMove(s, t, ModeFire(cfg, s, t, a))
  {
  }

  // ---- Answered requests -----------------------------------------------------------------

  /** The mode was `mode` at some instant from `since` changes to `until` changes. */
  ghost predicate Seen(changes: seq<Change>, mode: Mode, since: nat, until: nat) {
    exists k :: since <= k <= until <= |changes| && ModeAfter(START, changes[..k]) == mode
  }

  lemma StaysSeen(changes: seq<Change>, mode: Mode, change: Change, since: nat, until: nat)
    requires Seen(changes, mode, since, until)
    ensures forall later :: until <= later <= |changes| + 1 ==> Seen(changes + [change], mode, since, later)
  {
    var k :| since <= k <= until <= |changes| && ModeAfter(START, changes[..k]) == mode;
    assert (changes + [change])[..k] == changes[..k];
  }

  /** A request made no later than now; one that committed has seen its mode. */
  ghost predicate RequestOk(changes: seq<Change>, task: Task) {
    task.Changing? ==>
      task.since <= |changes| && (task.pc.Notifying? ==> Seen(changes, task.next, task.since, |changes|))
  }

  ghost predicate ReplyOk(changes: seq<Change>, reply: Reply) {
    && reply.since <= reply.until <= |changes|
    && (reply.next == Fault ==> reply.ok)
    && (reply.ok ==> Seen(changes, reply.next, reply.since, reply.until))
  }

  ghost predicate RepliesInv(s: State) {
    && (forall t: Tid :: RequestOk(s.m.changes, s.Task(t)))
    && (forall i :: 0 <= i < |s.m.replies| ==> ReplyOk(s.m.changes, s.m.replies[i]))
  }

  /** A request still under way keeps its start; one that returns is answered from the present instant. */
  predicate ReplyMove(s: State, t: Tid, s': State) {
    var task, task' := s.Task(t), s'.Task(t);
    && (s'.m.changes == s.m.changes
        || (task.Changing? && task.pc.Writing? && s'.m.mode == task.next
            && task' == task.(pc := Notifying(task.pc.previous))
            && s'.m.changes == s.m.changes + [Change(task.pc.previous, task.next)] && s'.m.replies == s.m.replies))
    && (s'.m.replies == s.m.replies
        || (task.Changing? && !task'.Changing? && s'.m.changes == s.m.changes
            && exists ok :: s'.m.replies == s.m.replies + [Reply(task.next, ok, task.since, |s.m.changes|)]
                            && (task.next == Fault ==> ok)
                            && (ok ==> s.m.mode == task.next || task.pc.Notifying?)))
    && (task'.Changing? && s'.m.changes == s.m.changes ==>
          || (task'.since == |s.m.changes| && task'.pc.Opening?)
          || (task.Changing? && task'.since == task.since && task'.next == task.next
              && (task'.pc.Notifying? ==> task.pc.Notifying?)))
  }

  lemma CommitKeepsReplies(s: State, t: Tid, s': State, change: Change)
    requires RepliesInv(s) && HistoryInv(s') && OnlyMoves(s, t, s') && s'.m.replies == s.m.replies
    requires s'.m.changes == s.m.changes + [change]
    requires s'.Task(t).Changing? && s'.Task(t).since <= |s.m.changes| && s'.Task(t).next == s'.m.mode
    ensures RepliesInv(s')
  {
    OthersStay(s, t, s');
    var before, after := s.m.changes, s'.m.changes;
    forall u: Tid
      ensures RequestOk(after, s'.Task(u))
    {
      var task := s.Task(u);
      assert RequestOk(before, task);
      if u == t {
        assert after[..|after|] == after;
      } else if task.Changing? && task.pc.Notifying? {
        StaysSeen(before, task.next, change, task.since, |before|);
      }
    }
    forall i | 0 <= i < |s'.m.replies|
      ensures ReplyOk(after, s'.m.replies[i])
    {
      var reply := s.m.replies[i];
      assert ReplyOk(before, reply);
      if reply.ok {
        StaysSeen(before, reply.next, change, reply.since, reply.until);
      }
    }
  }

  lemma MoveKeepsReplies(s: State, t: Tid, s': State)
    requires HistoryInv(s) && HistoryInv(s') && RepliesInv(s) && OnlyMoves(s, t, s') && ReplyMove(s, t, s')
    ensures RepliesInv(s')
  {
    OthersStay(s, t, s');
    assert RequestOk(s.m.changes, s.Task(t));
    if s'.m.changes != s.m.changes {
      CommitKeepsReplies(s, t, s', Change(s.Task(t).pc.previous, s.Task(t).next));
    } else {
      assert s.m.changes[..|s.m.changes|] == s.m.changes;
    }
  }

  lemma ModeReplyMove(cfg: Config, s: State, t: Tid, a: ModeAction)
    requires ModeEnabled(s, t, a)
    ensures ReplyMove(s, t, ModeFire(cfg, s, t, a))
  {
    var s' := ModeFire(cfg, s, t, a);
    if s'.m.replies != s.m.replies {
      var ok := s'.m.replies[|s.m.replies|].ok;
      assert s'.m.replies == s.m.replies + [Reply(s.Task(t).next, ok, s.Task(t).since, |s.m.changes|)];
    }
  }

  /** Stops and restarts never write the mode; they only ask for it. */
  predicate AsksOnly(s: State, t: Tid, s': State) {
    && s'.m == s.m
    && (s'.Task(t).Changing? ==> s'.Task(t).pc.Opening? && s'.Task(t).since == |s.m.changes|)
    && !s.Task(t).Changing?
  }

  lemma StopAsksOnly(cfg: Config, s: State, t: Tid, a: StopAction)
    requires StopEnabled(s, t, a)
    ensures AsksOnly(s, t, StopFire(cfg, s, t, a))
  {
  }

  lemma RestartAsksOnly(cfg: Config, s: State, t: Tid, a: RestartAction)
    requires RestartEnabled(s, t, a)
    ensures AsksOnly(s, t, RestartFire(cfg, s, t, a))
  {
  }

  // ---- The call path ----------------------------------------------------------------------

  predicate HasProviderLock(call: CallPc) { call.Confirming? || call.Ready? || call.Sending? }

  /** An actuating call the latch would refuse were it engaged. */
  predicate IsHeldKind(c: Call) { !c.safeState && IsActuating(c.spec) }

  /** Let through the engaged latch: a FAULT-entry hook on the admitted thread. */
  predicate Exempt(s: State, t: Tid, c: Call) { c.faultHook && s.stop.admitted == Some(t) }

  /**
    One thread's call: it owns the lock it is inside, that lock is its
    provider's, and past the re-check it is not a held kind on a provider a
    stop's ladder has called, unless exempt.
   */
  predicate CallOk(s: State, t: Tid) { LockOk(s.calls, s.Call(t), t) && ReadyOk(s, t) }

  predicate LockOk(calls: CallPart, call: CallPc, t: Tid) {
    && (HasProviderLock(call) ==> call.lock in calls.held && calls.held[call.lock] == t)
    && (HasProviderLock(call) || call.Waiting? ==>
          call.c.provider in calls.table && calls.table[call.c.provider] == call.lock)
  }

  predicate ReadyOk(s: State, t: Tid) {
    var call := s.Call(t);
    call.Ready? && IsHeldKind(call.c) && call.c.provider in s.calls.driven ==> Exempt(s, t, call.c)
  }

  ghost predicate CallsInv(s: State) {
    && (forall t: Tid :: CallOk(s, t))
    && (s.calls.driven != {} ==> s.stop.latched)
    && (forall t: Tid :: Engaged(s.Task(t)) ==> s.stop.latched)
    && (s.stop.admitted.Some? ==> InRunglessStop(s.Task(s.stop.admitted.value)))
  }

  /** A step outside the call path, other than the clear's write. */
  predicate CallsQuiet(s: State, t: Tid, s': State) {
    && s'.calls == s.calls
    && (s.stop.latched ==> s'.stop.latched)
    && (Engaged(s'.Task(t)) ==> s'.stop.latched || Engaged(s.Task(t)))
    && (s'.stop.admitted == s.stop.admitted || (HasController(s.Task(t)) && s.Call(t).NoCall?))
    && (s'.stop.admitted == s.stop.admitted || s'.stop.admitted == None || s'.stop.admitted == Some(t))
    && (s'.stop.admitted == Some(t) && InRunglessStop(s.Task(t)) ==> InRunglessStop(s'.Task(t)))
    && (s'.stop.admitted == Some(t) && s.stop.admitted != Some(t) ==> InRunglessStop(s'.Task(t)))
  }

  lemma QuietKeepsCalls(s: State, t: Tid, s': State)
    requires LocksInv(s) && CallsInv(s) && OnlyMoves(s, t, s') && CallsQuiet(s, t, s')
    ensures CallsInv(s')
  {
    OthersStay(s, t, s');
    forall u: Tid
      ensures CallOk(s', u)
    {
      assert CallOk(s, u);
      if u != t && s.stop.admitted == Some(u) {
        assert HasController(s.Task(u));
      }
    }
  }

  lemma ModeCallsQuiet(cfg: Config, s: State, t: Tid, a: ModeAction)
    requires ModeEnabled(s, t, a) && LocalOk(t, s.Task(t), s.Call(t))
    ensures CallsQuiet(s, t, ModeFire(cfg, s, t, a))
  {
  }

  lemma StopCallsQuiet(cfg: Config, s: State, t: Tid, a: StopAction)
    requires StopEnabled(s, t, a) && LocalOk(t, s.Task(t), s.Call(t)) && !a.StoreClear?
    ensures CallsQuiet(s, t, StopFire(cfg, s, t, a))
  {
  }

  lemma RestartCallsQuiet(cfg: Config, s: State, t: Tid, a: RestartAction)
    requires RestartEnabled(s, t, a) && LocalOk(t, s.Task(t), s.Call(t))
    ensures CallsQuiet(s, t, RestartFire(cfg, s, t, a))
  {
  }

  lemma ClearKeepsCalls(cfg: Config, s: State, t: Tid)
    requires LocksInv(s) && CallsInv(s) && s.Task(t).ClearStoring?
    ensures CallsInv(StopFire(cfg, s, t, StoreClear))
  {
    var s' := StopFire(cfg, s, t, StoreClear);
    OthersStay(s, t, s');
    forall u: Tid
      ensures CallOk(s', u) && !Engaged(s'.Task(u))
    {
      assert CallOk(s, u);
      assert HasController(s.Task(t));
      assert u != t && Engaged(s.Task(u)) ==> HasController(s.Task(u));
    }
  }

  lemma CallKeepsOthersLock(s: State, t: Tid, a: CallAction, u: Tid)
    requires LockOk(s.calls, s.Call(t), t) && LockOk(s.calls, s.Call(u), u) && CallEnabled(s, t, a) && u != t
    ensures CallFire(s, t, a).Call(u) == s.Call(u) && LockOk(CallFire(s, t, a).calls, s.Call(u), u)
  {
  }

  /** Only sending drives a provider, and its lock keeps every other call to it out of `Ready`. */
  lemma CallKeepsOthersReady(s: State, t: Tid, a: CallAction, u: Tid)
    requires CallOk(s, t) && CallOk(s, u) && CallEnabled(s, t, a) && u != t
    ensures ReadyOk(CallFire(s, t, a), u)
  {
    var s' := CallFire(s, t, a);
    assert s'.Call(u) == s.Call(u) && s'.stop == s.stop;
    if a.Send? {
      assert s'.calls.driven <= s.calls.driven + {s.Call(t).c.provider};
    } else {
      assert s'.calls.driven == s.calls.driven;
    }
  }

  /** The other threads' calls, through any action of a call. */
  lemma CallKeepsOthers(s: State, t: Tid, a: CallAction, u: Tid)
    requires CallsInv(s) && CallEnabled(s, t, a) && u != t
    ensures CallOk(CallFire(s, t, a), u)
  {
    assert CallOk(s, t) && CallOk(s, u);
    CallKeepsOthersLock(s, t, a, u);
    CallKeepsOthersReady(s, t, a, u);
  }

  lemma CallKeepsOwn(s: State, t: Tid, a: CallAction)
    requires LocksInv(s) && CallsInv(s) && CallEnabled(s, t, a)
    ensures CallOk(CallFire(s, t, a), t)
  {
    assert CallOk(s, t);
  }

  /** Only a ladder call adds a driven provider, and it does so inside its stop. */
  lemma OnlyStopsDrive(s: State, t: Tid, a: CallAction)
    requires CallEnabled(s, t, a) && LocalOk(t, s.Task(t), s.Call(t))
    ensures CallFire(s, t, a).calls.driven != s.calls.driven ==> s.Task(t).Laddering?
  {
  }

  lemma CallKeepsCalls(s: State, t: Tid, a: CallAction)
    requires LocksInv(s) && CallsInv(s) && CallEnabled(s, t, a)
    ensures CallsInv(CallFire(s, t, a))
  {
    CallFrame(s, t, a);
    assert forall u: Tid :: CallFire(s, t, a).Task(u) == s.Task(u);
    OnlyStopsDrive(s, t, a);
    CallKeepsOwn(s, t, a);
    forall u: Tid | u != t
      ensures CallOk(CallFire(s, t, a), u)
    {
      CallKeepsOthers(s, t, a, u);
    }
  }

  // ---- The history of calls ---------------------------------------------------------------------

  /** A stop's ladder has called the provider, and the latch has not been cleared since. */
  ghost predicate DrivenSince(events: seq<CallEvent>, provider: string) {
    exists i :: 0 <= i < |events| && events[i] == Driven(provider)
                && forall k :: i < k < |events| ==> events[k] != Released
  }

  /**
    Once a stop's ladder has made a call on a provider, every later actuating
    call on it that is not a safe-state call comes after a clear, or is a
    FAULT-entry hook on the thread of a stop that planned no rung.
   */
  ghost predicate NoActuationAfterLadder(events: seq<CallEvent>) {
    forall j :: 0 <= j < |events| && events[j].Actuated? && DrivenSince(events[..j], events[j].provider) ==>
      events[j].hook
  }

  ghost predicate EventsInv(s: State) {
    && NoActuationAfterLadder(s.calls.events)
    && (forall p :: DrivenSince(s.calls.events, p) ==> p in s.calls.driven)
  }

  lemma EventAppended(events: seq<CallEvent>, event: CallEvent)
    requires NoActuationAfterLadder(events)
    requires event.Actuated? && DrivenSince(events, event.provider) ==> event.hook
    ensures NoActuationAfterLadder(events + [event])
    ensures forall p :: DrivenSince(events + [event], p) ==>
              event == Driven(p) || (event != Released && DrivenSince(events, p))
  {
    var longer := events + [event];
    forall j | 0 <= j < |longer| && longer[j].Actuated? && DrivenSince(longer[..j], longer[j].provider)
      ensures longer[j].hook
    {
      if j < |events| {
        assert longer[..j] == events[..j];
        assert longer[j] == events[j];
      } else {
        assert longer[..j] == events;
      }
    }
    forall p | DrivenSince(longer, p)
      ensures event == Driven(p) || (event != Released && DrivenSince(events, p))
    {
      var i :| 0 <= i < |longer| && longer[i] == Driven(p) && forall k :: i < k < |longer| ==> longer[k] != Released;
      if i < |events| {
        assert longer[|events|] == event;
        assert events[i] == Driven(p);
        assert forall k :: i < k < |events| ==> events[k] == longer[k];
      }
    }
  }

  lemma SendKeepsEvents(s: State, t: Tid)
    requires CallsInv(s) && EventsInv(s) && s.Call(t).Ready?
    ensures EventsInv(CallFire(s, t, Send))
  {
    var c := s.Call(t).c;
    assert CallOk(s, t);
    if c.ofStop {
      EventAppended(s.calls.events, Driven(c.provider));
    } else if IsHeldKind(c) {
      var event := Actuated(c.provider, c.faultHook && InRunglessStop(s.Task(t)));
      EventAppended(s.calls.events, event);
    }
  }

  // ---- Every run ------------------------------------------------------------------------------------

  ghost predicate Inv(cfg: Config, s: State) {
    && LocksInv(s) && LatchInv(s) && GateInv(cfg, s) && ChainInv(s)
    && HistoryInv(s) && RepliesInv(s) && CallsInv(s) && EventsInv(s)
  }

  lemma ModeStepKeepsInv(cfg: Config, s: State, t: Tid, a: ModeAction)
    requires Inv(cfg, s) && ModeEnabled(s, t, a)
    ensures Inv(cfg, ModeFire(cfg, s, t, a))
  {
    var s' := ModeFire(cfg, s, t, a);
    ModeLockMoves(cfg, s, t, a);  ModeLocalMove(cfg, s, t, a);  MovesKeepLocks(s, t, s');
    ModeLatchMove(cfg, s, t, a);  MoveKeepsLatch(s, t, s');
    ModeGateMove(cfg, s, t, a);  MoveKeepsGate(cfg, s, t, s');
    ModeChainMove(cfg, s, t, a);  MoveKeepsChain(s, t, s');
    ModeHistoryMove(cfg, s, t, a);  MoveKeepsHistory(s, t, s');
    ModeReplyMove(cfg, s, t, a);  MoveKeepsReplies(s, t, s');
    ModeCallsQuiet(cfg, s, t, a);  QuietKeepsCalls(s, t, s');
  }

  lemma StopStepKeepsInv(cfg: Config, s: State, t: Tid, a: StopAction)
    requires Inv(cfg, s) && StopEnabled(s, t, a)
    ensures Inv(cfg, StopFire(cfg, s, t, a))
  {
    var s' := StopFire(cfg, s, t, a);
    StopLockMoves(cfg, s, t, a);  StopLocalMove(cfg, s, t, a);  MovesKeepLocks(s, t, s');
    StopLatchMove(cfg, s, t, a);  MoveKeepsLatch(s, t, s');
    StopGateMove(cfg, s, t, a);  MoveKeepsGate(cfg, s, t, s');
    StopChainMove(cfg, s, t, a);  MoveKeepsChain(s, t, s');
    StopAsksOnly(cfg, s, t, a);  MoveKeepsHistory(s, t, s');  MoveKeepsReplies(s, t, s');
    if a.StoreClear? {
      ClearKeepsCalls(cfg, s, t);
      EventAppended(s.calls.events, Released);
    } else {
      StopCallsQuiet(cfg, s, t, a);  QuietKeepsCalls(s, t, s');
    }
  }

  lemma RestartStepKeepsInv(cfg: Config, s: State, t: Tid, a: RestartAction)
    requires Inv(cfg, s) && RestartEnabled(s, t, a)
    ensures Inv(cfg, RestartFire(cfg, s, t, a))
  {
    var s' := RestartFire(cfg, s, t, a);
    RestartLockMoves(cfg, s, t, a);  RestartLocalMove(cfg, s, t, a);  MovesKeepLocks(s, t, s');
    RestartLatchMove(cfg, s, t, a);  MoveKeepsLatch(s, t, s');
    RestartGateMove(cfg, s, t, a);  MoveKeepsGate(cfg, s, t, s');
    RestartChainMove(cfg, s, t, a);  MoveKeepsChain(s, t, s');
    RestartAsksOnly(cfg, s, t, a);  MoveKeepsHistory(s, t, s');  MoveKeepsReplies(s, t, s');
    RestartCallsQuiet(cfg, s, t, a);  QuietKeepsCalls(s, t, s');
  }

  lemma CallStepKeepsInv(cfg: Config, s: State, t: Tid, a: CallAction)
    requires Inv(cfg, s) && CallEnabled(s, t, a)
    ensures Inv(cfg, CallFire(s, t, a))
  {
    var s' := CallFire(s, t, a);
    CallLockMoves(s, t, a);  CallLocalMove(s, t, a);  MovesKeepLocks(s, t, s');
    CallFrame(s, t, a);
    CallKeepsCalls(s, t, a);
    if a.Send? {
      SendKeepsEvents(s, t);
    } else {
      CallEventsQuiet(s, t, a);
    }
  }

  lemma CallEventsQuiet(s: State, t: Tid, a: CallAction)
    requires CallEnabled(s, t, a) && !a.Send?
    ensures CallFire(s, t, a).calls.events == s.calls.events && CallFire(s, t, a).calls.driven == s.calls.driven
  {
  }

  lemma StepKeepsInv(cfg: Config, s: State, t: Tid, a: Action)
    requires Inv(cfg, s) && Enabled(s, t, a)
    ensures Inv(cfg, Fire(cfg, s, t, a))
  {
    match a
    case ModeStep(m) => ModeStepKeepsInv(cfg, s, t, m);
    case StopStep(p) => StopStepKeepsInv(cfg, s, t, p);
    case RestartStep(r) => RestartStepKeepsInv(cfg, s, t, r);
    case CallStep(c) => CallStepKeepsInv(cfg, s, t, c);
  }

  lemma NextKeepsInv(cfg: Config, s: State, s': State)
    requires Inv(cfg, s) && Next(cfg, s, s')
    ensures Inv(cfg, s')
  {
    var t: Tid, a: Action :| Enabled(s, t, a) && s' == Fire(cfg, s, t, a);
    StepKeepsInv(cfg, s, t, a);
  }

  lemma InitHasInv(cfg: Config, s: State)
    requires Init(s)
    ensures Inv(cfg, s)
  {
  }

  lemma {:induction false} RunsKeepInv(cfg: Config, run: seq<State>, n: nat)
    requires IsRun(cfg, run) && n < |run|
    ensures Inv(cfg, run[n])
  {
    if n == 0 {
      InitHasInv(cfg, run[0]);
    } else {
      RunsKeepInv(cfg, run, n - 1);
      RunStepKeepsInv(cfg, run, n);
    }
  }

  lemma RunStepKeepsInv(cfg: Config, run: seq<State>, n: nat)
    requires IsRun(cfg, run) && 0 < n < |run| && Inv(cfg, run[n - 1])
    ensures Inv(cfg, run[n])
  {
    assert StepsTo(cfg, run, n);
    NextKeepsInv(cfg, run[n - 1], run[n]);
  }

  /**
    In every interleaving, AUTO coexists with an engaged latch only while the
    very stop that engaged it still has its FAULT request outstanding.
   */
  lemma AutoUnderLatchIsTransient(cfg: Config, run: seq<State>, n: nat)
    requires IsRun(cfg, run) && n < |run|
    requires run[n].m.mode == Auto && run[n].stop.latched
    ensures run[n].stop.engagedBy.Some? && PendingStop(run[n].Task(run[n].stop.engagedBy.value))
  {
    RunsKeepInv(cfg, run, n);
  }

  /**
    In every interleaving, AUTO coexists with an inventory the hookless gate
    refuses only while the restart that made it so still has its re-check, or
    the FAULT request that re-check leads to, outstanding.
   */
  lemma AutoUnderRefusedGateIsTransient(automation: AutomationConfig, safety: SafeState.SafetyConfig,
                                        run: seq<State>, n: nat)
    requires IsRun(Installed(automation, safety), run) && n < |run|
    requires run[n].m.mode == Auto && GateRefuses(automation, run[n].gate.registry)
    ensures run[n].gate.refusedBy.Some? && PendingRecheck(run[n].Task(run[n].gate.refusedBy.value))
  {
    RunsKeepInv(Installed(automation, safety), run, n);
  }

  /** With nothing under way, AUTO means an open latch and an accepted inventory, and a held stop a closed latch. */
  lemma QuietStatesAreSafe(cfg: Config, run: seq<State>, n: nat)
    requires IsRun(cfg, run) && n < |run|
    requires forall t: Tid :: run[n].Task(t).Free?
    ensures run[n].m.mode == Auto ==> !run[n].stop.latched && !cfg.refuses(run[n].gate.registry)
    ensures ChainHolds(run[n].chain) ==> run[n].stop.latched && run[n].m.mode != Auto
  {
    RunsKeepInv(cfg, run, n);
  }

  /**
    While the observed emergency stop is in force or unknown, the latch is
    engaged unless the main loop is between its update and its hold, however
    clears and triggers interleave.
   */
  lemma HeldStopKeepsLatch(cfg: Config, run: seq<State>, n: nat)
    requires IsRun(cfg, run) && n < |run|
    requires ChainHolds(run[n].chain) && !run[n].stop.latched
    ensures HoldDue(run[n])
  {
    RunsKeepInv(cfg, run, n);
  }

  /** The committed changes are a connected path of legal edges ending in the current mode. */
  lemma ModeHistoryIsLegal(cfg: Config, run: seq<State>, n: nat)
    requires IsRun(cfg, run) && n < |run|
    ensures IsPath(START, run[n].m.changes)
    ensures run[n].m.mode == ModeAfter(START, run[n].m.changes)
  {
    RunsKeepInv(cfg, run, n);
  }

  /** Every FAULT request succeeds, with the mode FAULT at some instant during the call. */
  lemma FaultRequestsSucceed(cfg: Config, run: seq<State>, n: nat, i: nat)
    requires IsRun(cfg, run) && n < |run|
    requires i < |run[n].m.replies| && run[n].m.replies[i].next == Fault
    ensures run[n].m.replies[i].ok
    ensures Seen(run[n].m.changes, Fault, run[n].m.replies[i].since, run[n].m.replies[i].until)
  {
    RunsKeepInv(cfg, run, n);
    assert ReplyOk(run[n].m.changes, run[n].m.replies[i]);
  }

  /** A request for any mode that is answered with success saw that mode at some instant during the call. */
  lemma SuccessWasSeen(cfg: Config, run: seq<State>, n: nat, i: nat)
    requires IsRun(cfg, run) && n < |run|
    requires i < |run[n].m.replies| && run[n].m.replies[i].ok
    ensures var reply := run[n].m.replies[i]; Seen(run[n].m.changes, reply.next, reply.since, reply.until)
  {
    RunsKeepInv(cfg, run, n);
    assert ReplyOk(run[n].m.changes, run[n].m.replies[i]);
  }

  /** No actuating call follows a stop's ladder call on a provider until the latch is cleared. */
  lemma LadderIsLastWord(cfg: Config, run: seq<State>, n: nat)
    requires IsRun(cfg, run) && n < |run|
    ensures NoActuationAfterLadder(run[n].calls.events)
  {
    RunsKeepInv(cfg, run, n);
  }

  // ---- A rungless stop's hooks pass the latch --------------------------------------------------

  ghost predicate HooksInv(s: State) {
    forall t: Tid :: InRunglessStop(s.Task(t)) ==> s.stop.admitted == Some(t)
  }

  predicate HooksMove(s: State, t: Tid, s': State) {
    && (InRunglessStop(s'.Task(t)) ==>
          s'.stop.admitted == Some(t) || (InRunglessStop(s.Task(t)) && s'.stop.admitted == s.stop.admitted))
    && (s'.stop.admitted == s.stop.admitted || HasController(s.Task(t)))
  }

  lemma MoveKeepsHooks(s: State, t: Tid, s': State)
    requires LocksInv(s) && HooksInv(s) && OnlyMoves(s, t, s') && HooksMove(s, t, s')
    ensures HooksInv(s')
  {
    OthersStay(s, t, s');
    forall u: Tid | InRunglessStop(s'.Task(u)) ensures s'.stop.admitted == Some(u) {
      if u != t {
        assert InRunglessStop(s.Task(u)) && HasController(s.Task(u));
      }
    }
  }

  lemma StepMovesHooks(cfg: Config, s: State, t: Tid, a: Action)
    requires Enabled(s, t, a)
    ensures HooksMove(s, t, Fire(cfg, s, t, a))
  {
    match a
    case ModeStep(m) => ModeMovesHooks(cfg, s, t, m);
    case StopStep(p) => StopMovesHooks(cfg, s, t, p);
    case RestartStep(_) =>
    case CallStep(c) => CallFrame(s, t, c);
  }

  lemma ModeMovesHooks(cfg: Config, s: State, t: Tid, a: ModeAction)
    requires ModeEnabled(s, t, a)
    ensures HooksMove(s, t, ModeFire(cfg, s, t, a))
  {
  }

  lemma StopMovesHooks(cfg: Config, s: State, t: Tid, a: StopAction)
    requires StopEnabled(s, t, a)
    ensures HooksMove(s, t, StopFire(cfg, s, t, a))
  {
  }

  /** A step is one thread's; every other thread's task and call are as they were. */
  lemma StepOfThread(cfg: Config, s: State, t: Tid, a: Action)
    requires Enabled(s, t, a)
    ensures OnlyMoves(s, t, Fire(cfg, s, t, a))
  {
    match a
    case ModeStep(m) => ModeLockMoves(cfg, s, t, m);
    case StopStep(p) => StopLockMoves(cfg, s, t, p);
    case RestartStep(r) => RestartLockMoves(cfg, s, t, r);
    case CallStep(c) => CallLockMoves(s, t, c);
  }

  lemma NextKeepsHooks(cfg: Config, s: State, s': State)
    requires LocksInv(s) && HooksInv(s) && Next(cfg, s, s')
    ensures HooksInv(s')
  {
    var t: Tid, a: Action :| Enabled(s, t, a) && s' == Fire(cfg, s, t, a);
    StepOfThread(cfg, s, t, a);
    StepMovesHooks(cfg, s, t, a);
    MoveKeepsHooks(s, t, s');
  }

  lemma RunsKeepLocks(cfg: Config, run: seq<State>, n: nat)
    requires IsRun(cfg, run) && n < |run|
    ensures LocksInv(run[n])
  {
    RunsKeepInv(cfg, run, n);
  }

  lemma RunStepKeepsHooks(cfg: Config, run: seq<State>, n: nat)
    requires IsRun(cfg, run) && 0 < n < |run| && HooksInv(run[n - 1])
    ensures HooksInv(run[n])
  {
    RunsKeepLocks(cfg, run, n - 1);
    assert StepsTo(cfg, run, n);
    NextKeepsHooks(cfg, run[n - 1], run[n]);
  }

  lemma {:induction false} RunsKeepHooks(cfg: Config, run: seq<State>, n: nat)
    requires IsRun(cfg, run) && n < |run|
    ensures HooksInv(run[n])
  {
    if n > 0 {
      RunsKeepHooks(cfg, run, n - 1);
      RunStepKeepsHooks(cfg, run, n);
    }
  }

  /** While a stop that planned no rung enters FAULT, the latch holds none of that entry's hooks; else it holds all. */
  lemma HooksPassExactlyInRunglessStop(cfg: Config, run: seq<State>, n: nat, t: Tid, c: Call)
    requires IsRun(cfg, run) && n < |run|
    requires run[n].stop.latched && c.faultHook && !c.safeState && IsActuating(c.spec)
    ensures LatchHolds(run[n], t, c) <==> !InRunglessStop(run[n].Task(t))
  {
    RunsKeepInv(cfg, run, n);
    RunsKeepHooks(cfg, run, n);
  }
}
