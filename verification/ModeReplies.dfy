/**
  What a mode request is answered with, in every interleaving of `Protocol`: why
  one is refused, and that one past its judgement is written
  (core/automation/mode_manager.cpp, `set_mode`, with the guards of
  core/runtime/actuation_gate.cpp).
 */
module ModeReplies {
  import opened Modes
  import opened Protocol
  import opened ProtocolSafety

  // ---- One step of a run ------------------------------------------------------------

  /** A thread with a request under way moves it only by a mode action, and only mode actions touch the mode. */
  lemma RequestMovesByModeAction(cfg: Config, s: State, t: Tid, a: Action)
    requires Enabled(s, t, a) && !a.ModeStep?
    ensures Fire(cfg, s, t, a).m == s.m
    ensures s.Task(t).Changing? ==> Fire(cfg, s, t, a).Task(t) == s.Task(t)
    ensures Fire(cfg, s, t, a).Task(t).Changing? && !s.Task(t).Changing? ==> Fire(cfg, s, t, a).Task(t).pc.Opening?
  {
    match a
    case StopStep(p) => StopAsksOnly(cfg, s, t, p);
    case RestartStep(r) => RestartAsksOnly(cfg, s, t, r);
    case CallStep(c) => CallFrame(s, t, c);
  }

  /** What can happen to thread `t`'s request in one step: nothing, or one of its own mode actions. */
  ghost predicate ModeStepOf(cfg: Config, s: State, s': State, t: Tid) {
    exists a: ModeAction :: ModeEnabled(s, t, a) && s' == ModeFire(cfg, s, t, a)
  }

  lemma StepCases(cfg: Config, s: State, s': State, t: Tid)
    requires Next(cfg, s, s') && (s.Task(t).Changing? || (s'.Task(t).Changing? && !s'.Task(t).pc.Opening?))
    ensures s'.Task(t) == s.Task(t) || ModeStepOf(cfg, s, s', t)
  {
    var u: Tid, a: Action :| Enabled(s, u, a) && s' == Fire(cfg, s, u, a);
    StepOfThread(cfg, s, u, a);
    OthersStay(s, u, s');
    if u == t && !a.ModeStep? {
      RequestMovesByModeAction(cfg, s, t, a);
    } else if u == t {
      assert ModeEnabled(s, t, a.mode);
    }
  }

  lemma RunStepCases(cfg: Config, run: seq<State>, n: nat, t: Tid)
    requires IsRun(cfg, run) && 0 < n < |run|
    requires run[n - 1].Task(t).Changing? || (run[n].Task(t).Changing? && !run[n].Task(t).pc.Opening?)
    ensures run[n].Task(t) == run[n - 1].Task(t) || ModeStepOf(cfg, run[n - 1], run[n], t)
  {
    var s, s' := run[n - 1], run[n];
    assert StepsTo(cfg, run, n);
    StepCases(cfg, s, s', t);
  }

  // ---- The life of a request ----------------------------------------------------------

  predicate SameRequest(task: Task, task': Task) {
    task.Changing? && task'.Changing? && task'.next == task.next && task'.origin == task.origin
    && task'.since == task.since
  }

  /** The step from state k is the first lock section of `t`'s request, and lets it through. */
  ghost predicate OpenedAt(run: seq<State>, k: nat, t: Tid) {
    && k + 1 < |run| && run[k].Task(t).Changing? && run[k].Task(t).pc.Opening?
    && run[k + 1].Task(t) == run[k].Task(t).(pc := Before(run[k].m.mode))
  }

  /** And up to state n that request is still under way. */
  ghost predicate UnderWay(run: seq<State>, k: nat, n: nat, t: Tid)
    requires k < n < |run|
  {
    forall j :: k < j <= n ==> SameRequest(run[k].Task(t), run[j].Task(t)) && !run[j].Task(t).pc.Opening?
  }

  predicate BeforeJudgement(task: Task) {
    task.Changing? && (task.pc.Before? || task.pc.Arriving? || task.pc.Judging?)
  }

  /** A request that was let through was legal from the mode it remembers. */
  predicate OpeningIsLegal(task: Task) {
    BeforeJudgement(task) ==> task.pc.previous != task.next && IsValidTransition(task.pc.previous, task.next)
  }

  /** Before its judgement a request remembers the mode it was opened in. */
  lemma {:induction false} OpeningOf(cfg: Config, run: seq<State>, n: nat, t: Tid) returns (k: nat)
    requires IsRun(cfg, run) && n < |run| && BeforeJudgement(run[n].Task(t))
    ensures k < n && OpenedAt(run, k, t) && UnderWay(run, k, n, t) && run[k].m.mode == run[n].Task(t).pc.previous
    ensures OpeningIsLegal(run[n].Task(t))
  {
    assert n != 0;
    RunStepCases(cfg, run, n, t);
    StepBeforeJudgement(cfg, run[n - 1], run[n], t);
    if run[n - 1].Task(t).pc.Opening? {
      k := n - 1;
    } else {
      k := OpeningOf(cfg, run, n - 1, t);
    }
  }

  lemma StepBeforeJudgement(cfg: Config, s: State, s': State, t: Tid)
    requires (s'.Task(t) == s.Task(t) || ModeStepOf(cfg, s, s', t)) && BeforeJudgement(s'.Task(t))
    ensures SameRequest(s.Task(t), s'.Task(t))
    ensures if s.Task(t).pc.Opening? then s'.Task(t) == s.Task(t).(pc := Before(s.m.mode)) && OpeningIsLegal(s'.Task(t))
            else BeforeJudgement(s.Task(t)) && s.Task(t).pc.previous == s'.Task(t).pc.previous
  {
    if s'.Task(t) != s.Task(t) {
      var a: ModeAction :| ModeEnabled(s, t, a) && s' == ModeFire(cfg, s, t, a);
      assert a.Open? || a.CallbacksDone? || a.TakeLock?;
    }
  }

  // ---- Why a request is refused ------------------------------------------------------------

  /** The step to state n answers thread `t`'s request. */
  ghost predicate AnsweredAt(run: seq<State>, n: nat, t: Tid, ok: bool) {
    && 0 < n < |run| && run[n - 1].Task(t).Changing?
    && var s, task := run[n - 1], run[n - 1].Task(t);
       run[n].m.replies == s.m.replies + [Reply(task.next, ok, task.since, |s.m.changes|)] && run[n].Task(t).Free?
  }

  /** Neither end of the edge is MANUAL, in the mode the request is opened in. */
  predicate IllegalWhenOpened(s: State, task: Task) {
    task.Changing? && task.pc.Opening? && s.m.mode != task.next && s.m.mode != Manual && task.next != Manual
  }

  ghost predicate VetoedBy(cfg: Config, s: State, s': State, t: Tid) {
    ModeEnabled(s, t, Veto) && s' == ModeFire(cfg, s, t, Veto)
  }

  /** Judged in another mode than it was opened in, so some change was committed in between. */
  ghost predicate OvertakenFrom(run: seq<State>, k: nat, n: nat, t: Tid) {
    && k < n < |run| && OpenedAt(run, k, t) && UnderWay(run, k, n, t)
    && run[n].Task(t).pc.Judging? && run[n].m.mode != run[k].m.mode
    && |run[k].m.changes| < |run[n].m.changes|
  }

  ghost predicate Overtaken(run: seq<State>, n: nat, t: Tid) { exists k :: OvertakenFrom(run, k, n, t) }

  /** Asked for AUTO and found the inventory refused, or the latch engaged. */
  predicate AutoBarred(cfg: Config, s: State, task: Task) {
    task.Changing? && task.next == Auto
    && ((task.pc.GateGuard? && cfg.refuses(s.gate.registry)) || (task.pc.LatchGuard? && s.stop.latched))
  }

  ghost predicate HasCause(cfg: Config, run: seq<State>, n: nat, t: Tid)
    requires 0 < n < |run|
  {
    || IllegalWhenOpened(run[n - 1], run[n - 1].Task(t))
    || VetoedBy(cfg, run[n - 1], run[n], t)
    || Overtaken(run, n - 1, t)
    || AutoBarred(cfg, run[n - 1], run[n - 1].Task(t))
  }

  lemma {:induction false} ChangesGrow(cfg: Config, run: seq<State>, k: nat, n: nat)
    requires IsRun(cfg, run) && k <= n < |run|
    ensures run[k].m.changes <= run[n].m.changes
    decreases n - k
  {
    if k < n {
      ChangesGrow(cfg, run, k, n - 1);
      assert StepsTo(cfg, run, n);
      NextGrows(cfg, run[n - 1], run[n]);
    }
  }

  lemma NextGrows(cfg: Config, s: State, s': State)
    requires Next(cfg, s, s')
    ensures s.m.changes <= s'.m.changes && s.m.replies <= s'.m.replies
  {
    var t: Tid, a: Action :| Enabled(s, t, a) && s' == Fire(cfg, s, t, a);
    if !a.ModeStep? {
      RequestMovesByModeAction(cfg, s, t, a);
    }
  }

  /** A different mode means a change in between. */
  lemma DifferentModeWasCommitted(cfg: Config, run: seq<State>, k: nat, n: nat)
    requires IsRun(cfg, run) && k <= n < |run| && run[k].m.mode != run[n].m.mode
    ensures |run[k].m.changes| < |run[n].m.changes|
  {
    ChangesGrow(cfg, run, k, n);
    ModeHistoryIsLegal(cfg, run, k);
    ModeHistoryIsLegal(cfg, run, n);
  }

  /** What one mode action answers a request for a mode other than FAULT. */
  predicate Refusable(cfg: Config, s: State, task: Task) {
    || IllegalWhenOpened(s, task)
    || (task.Changing? && task.pc.Judging? && s.m.mode != task.pc.previous)
    || AutoBarred(cfg, s, task)
  }

  lemma AnswerCases(cfg: Config, s: State, s': State, t: Tid, ok: bool)
    requires ModeStepOf(cfg, s, s', t) && LocalOk(t, s.Task(t), s.Call(t))
    requires OpeningIsLegal(s.Task(t))
    requires s.Task(t).Changing? && s.Task(t).next != Fault && |s'.m.replies| > |s.m.replies|
    requires s'.m.replies[|s.m.replies|].ok == ok
    ensures !ok <==> VetoedBy(cfg, s, s', t) || Refusable(cfg, s, s.Task(t))
  {
    var a: ModeAction :| ModeEnabled(s, t, a) && s' == ModeFire(cfg, s, t, a);
    assert a.Open? || a.Veto? || a.JudgeIt? || a.CheckGate? || a.CheckLatch? || a.Finish?;
  }

  lemma CausesAgree(cfg: Config, run: seq<State>, n: nat, t: Tid)
    requires IsRun(cfg, run) && 0 < n < |run|
    ensures HasCause(cfg, run, n, t) <==>
              VetoedBy(cfg, run[n - 1], run[n], t) || Refusable(cfg, run[n - 1], run[n - 1].Task(t))
    ensures OpeningIsLegal(run[n - 1].Task(t))
  {
    var s, task := run[n - 1], run[n - 1].Task(t);
    if BeforeJudgement(task) {
      var k := OpeningOf(cfg, run, n - 1, t);
      if task.pc.Judging? && s.m.mode != task.pc.previous {
        DifferentModeWasCommitted(cfg, run, k, n - 1);
        assert OvertakenFrom(run, k, n - 1, t);
      }
    }
    if Overtaken(run, n - 1, t) {
      var k :| OvertakenFrom(run, k, n - 1, t);
      RemembersOpening(cfg, run, k, n - 1, t);
    }
  }

  /** The remembered mode is that of this very opening. */
  lemma {:induction false} RemembersOpening(cfg: Config, run: seq<State>, k: nat, n: nat, t: Tid)
    requires IsRun(cfg, run) && k < n < |run| && OpenedAt(run, k, t) && UnderWay(run, k, n, t)
    requires BeforeJudgement(run[n].Task(t))
    ensures run[n].Task(t).pc.previous == run[k].m.mode
    decreases n - k
  {
    if k + 1 < n {
      RunStepCases(cfg, run, n, t);
      StepBeforeJudgement(cfg, run[n - 1], run[n], t);
      RemembersOpening(cfg, run, k, n - 1, t);
    }
  }

  lemma RunIsLocallyOk(cfg: Config, run: seq<State>, n: nat, t: Tid)
    requires IsRun(cfg, run) && n < |run|
    ensures LocalOk(t, run[n].Task(t), run[n].Call(t))
  {
    RunsKeepInv(cfg, run, n);
  }

  /**
    In every interleaving, a request for a mode other than FAULT is refused exactly
    when its edge was illegal as it was opened, a callback vetoed it, it was judged
    in another mode than it was opened in, or it asked for AUTO and found the
    inventory refused or the latch engaged.
   */
  lemma RefusedExactlyForCause(cfg: Config, run: seq<State>, n: nat, t: Tid, ok: bool)
    requires IsRun(cfg, run) && AnsweredAt(run, n, t, ok) && run[n - 1].Task(t).next != Fault
    ensures !ok <==> HasCause(cfg, run, n, t)
  {
    CausesAgree(cfg, run, n, t);
    RunStepCases(cfg, run, n, t);
    RunIsLocallyOk(cfg, run, n - 1, t);
    AnswerCases(cfg, run[n - 1], run[n], t, ok);
  }

  /** Every reply is the answer to some thread's request. */
  ghost predicate RepliedAt(run: seq<State>, m: nat, t: Tid, i: nat, reply: Reply) {
    && 0 < m < |run| && |run[m - 1].m.replies| == i && AnsweredAt(run, m, t, reply.ok)
    && run[m].m.replies[i] == reply
  }

  lemma StepAnswers(cfg: Config, run: seq<State>, n: nat) returns (t: Tid)
    requires IsRun(cfg, run) && 0 < n < |run| && |run[n].m.replies| > |run[n - 1].m.replies|
    ensures RepliedAt(run, n, t, |run[n - 1].m.replies|, run[n].m.replies[|run[n - 1].m.replies|])
    ensures |run[n].m.replies| == |run[n - 1].m.replies| + 1
  {
    var s, s' := run[n - 1], run[n];
    assert StepsTo(cfg, run, n);
    var u: Tid, a: Action :| Enabled(s, u, a) && s' == Fire(cfg, s, u, a);
    if !a.ModeStep? {
      RequestMovesByModeAction(cfg, s, u, a);
    }
    assert a.ModeStep?;
    t := u;
    AnswersItsRequest(cfg, s, t, a.mode);
  }

  lemma AnswersItsRequest(cfg: Config, s: State, t: Tid, a: ModeAction)
    requires ModeEnabled(s, t, a) && |ModeFire(cfg, s, t, a).m.replies| > |s.m.replies|
    ensures var s', task := ModeFire(cfg, s, t, a), s.Task(t);
            && task.Changing? && s'.Task(t).Free? && |s'.m.replies| == |s.m.replies| + 1
            && s'.m.replies ==
               s.m.replies + [Reply(task.next, s'.m.replies[|s.m.replies|].ok, task.since, |s.m.changes|)]
  {
  }

  lemma {:induction false} ReplyWasAnswered(cfg: Config, run: seq<State>, n: nat, i: nat) returns (m: nat, t: Tid)
    requires IsRun(cfg, run) && n < |run| && i < |run[n].m.replies|
    ensures m <= n && RepliedAt(run, m, t, i, run[n].m.replies[i])
  {
    assert n != 0;
    assert StepsTo(cfg, run, n);
    NextGrows(cfg, run[n - 1], run[n]);
    if i < |run[n - 1].m.replies| {
      m, t := ReplyWasAnswered(cfg, run, n - 1, i);
    } else {
      t := StepAnswers(cfg, run, n);
      m := n;
    }
  }

  /** So every refusal on record, in every run, has such a cause, and no FAULT request is among them. */
  lemma RefusalsHaveCause(cfg: Config, run: seq<State>, n: nat, i: nat)
    requires IsRun(cfg, run) && n < |run| && i < |run[n].m.replies| && !run[n].m.replies[i].ok
    ensures run[n].m.replies[i].next != Fault
    ensures exists m: nat, t: Tid ::
              0 < m <= n && RepliedAt(run, m, t, i, run[n].m.replies[i]) && HasCause(cfg, run, m, t)
  {
    var m, t := ReplyWasAnswered(cfg, run, n, i);
    RunsKeepInv(cfg, run, n);
    assert ReplyOk(run[n].m.changes, run[n].m.replies[i]);
    RefusedExactlyForCause(cfg, run, m, t, false);
  }

  // ---- Past its judgement a request is written -------------------------------------------------

  predicate PastJudgement(task: Task) {
    task.Changing? && (task.pc.GateGuard? || task.pc.LatchGuard? || task.pc.Writing?)
  }

  /** The step to state k writes the change. */
  ghost predicate WrittenAt(run: seq<State>, k: nat, t: Tid, change: Change) {
    && 0 < k < |run| && run[k].m.changes == run[k - 1].m.changes + [change] && run[k].m.mode == change.to
    && run[k].Task(t).Changing? && run[k].Task(t).pc == Notifying(change.from)
  }

  lemma StepPastJudgement(cfg: Config, s: State, s': State, t: Tid)
    requires s'.Task(t) == s.Task(t) || ModeStepOf(cfg, s, s', t)
    requires PastJudgement(s.Task(t)) && s.Task(t).next != Auto
    ensures var task, task' := s.Task(t), s'.Task(t);
            || (PastJudgement(task') && SameRequest(task, task') && task'.pc.previous == task.pc.previous)
            || (&& s'.m.changes == s.m.changes + [Change(task.pc.previous, task.next)] && s'.m.mode == task.next
                && task' == task.(pc := Notifying(task.pc.previous)))
  {
  }

  /**
    A request for a mode other than AUTO, once past its judgement, is never
    refused: it is still under the lock, or its change has been written.
   */
  lemma {:induction false} PastJudgementIsWritten(cfg: Config, run: seq<State>, m: nat, n: nat, t: Tid)
    requires IsRun(cfg, run) && m <= n < |run| && PastJudgement(run[m].Task(t)) && run[m].Task(t).next != Auto
    ensures var task := run[m].Task(t);
            || (PastJudgement(run[n].Task(t)) && SameRequest(task, run[n].Task(t))
                && run[n].Task(t).pc.previous == task.pc.previous)
            || exists k :: m < k <= n && WrittenAt(run, k, t, Change(task.pc.previous, task.next))
    decreases n - m
  {
    if m < n {
      PastJudgementIsWritten(cfg, run, m, n - 1, t);
      if PastJudgement(run[n - 1].Task(t)) && SameRequest(run[m].Task(t), run[n - 1].Task(t))
         && run[n - 1].Task(t).pc.previous == run[m].Task(t).pc.previous {
        RunStepCases(cfg, run, n, t);
        StepPastJudgement(cfg, run[n - 1], run[n], t);
        if !PastJudgement(run[n].Task(t)) {
          assert WrittenAt(run, n, t, Change(run[m].Task(t).pc.previous, run[m].Task(t).next));
        }
      }
    }
  }
}
