/**
  The runtime mode machine of core/automation/mode_manager.cpp.

  `set_mode` takes its lock twice, with the before-callbacks run unlocked in
  between. `Admit` is what the first lock section decides, `Judge` what the
  second decides ahead of its commit guards. The class has one method per
  section; `Protocol` interleaves the sections of many requests.
 */
module Modes {
  import opened Options

  datatype Mode = Manual | Auto | Idle | Fault

  predicate IsValidTransition(from: Mode, to: Mode) {
    if from == to then true
    else if to == Fault then true
    else if from == Fault then to == Manual
    else if from == Manual then to == Auto || to == Idle
    else to == Manual
  }

  /** A change to another mode is legal exactly when it is to FAULT or MANUAL is one of its ends. */
  lemma LegalExactlyThroughManual(from: Mode, to: Mode)
    requires from != to
    ensures IsValidTransition(from, to) <==> to == Fault || from == Manual || to == Manual
  {
  }

  /** The names modes go by in configuration, and back. */
  function NameOf(mode: Mode): string {
    match mode
    case Manual => "MANUAL"
    case Auto => "AUTO"
    case Idle => "IDLE"
    case Fault => "FAULT"
  }

  function ParseMode(name: string): Option<Mode> {
    if name == "MANUAL" then Some(Manual)
    else if name == "AUTO" then Some(Auto)
    else if name == "IDLE" then Some(Idle)
    else if name == "FAULT" then Some(Fault)
    else None
  }

  lemma NamesRoundTrip(mode: Mode, name: string)
    ensures ParseMode(NameOf(mode)) == Some(mode)
    ensures ParseMode(name) == Some(mode) <==> name == NameOf(mode)
  {
    assert "MANUAL"[0] != "AUTO"[0] && "MANUAL"[0] != "IDLE"[0] && "MANUAL"[0] != "FAULT"[0];
    assert "AUTO"[0] != "IDLE"[0] && "AUTO"[0] != "FAULT"[0] && "IDLE"[0] != "FAULT"[0];
  }

  /** The first lock section: a no-op, an illegal request, or go on from `previous`. */
  datatype Admission = NoChange | Illegal | Proceed(previous: Mode)

  function Admit(current: Mode, next: Mode): Admission {
    if current == next then NoChange
    else if !IsValidTransition(current, next) then Illegal
    else Proceed(current)
  }

  /** The second lock section, ahead of the guards. */
  datatype Judgement = Refuse | AlreadyFault | Commit(previous: Mode)

  function Judge(current: Mode, previous: Mode, next: Mode): Judgement {
    if current != previous then
      if next == Fault then
        if current == Fault then AlreadyFault else Commit(current)
      else Refuse
    else if !IsValidTransition(current, next) then Refuse
    else Commit(previous)
  }

  /** One committed change, with the previous mode as the after-callbacks are told it. */
  datatype Change = Change(from: Mode, to: Mode)

  /** The mode after `changes`, starting from `start`. */
  function ModeAfter(start: Mode, changes: seq<Change>): Mode {
    if changes == [] then start else changes[|changes| - 1].to
  }

  /** A connected path of legal edges: each change starts where the one before it ended. */
  ghost predicate IsPath(start: Mode, changes: seq<Change>) {
    forall i :: 0 <= i < |changes| ==>
      && changes[i].from == ModeAfter(start, changes[..i])
      && changes[i].from != changes[i].to
      && IsValidTransition(changes[i].from, changes[i].to)
  }

  lemma PathExtends(start: Mode, changes: seq<Change>, next: Mode)
    requires IsPath(start, changes)
    requires ModeAfter(start, changes) != next
    requires IsValidTransition(ModeAfter(start, changes), next)
    ensures IsPath(start, changes + [Change(ModeAfter(start, changes), next)])
    ensures ModeAfter(start, changes + [Change(ModeAfter(start, changes), next)]) == next
  {
    var longer := changes + [Change(ModeAfter(start, changes), next)];
    forall i | 0 <= i < |longer|
      ensures longer[i].from == ModeAfter(start, longer[..i])
    {
      assert i < |changes| ==> longer[..i] == changes[..i];
      assert i == |changes| ==> longer[..i] == changes;
    }
  }

  /** Every route from FAULT to AUTO passes through MANUAL, strictly in between. */
  lemma FaultReachesAutoOnlyThroughManual(start: Mode, changes: seq<Change>, i: nat, j: nat)
    requires IsPath(start, changes)
    requires i < j <= |changes|
    requires ModeAfter(start, changes[..i]) == Fault
    requires ModeAfter(start, changes[..j]) == Auto
    ensures exists k :: i < k < j && ModeAfter(start, changes[..k]) == Manual
  {
    assert changes[..j][j - 1] == changes[j - 1];
    assert changes[j - 1].from == Manual;
    assert i != j - 1;
    assert i < j - 1 < j && ModeAfter(start, changes[..j - 1]) == Manual;
  }

  /** What a callback or guard did: allowed, rejected, or threw. */
  datatype Response = Allow | Reject | Throw

  datatype Answer = Answer(ok: bool, committed: bool, previous: Mode)

  class ModeManager {
    const start: Mode
    var current: Mode
    ghost var changes: seq<Change>

    ghost predicate Valid()
      reads this
    {
      IsPath(start, changes) && current == ModeAfter(start, changes)
    }

    constructor (initial: Mode)
      ensures Valid() && current == initial && changes == []
    {
      start, current, changes := initial, initial, [];
    }

    method OpenRequest(next: Mode) returns (admission: Admission)
      ensures admission == Admit(current, next)
      ensures next == Fault ==> admission != Illegal
    {
      if current == next {
        return NoChange;
      }
      if !IsValidTransition(current, next) {
        return Illegal;
      }
      return Proceed(current);
    }

    /** The unlocked phase. Only a non-FAULT request can be vetoed, by rejection or exception. */
    method RunBeforeCallbacks(next: Mode, replies: seq<Response>) returns (vetoed: bool)
      ensures vetoed <==> next != Fault && exists i :: 0 <= i < |replies| && replies[i] != Allow
    {
      for i := 0 to |replies|
        invariant next == Fault || forall k :: 0 <= k < i ==> replies[k] == Allow
      {
        match replies[i]
        case Allow =>
        case Reject =>
          if next == Fault {
            continue;
          }
          return true;
        case Throw =>
          if next == Fault {
            continue;
          }
          return true;
      }
      return false;
    }

    /**
      The second lock section, guards included. Whatever mode another request
      left behind, the reported previous mode is the one actually replaced, a
      FAULT request ends in FAULT, and any other commit is legal, from the mode
      its callbacks ran against, with every guard allowing it.
     */
    method CommitRequest(previous: Mode, next: Mode, guards: seq<Response>) returns (answer: Answer)
      requires Valid()
      requires previous != next
      modifies this
      ensures Valid()
      ensures answer.committed ==>
        && answer.ok
        && answer.previous == old(current)
        && changes == old(changes) + [Change(old(current), next)]
        && current == next
      ensures !answer.committed ==> changes == old(changes) && current == old(current)
      ensures next == Fault ==> answer.ok && current == Fault
      ensures next != Fault ==>
        (answer.ok <==>
           && old(current) == previous
           && IsValidTransition(previous, next)
           && forall i :: 0 <= i < |guards| ==> guards[i] == Allow)
      ensures next != Fault ==> (answer.ok <==> answer.committed)
    {
      var from := previous;
      if current != previous {
        if next == Fault {
          if current == Fault {
            return Answer(true, false, current);
          }
          from := current;
        } else {
          return Answer(false, false, current);
        }
      }
      if !IsValidTransition(current, next) {
        return Answer(false, false, current);
      }
      if next != Fault {
        for i := 0 to |guards|
          invariant forall k :: 0 <= k < i ==> guards[k] == Allow
        {
          if guards[i] != Allow {
            return Answer(false, false, current);
          }
        }
      }
      PathExtends(start, changes, next);
      changes := changes + [Change(from, next)];
      current := next;
      return Answer(true, true, from);
    }
  }
}
