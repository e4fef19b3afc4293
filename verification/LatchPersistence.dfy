/**
  The stop latch on disk (core/control/latch_store.cpp) and in memory
  (core/control/safe_state.cpp, `trigger`, `hold`, `clear`,
  `attach_latch_store`), with a crash allowed between any two steps.

  Renames and removals reach storage when the directory is synced: until then a
  power loss leaves the file as it was after any of them. A directory the save
  itself created is on storage only once a reboot has found it there: nothing
  syncs its parent.
 */
module LatchPersistence {
  import opened Options

  /** The file: a latch record that may carry its time, or anything else. */
  datatype Content = LatchRecord(names: bool, at: Option<int>) | NotARecord

  /** `view` is what the running system sees; a power loss leaves one of `mayBe`. */
  datatype Disk = Disk(made: bool, rooted: bool, view: Option<Content>, mayBe: set<Option<Content>>)

  predicate ValidDisk(d: Disk) {
    d.view in d.mayBe && (!d.made ==> d == NO_DIRECTORY)
  }

  const NO_DIRECTORY := Disk(false, false, None, {None})

  // ---- LatchStore -----------------------------------------------------------------------------

  datatype Loaded = Absent | Latched(at: Option<int>) | Unreadable

  datatype LoadFate = LoadFate(checkable: bool, readable: bool)

  function Load(d: Disk, fate: LoadFate): Loaded {
    if !fate.checkable then Unreadable
    else if d.view.None? then Absent
    else if !fate.readable then Unreadable
    else
      match d.view.value
      case NotARecord => Unreadable
      case LatchRecord(names, at) => if names then Latched(at) else Unreadable
  }

  function WithDirectory(d: Disk): Disk { d.(made := true) }

  function WithFile(d: Disk, file: Option<Content>): Disk { d.(view := file, mayBe := d.mayBe + {file}) }

  function Synced(d: Disk): Disk { d.(mayBe := {d.view}) }

  /** Which steps of a save succeed. */
  datatype SaveFate = SaveFate(directory: bool, staged: bool, renamed: bool, synced: bool)

  function Saved(d: Disk, at: int, fate: SaveFate): Disk {
    if !fate.directory then d
    else
      var e := WithDirectory(d);
      if !fate.staged || !fate.renamed then e
      else
        var f := WithFile(e, Some(LatchRecord(true, Some(at))));
        if fate.synced then Synced(f) else f
  }

  predicate SaveOk(fate: SaveFate) { fate.directory && fate.staged && fate.renamed && fate.synced }

  datatype RemoveFate = RemoveFate(removable: bool, synced: bool)

  function Removed(d: Disk, fate: RemoveFate): Disk {
    if !fate.removable || d.view.None? then d
    else
      var e := WithFile(d, None);
      if fate.synced then Synced(e) else e
  }

  class LatchStore {
    var made: bool
    var rooted: bool
    var view: Option<Content>
    var mayBe: set<Option<Content>>

    function State(): Disk reads this { Disk(made, rooted, view, mayBe) }

    method Save(at: int, fate: SaveFate) returns (ok: bool)
      modifies this
      ensures State() == Saved(old(State()), at, fate) && ok == SaveOk(fate)
    {
      if !fate.directory {
        return false;
      }
      made := true;
      if !fate.staged {
        return false;
      }
      if !fate.renamed {
        return false;
      }
      view := Some(LatchRecord(true, Some(at)));
      mayBe := mayBe + {view};
      if !fate.synced {
        return false;
      }
      mayBe := {view};
      return true;
    }

    method Remove(fate: RemoveFate) returns (ok: bool)
      modifies this
      ensures State() == Removed(old(State()), fate)
      ensures ok <==> fate.removable && (old(view).None? || fate.synced)
    {
      if !fate.removable {
        return false;
      }
      if view.None? {
        return true;
      }
      view := None;
      mayBe := mayBe + {view};
      if !fate.synced {
        return false;
      }
      mayBe := {view};
      return true;
    }
  }

  // ---- SafeStateController's latch --------------------------------------------------------------

  datatype Latch = Latch(engaged: bool, at: Option<int>)

  const OPEN := Latch(false, None)

  /** `attach_latch_store`: any file but an absent one latches. */
  function Attached(l: Latch, loaded: Loaded, now: int): Latch {
    match loaded
    case Absent => l
    case Latched(at) => Latch(true, Some(if at.Some? then at.value else now))
    case Unreadable => Latch(true, Some(now))
  }

  /** A saved stop comes back with the time it was saved with; one whose record cannot be read, with the time found. */
  lemma SavedTimeComesBack(d: Disk, at: int, fate: SaveFate, load: LoadFate, now: int)
    requires fate.directory && fate.staged && fate.renamed
    ensures Attached(OPEN, Load(Saved(d, at, fate), load), now) ==
              Latch(true, Some(if load.checkable && load.readable then at else now))
  {
  }

  /** A removal that succeeds leaves nothing to come back to, now or after any power loss. */
  lemma RemovedStaysRemoved(d: Disk, load: LoadFate, now: int)
    requires ValidDisk(d) && load.checkable && (d.view.None? ==> d.mayBe == {None})
    ensures var e := Removed(d, RemoveFate(true, true));
            Attached(OPEN, Load(e, load), now) == OPEN && e.mayBe == {None}
  {
  }

  class SafeStateController {
    var engaged: bool
    var at: Option<int>
    const store: LatchStore?

    function State(): Latch reads this { Latch(engaged, at) }

    predicate Valid() reads this { engaged <==> at.Some? }

    /** Constructed, then given its store. */
    constructor (s: LatchStore?, fate: LoadFate, now: int)
      ensures Valid() && store == s
      ensures State() == if s == null then OPEN else Attached(OPEN, Load(s.State(), fate), now)
    {
      engaged, at, store := false, None, s;
      new;
      if s != null {
        var loaded := Load(s.State(), fate);
        if !loaded.Absent? {
          engaged := true;
          at := Some(if loaded.Latched? && loaded.at.Some? then loaded.at.value else now);
        }
      }
    }

    /** The locked part of `trigger`, up to the ladder. */
    method Trigger(now: int, fate: SaveFate)
      requires Valid()
      modifies this, if store == null then {} else {store}
      ensures Valid() && State() == Latch(true, Some(now))
      ensures store != null ==> store.State() == Saved(old(store.State()), now, fate)
    {
      engaged, at := true, Some(now);
      if store != null {
        var ok := store.Save(now, fate);
      }
    }

    /** An already held latch keeps its time and its file. */
    method Hold(now: int, fate: SaveFate)
      requires Valid()
      modifies this, if store == null then {} else {store}
      ensures Valid() && engaged
      ensures old(engaged) ==> State() == old(State()) && (store != null ==> store.State() == old(store.State()))
      ensures !old(engaged) ==>
                at == Some(now) && (store != null ==> store.State() == Saved(old(store.State()), now, fate))
    {
      if !engaged {
        engaged, at := true, Some(now);
        if store != null {
          var ok := store.Save(now, fate);
        }
      }
    }

    method Clear(refused: bool, fate: RemoveFate) returns (cleared: bool)
      requires Valid()
      modifies this, if store == null then {} else {store}
      ensures Valid() && cleared == !refused
      ensures refused ==> State() == old(State()) && (store != null ==> store.State() == old(store.State()))
      ensures cleared ==> State() == OPEN && (store != null ==> store.State() == Removed(old(store.State()), fate))
    {
      if refused {
        return false;
      }
      engaged, at := false, None;
      if store != null {
        var ok := store.Remove(fate);
      }
      return true;
    }
  }

  // ---- Every step, and a crash between any two ----------------------------------------------------

  /** How far the holder of the controller's mutex has got. */
  datatype Stage = Down | Idle | SaveBegun(at: int) | SaveStaged(at: int) | SaveRenamed | ClearBegun | ClearRemoved

  /** `kept`: a stop's save succeeded, and no clear has begun since. */
  datatype System = System(disk: Disk, latch: Latch, stage: Stage, kept: bool)

  datatype Action =
    | Stop(now: int, onlyHold: bool)
    | MakeDirectory(ok: bool)
    | RenameStaged(staged: bool, renamed: bool)
    | SyncSaved(ok: bool)
    | BeginClear
    | RemoveFile(ok: bool)
    | SyncRemoved(ok: bool)
    | Kill
    | PowerLoss(left: Option<Content>)
    | LoseDirectory
    | Start(fate: LoadFate, now: int)

  predicate Enabled(s: System, a: Action) {
    match a
    case Stop(_, _) => s.stage.Idle?
    case MakeDirectory(_) => s.stage.SaveBegun?
    case RenameStaged(_, _) => s.stage.SaveStaged?
    case SyncSaved(_) => s.stage.SaveRenamed?
    case BeginClear => s.stage.Idle?
    case RemoveFile(_) => s.stage.ClearBegun?
    case SyncRemoved(_) => s.stage.ClearRemoved?
    case Kill => true
    case PowerLoss(left) => left in s.disk.mayBe
    case LoseDirectory => s.disk.made && !s.disk.rooted
    case Start(_, _) => s.stage.Down?
  }

  /** Storage after a power loss is what the next boot sees. */
  function Rebooted(d: Disk, left: Option<Content>): Disk {
    if d.made then Disk(true, true, left, {left}) else NO_DIRECTORY
  }

  function Fire(s: System, a: Action): System
    requires Enabled(s, a)
  {
    match a
    case Stop(now, onlyHold) =>
      if onlyHold && s.latch.engaged then s else s.(latch := Latch(true, Some(now)), stage := SaveBegun(now))
    case MakeDirectory(ok) =>
      if ok then s.(disk := WithDirectory(s.disk), stage := SaveStaged(s.stage.at)) else s.(stage := Idle)
    case RenameStaged(staged, renamed) =>
      if staged && renamed then
        s.(disk := WithFile(s.disk, Some(LatchRecord(true, Some(s.stage.at)))), stage := SaveRenamed)
      else s.(stage := Idle)
    case SyncSaved(ok) => if ok then s.(disk := Synced(s.disk), stage := Idle, kept := true) else s.(stage := Idle)
    case BeginClear => s.(latch := OPEN, stage := ClearBegun, kept := false)
    case RemoveFile(ok) =>
      if ok && s.disk.view.Some? then s.(disk := WithFile(s.disk, None), stage := ClearRemoved) else s.(stage := Idle)
    case SyncRemoved(ok) => s.(disk := if ok then Synced(s.disk) else s.disk, stage := Idle)
    case Kill => s.(latch := OPEN, stage := Down)
    case PowerLoss(left) => s.(disk := Rebooted(s.disk, left), latch := OPEN, stage := Down)
    case LoseDirectory => s.(disk := NO_DIRECTORY, latch := OPEN, stage := Down, kept := false)
    case Start(fate, now) => s.(latch := Attached(OPEN, Load(s.disk, fate), now), stage := Idle)
  }

  ghost predicate Next(s: System, t: System) {
    exists a: Action :: Enabled(s, a) && t == Fire(s, a)
  }

  /** The first boot finds any directory or none, holding any file or none. */
  predicate Initial(s: System) {
    && s.latch == OPEN && s.stage.Down? && !s.kept
    && (s.disk == NO_DIRECTORY || s.disk == Disk(true, true, s.disk.view, {s.disk.view}))
  }

  ghost predicate IsRun(run: seq<System>) {
    && |run| > 0 && Initial(run[0])
    && forall i :: 0 < i < |run| ==> Next(run[i - 1], run[i])
  }

  predicate Inv(s: System) {
    && ValidDisk(s.disk)
    && (s.latch.engaged <==> s.latch.at.Some?)
    && (s.kept ==> s.disk.made && None !in s.disk.mayBe && !s.stage.ClearRemoved? && !s.stage.ClearBegun?)
    && (s.kept && s.stage.Idle? ==> s.latch.engaged)
    && (s.stage.SaveBegun? || s.stage.SaveStaged? || s.stage.SaveRenamed? ==> s.latch.engaged)
    && (s.stage.SaveStaged? || s.stage.SaveRenamed? ==> s.disk.made)
    && (s.stage.SaveRenamed? ==> s.disk.view.Some?)
  }

  lemma StepKeepsInv(s: System, a: Action)
    requires Inv(s) && Enabled(s, a)
    ensures Inv(Fire(s, a))
  {
    assert s.disk.view in s.disk.mayBe;
  }

  lemma {:induction false} RunsKeepInv(run: seq<System>, n: nat)
    requires IsRun(run) && n < |run|
    ensures Inv(run[n])
  {
    if n > 0 {
      RunsKeepInv(run, n - 1);
      var a: Action :| Enabled(run[n - 1], a) && run[n] == Fire(run[n - 1], a);
      StepKeepsInv(run[n - 1], a);
    }
  }

  // ---- Main results ------------------------------------------------------------------------------

  /** A crash: a kill, or a power loss of whichever kind. */
  predicate IsCrash(a: Action) { a.Kill? || a.PowerLoss? || a.LoseDirectory? }

  /** Crashing now, the next start comes back latched, however its load goes. */
  ghost predicate ComesBackLatched(s: System, crash: Action)
    requires Enabled(s, crash) && IsCrash(crash)
  {
    forall fate: LoadFate, now: int :: Fire(Fire(s, crash), Start(fate, now)).latch.engaged
  }

  ghost predicate SurvivesEveryCrash(s: System) {
    forall crash: Action :: IsCrash(crash) && Enabled(s, crash) ==> ComesBackLatched(s, crash)
  }

  /** In every reachable state the latch is engaged exactly when it has a time. */
  lemma LatchedExactlyWithTime(run: seq<System>, n: nat)
    requires IsRun(run) && n < |run|
    ensures run[n].latch.engaged <==> run[n].latch.at.Some?
  {
    RunsKeepInv(run, n);
  }

  /** A start comes back latched exactly when its check fails or a file is there, whatever the file says. */
  lemma AnyFileStartsLatched(s: System, fate: LoadFate, now: int)
    requires s.stage.Down?
    ensures Fire(s, Start(fate, now)).latch.engaged <==> !fate.checkable || s.disk.view.Some?
  {
  }

  /**
    With a save that succeeded and no clear begun since, every crash at every
    step comes back latched exactly when the directory itself was already on
    storage.
   */
  lemma KeptStopSurvivesExactlyWhenRooted(run: seq<System>, n: nat)
    requires IsRun(run) && n < |run| && run[n].kept
    ensures SurvivesEveryCrash(run[n]) <==> run[n].disk.rooted
  {
    RunsKeepInv(run, n);
    var s := run[n];
    if s.disk.rooted {
      forall crash: Action | IsCrash(crash) && Enabled(s, crash) ensures ComesBackLatched(s, crash) {
      }
    } else {
      var fate := LoadFate(true, true);
      assert !Fire(Fire(s, LoseDirectory), Start(fate, 0)).latch.engaged;
      assert Enabled(s, LoseDirectory) && !ComesBackLatched(s, LoseDirectory);
    }
  }

  /**
    The failing side is reached at the first stop with no directory there: every
    step of its save succeeds, and a crash that takes the directory comes back clear.
   */
  lemma FirstStopCanBeLost(now: int)
    ensures exists run: seq<System> :: IsRun(run) && |run| == 6 && run[5].kept && !SurvivesEveryCrash(run[5])
  {
    var file := Some(LatchRecord(true, Some(now)));
    var down := System(NO_DIRECTORY, OPEN, Down, false);
    var idle := down.(stage := Idle);
    var begun := idle.(latch := Latch(true, Some(now)), stage := SaveBegun(now));
    var made := begun.(disk := WithDirectory(NO_DIRECTORY), stage := SaveStaged(now));
    var renamed := made.(disk := WithFile(made.disk, file), stage := SaveRenamed);
    var kept := renamed.(disk := Synced(renamed.disk), stage := Idle, kept := true);
    assert Fire(down, Start(LoadFate(true, true), now)) == idle && Next(down, idle);
    assert Fire(idle, Stop(now, false)) == begun && Next(idle, begun);
    assert Fire(begun, MakeDirectory(true)) == made && Next(begun, made);
    assert Fire(made, RenameStaged(true, true)) == renamed && Next(made, renamed);
    assert Fire(renamed, SyncSaved(true)) == kept && Next(renamed, kept);
    var run := [down, idle, begun, made, renamed, kept];
    assert IsRun(run);
    KeptStopSurvivesExactlyWhenRooted(run, 5);
  }

  /** Rooted once, rooted for good. */
  lemma {:induction false} RootedForGood(run: seq<System>, m: nat, n: nat)
    requires IsRun(run) && m <= n < |run| && run[m].disk.rooted
    ensures run[n].disk.rooted
    decreases n - m
  {
    if m < n {
      RootedForGood(run, m, n - 1);
      RunsKeepInv(run, n - 1);
    }
  }

  /** A crash once a clear has begun, and before it removes the file, errs toward held; so does a removal that fails. */
  lemma UnfinishedClearErrsTowardHeld(s: System, fate: LoadFate, now: int)
    requires Inv(s) && s.stage.ClearBegun? && s.disk.view.Some?
    ensures Fire(Fire(s, Kill), Start(fate, now)).latch.engaged
    ensures Fire(Fire(Fire(s, RemoveFile(false)), Kill), Start(fate, now)).latch.engaged
    ensures None !in s.disk.mayBe ==>
              forall left :: left in s.disk.mayBe ==> Fire(Fire(s, PowerLoss(left)), Start(fate, now)).latch.engaged
  {
  }

  /** Nothing but a removal or a lost directory takes the file away. */
  lemma OnlyRemovalUnlatches(s: System, a: Action)
    requires Inv(s) && Enabled(s, a) && None !in s.disk.mayBe && None in Fire(s, a).disk.mayBe
    ensures a.RemoveFile? || a.LoseDirectory?
  {
  }

  /** The whole calls of the objects above are these steps, run to the end. */
  lemma StepsMakeCalls(s: System, now: int, save: SaveFate, remove: RemoveFate)
    requires Inv(s) && s.stage.Idle?
    ensures var begun := Fire(s, Stop(now, false));
            var made := Fire(begun, MakeDirectory(save.directory));
            var renamed := if made.stage.Idle? then made else Fire(made, RenameStaged(save.staged, save.renamed));
            var saved := if renamed.stage.Idle? then renamed else Fire(renamed, SyncSaved(save.synced));
            saved.stage.Idle? && saved.disk == Saved(s.disk, now, save) && (SaveOk(save) ==> saved.kept)
    ensures var removed := Fire(Fire(s, BeginClear), RemoveFile(remove.removable));
            var cleared := if removed.stage.Idle? then removed else Fire(removed, SyncRemoved(remove.synced));
            cleared.stage.Idle? && cleared.disk == Removed(s.disk, remove) && cleared.latch == OPEN
  {
  }
}
