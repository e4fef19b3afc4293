/**
  A file of the run journal across failed writes, failed syncs and power losses,
  and the index rebuilt from what is left (core/runs/run_journal.cpp,
  `append_record`, the same steps in `append_event_locked`, and `initialize`).

  A power loss cuts the file to any prefix no shorter than its last sync, and may
  take a file whose directory entry was never synced. All the journal's files are
  in one directory, so the append that creates any of them can sync it for all.
 */
module RunLogCrashes {
  import opened Options
  import opened Octets
  import opened RunLog

  /** The file: `synced` bytes of it are on storage, and `linked` says its directory entry is. */
  datatype Disk = Disk(present: bool, bytes: seq<Byte>, synced: nat, linked: bool)

  const NO_FILE := Disk(false, [], 0, false)

  /** What the file system does to one append. */
  datatype Fate = Fate(openable: bool, written: nat, synced: bool, linked: bool)

  predicate Written<R>(c: Codec<R>, d: Disk, r: R, fate: Fate) {
    fate.openable && fate.written >= |Payload(c, d.bytes, r)|
  }

  /** `append_record` returned true. */
  predicate Reported<R>(c: Codec<R>, d: Disk, r: R, fate: Fate) {
    Written(c, d, r, fate) && fate.synced && (d.present || fate.linked)
  }

  function Grown<R>(c: Codec<R>, d: Disk, r: R, fate: Fate): seq<Byte> {
    var payload := Payload(c, d.bytes, r);
    d.bytes + payload[..if fate.written < |payload| then fate.written else |payload|]
  }

  function Appended<R>(c: Codec<R>, d: Disk, r: R, fate: Fate): Disk {
    if !fate.openable then d
    else
      var bytes := Grown(c, d, r, fate);
      var synced := if Written(c, d, r, fate) && fate.synced then |bytes| else d.synced;
      Disk(true, bytes, synced, d.linked || (!d.present && Reported(c, d, r, fate)))
  }

  class RunLogFile {
    var present: bool
    var bytes: seq<Byte>
    var synced: nat
    var linked: bool

    function State(): Disk reads this { Disk(present, bytes, synced, linked) }

    constructor ()
      ensures State() == NO_FILE
    {
      present, bytes, synced, linked := false, [], 0, false;
    }

    method AppendRecord<R>(c: Codec<R>, r: R, fate: Fate) returns (ok: bool)
      modifies this
      ensures ok <==> Reported(c, old(State()), r, fate)
      ensures ok <==>
                && fate.openable && fate.synced && (old(present) || fate.linked)
                && fate.written >= |c.encode(r)| + 1 + if EndsLine(old(bytes)) then 0 else 1
      ensures State() == Appended(c, old(State()), r, fate)
    {
      var created := !present;
      var torn := bytes != [] && bytes[|bytes| - 1] != NEWLINE;
      if !fate.openable {
        return false;
      }
      present := true;
      var payload := (if torn then [NEWLINE] else []) + (c.encode(r) + [NEWLINE]);
      if fate.written < |payload| {
        bytes := bytes + payload[..fate.written];
        return false;
      }
      assert payload[..|payload|] == payload;
      bytes := bytes + payload;
      if !fate.synced {
        return false;
      }
      synced := |bytes|;
      if created {
        if !fate.linked {
          return false;
        }
        linked := true;
      }
      return true;
    }
  }

  // ---- Runs -----------------------------------------------------------------------------

  /**
    The disk, every append ever made, the indices of those that reported success,
    and how many appends had been made when the file was last lost whole.
   */
  datatype Log<R> = Log(disk: Disk, attempts: seq<R>, reported: set<nat>, lost: nat)

  function Start<R>(): Log<R> { Log(NO_FILE, [], {}, 0) }

  /** Reported since the last loss of the whole file. */
  function Owed<R>(s: Log<R>): set<nat> { set a | a in s.reported && a >= s.lost }

  function AppendStep<R>(c: Codec<R>, s: Log<R>, r: R, fate: Fate): Log<R> {
    s.(disk := Appended(c, s.disk, r, fate), attempts := s.attempts + [r],
       reported := s.reported + if Reported(c, s.disk, r, fate) then {|s.attempts|} else {})
  }

  predicate TakesFile(d: Disk, e: Disk) { d.present && !e.present }

  /** What a power loss can leave. */
  predicate Crashes(d: Disk, e: Disk) {
    if !d.present then e == d
    else
      || (!d.linked && e == NO_FILE)
      || (d.synced <= |e.bytes| && e.bytes <= d.bytes && e == Disk(true, e.bytes, |e.bytes|, true))
  }

  ghost predicate AppendsTo<R(!new)>(c: Codec<R>, s: Log<R>, t: Log<R>) {
    exists r: R, fate: Fate :: t == AppendStep(c, s, r, fate)
  }

  predicate CrashesTo<R(==)>(s: Log<R>, t: Log<R>) {
    && Crashes(s.disk, t.disk)
    && t == s.(disk := t.disk, lost := if TakesFile(s.disk, t.disk) then |s.attempts| else s.lost)
  }

  /** Another file's creating append synced the directory. */
  predicate SyncsDirectory<R(==)>(s: Log<R>, t: Log<R>) {
    t == s.(disk := if s.disk.present then s.disk.(linked := true) else s.disk)
  }

  ghost predicate Next<R(!new)>(c: Codec<R>, s: Log<R>, t: Log<R>) {
    AppendsTo(c, s, t) || SyncsDirectory(s, t) || CrashesTo(s, t)
  }

  /** Any appends, failed in any way or not, directory syncs, and power losses. */
  ghost predicate IsRun<R(!new)>(c: Codec<R>, run: seq<Log<R>>) {
    && |run| > 0 && run[0] == Start()
    && forall i :: 0 < i < |run| ==> Next(c, run[i - 1], run[i])
  }

  /** The records are attempts, each intact and in the order made. */
  predicate Traces<R(==)>(records: seq<R>, attempts: seq<R>, landed: seq<nat>) {
    && |landed| == |records|
    && (forall i, j :: 0 <= i < j < |landed| ==> landed[i] < landed[j])
    && (forall j :: 0 <= j < |landed| ==> landed[j] < |attempts| && attempts[landed[j]] == records[j])
  }

  lemma TraceGrows<R>(records: seq<R>, attempts: seq<R>, landed: seq<nat>, r: R)
    requires Traces(records, attempts, landed)
    ensures Traces(records, attempts + [r], landed)
    ensures Traces(records + [r], attempts + [r], landed + [|attempts|])
  {
  }

  /** A re-read returns attempts, intact and in order, among them all of `wanted`. */
  ghost predicate Keeps<R>(c: Codec<R>, s: Log<R>, wanted: set<nat>) {
    exists landed: seq<nat> :: Traces(Read(c, s.disk.bytes), s.attempts, landed) && Includes(landed, wanted)
  }

  predicate Includes(landed: seq<nat>, wanted: set<nat>) { forall a <- wanted :: a in landed }

  predicate Within(wanted: set<nat>, landed: seq<nat>, safe: nat) {
    safe <= |landed| && Includes(landed[..safe], wanted)
  }

  lemma WithinLonger(wanted: set<nat>, landed: seq<nat>, safe: nat, l: seq<nat>)
    requires Within(wanted, landed, safe) && (landed <= l || (l <= landed && safe <= |l|))
    ensures Within(wanted, l, safe) && Within(wanted, l, |l|) && Includes(l, wanted)
  {
    assert l[..safe] == landed[..safe];
    assert l[..|l|] == l;
    assert forall a :: a in landed[..safe] ==> a in l;
  }

  /** A re-read traces back to attempts, with those owed within the synced part. */
  ghost predicate Inv<R(!new)>(c: Codec<R>, s: Log<R>, landed: seq<nat>) {
    && Traces(Read(c, s.disk.bytes), s.attempts, landed)
    && s.disk.synced <= |s.disk.bytes| && s.lost <= |s.attempts|
    && WellFormed(c, Split(s.disk.bytes))
    && (!s.disk.present ==> s.disk == NO_FILE)
    && (forall a <- s.reported :: a < |s.attempts|)
    && Within(Owed(s), landed, |Read(c, s.disk.bytes[..s.disk.synced])|)
  }

  lemma GrownReads<R(!new)>(c: Codec<R>, d: Disk, r: R, fate: Fate)
    requires Lawful(c) && WellFormed(c, Split(d.bytes)) && fate.openable
    ensures WellFormed(c, Split(Grown(c, d, r, fate)))
    ensures || Read(c, Grown(c, d, r, fate)) == Read(c, d.bytes)
            || Read(c, Grown(c, d, r, fate)) == Read(c, d.bytes) + [r]
    ensures Written(c, d, r, fate) ==> Read(c, Grown(c, d, r, fate)) == Read(c, d.bytes) + [r]
  {
    var payload := Payload(c, d.bytes, r);
    AppendedBytesRead(c, d.bytes, r, if fate.written < |payload| then fate.written else |payload|);
  }

  lemma Landing<R(!new)>(c: Codec<R>, s: Log<R>, landed: seq<nat>, r: R, fate: Fate) returns (l: seq<nat>)
    requires Lawful(c) && Inv(c, s, landed) && fate.openable
    ensures l == landed || l == landed + [|s.attempts|]
    ensures Traces(Read(c, Grown(c, s.disk, r, fate)), s.attempts + [r], l)
    ensures Written(c, s.disk, r, fate) ==> l == landed + [|s.attempts|]
    ensures WellFormed(c, Split(Grown(c, s.disk, r, fate)))
  {
    GrownReads(c, s.disk, r, fate);
    TraceGrows(Read(c, s.disk.bytes), s.attempts, landed, r);
    l := if Read(c, Grown(c, s.disk, r, fate)) == Read(c, s.disk.bytes) then landed else landed + [|s.attempts|];
  }

  lemma OwedGrows<R>(c: Codec<R>, s: Log<R>, r: R, fate: Fate)
    requires s.lost <= |s.attempts|
    ensures Owed(AppendStep(c, s, r, fate)) == Owed(s) + if Reported(c, s.disk, r, fate) then {|s.attempts|} else {}
  {
  }

  /** Everything owed, and the appended one if it is reported, is within the new synced part. */
  lemma OwedWithin<R(!new)>(c: Codec<R>, s: Log<R>, landed: seq<nat>, r: R, fate: Fate, l: seq<nat>)
    requires s.disk.synced <= |s.disk.bytes| && s.lost <= |s.attempts| && fate.openable
    requires Within(Owed(s), landed, |Read(c, s.disk.bytes[..s.disk.synced])|)
    requires l == landed || l == landed + [|s.attempts|]
    requires Written(c, s.disk, r, fate) ==> l == landed + [|s.attempts|]
    requires |Read(c, Grown(c, s.disk, r, fate))| == |l|
    ensures var t := AppendStep(c, s, r, fate);
            Within(Owed(t), l, |Read(c, t.disk.bytes[..t.disk.synced])|)
  {
    OwedGrows(c, s, r, fate);
    WithinLonger(Owed(s), landed, |Read(c, s.disk.bytes[..s.disk.synced])|, l);
    var d := AppendStep(c, s, r, fate).disk;
    if Written(c, s.disk, r, fate) && fate.synced {
      assert d.bytes[..|d.bytes|] == d.bytes && l[..|l|] == l;
    } else {
      assert d.bytes[..d.synced] == s.disk.bytes[..s.disk.synced];
    }
  }

  lemma {:induction false} AppendKeepsInv<R(!new)>(c: Codec<R>, s: Log<R>, landed: seq<nat>, r: R, fate: Fate)
    returns (l: seq<nat>)
    requires Lawful(c) && Inv(c, s, landed)
    ensures Inv(c, AppendStep(c, s, r, fate), l)
  {
    if !fate.openable {
      OwedGrows(c, s, r, fate);
      TraceGrows(Read(c, s.disk.bytes), s.attempts, landed, r);
      l := landed;
    } else {
      l := Landing(c, s, landed, r, fate);
      OwedWithin(c, s, landed, r, fate, l);
    }
  }

  lemma CutReads<R(!new)>(c: Codec<R>, file: seq<Byte>, cut: seq<Byte>, synced: nat)
    requires Lawful(c) && WellFormed(c, Split(file)) && cut <= file && synced <= |cut|
    ensures WellFormed(c, Split(cut)) && Read(c, cut) <= Read(c, file)
    ensures |Read(c, file[..synced])| <= |Read(c, cut)|
  {
    assert cut == file[..|cut|] && cut[..synced] == file[..synced];
    CutKeepsPrefix(c, file, |cut|);
    CutKeepsPrefix(c, cut, synced);
  }

  lemma TraceCut<R>(records: seq<R>, cut: seq<R>, attempts: seq<R>, landed: seq<nat>)
    requires Traces(records, attempts, landed) && cut <= records
    ensures Traces(cut, attempts, landed[..|cut|])
  {
  }

  lemma NothingLeft<R(!new)>(c: Codec<R>)
    ensures Read(c, []) == [] && WellFormed(c, Split([]))
  {
  }

  /** A power loss that takes the file owes nothing more; any other leaves everything owed. */
  lemma {:induction false} CrashKeepsInv<R(!new)>(c: Codec<R>, s: Log<R>, landed: seq<nat>, t: Log<R>)
    returns (l: seq<nat>)
    requires Lawful(c) && Inv(c, s, landed) && CrashesTo(s, t)
    ensures Inv(c, t, l) && (!TakesFile(s.disk, t.disk) ==> Owed(t) == Owed(s))
  {
    if !s.disk.present {
      l := landed;
    } else if TakesFile(s.disk, t.disk) {
      l := [];
      NothingLeft(c);
      assert Owed(t) == {};
    } else {
      var file, cut := s.disk.bytes, t.disk.bytes;
      CutReads(c, file, cut, s.disk.synced);
      l := landed[..|Read(c, cut)|];
      TraceCut(Read(c, file), Read(c, cut), s.attempts, landed);
      WithinLonger(Owed(s), landed, |Read(c, file[..s.disk.synced])|, l);
      assert cut[..|cut|] == cut;
    }
  }

  lemma {:induction false} RunsKeepInv<R(!new)>(c: Codec<R>, run: seq<Log<R>>, n: nat) returns (landed: seq<nat>)
    requires Lawful(c) && IsRun(c, run) && n < |run|
    ensures Inv(c, run[n], landed)
  {
    if n == 0 {
      NothingLeft(c);
      landed := [];
    } else {
      var s, t := run[n - 1], run[n];
      var before := RunsKeepInv(c, run, n - 1);
      assert Next(c, s, t);
      if SyncsDirectory(s, t) {
        landed := before;
        assert Owed(t) == Owed(s);
      } else if CrashesTo(s, t) {
        landed := CrashKeepsInv(c, s, before, t);
      } else {
        var r: R, fate: Fate :| t == AppendStep(c, s, r, fate);
        landed := AppendKeepsInv(c, s, before, r, fate);
      }
    }
  }

  // ---- Main results --------------------------------------------------------------------------

  lemma InvKeeps<R(!new)>(c: Codec<R>, s: Log<R>, landed: seq<nat>)
    requires Inv(c, s, landed)
    ensures Keeps(c, s, Owed(s))
  {
    WithinLonger(Owed(s), landed, |Read(c, s.disk.bytes[..s.disk.synced])|, landed);
  }

  /**
    In every run of appends, failed writes, failed syncs and power losses, a re-read
    returns only records that were appended, intact and in order, and every one
    that reported success since the file was last lost whole.
   */
  lemma RunsKeepRecords<R(!new)>(c: Codec<R>, run: seq<Log<R>>, n: nat)
    requires Lawful(c) && IsRun(c, run) && n < |run|
    ensures Keeps(c, run[n], Owed(run[n]))
  {
    var landed := RunsKeepInv(c, run, n);
    InvKeeps(c, run[n], landed);
  }

  /** No power loss up to state n took the whole file. */
  ghost predicate NeverTaken<R>(run: seq<Log<R>>, n: nat)
    requires n < |run|
  {
    forall i :: 0 < i <= n ==> !TakesFile(run[i - 1].disk, run[i].disk)
  }

  lemma {:induction false} NeverTakenOwesAll<R(!new)>(c: Codec<R>, run: seq<Log<R>>, n: nat)
    requires IsRun(c, run) && n < |run| && NeverTaken(run, n)
    ensures run[n].lost == 0 && Owed(run[n]) == run[n].reported
  {
    if n > 0 {
      NeverTakenOwesAll(c, run, n - 1);
      assert Next(c, run[n - 1], run[n]);
    }
  }

  /** While power losses only cut the file, however they cut it, every record ever reported is read back. */
  lemma CutsKeepEveryRecord<R(!new)>(c: Codec<R>, run: seq<Log<R>>, n: nat)
    requires Lawful(c) && IsRun(c, run) && n < |run| && NeverTaken(run, n)
    ensures Keeps(c, run[n], run[n].reported)
  {
    NeverTakenOwesAll(c, run, n);
    RunsKeepRecords(c, run, n);
  }

  /** A power loss leaves everything owed exactly when it leaves the file, or nothing was owed. */
  lemma CrashKeepsOwed<R(!new)>(c: Codec<R>, s: Log<R>, landed: seq<nat>, t: Log<R>)
    requires Lawful(c) && Inv(c, s, landed) && CrashesTo(s, t)
    ensures Keeps(c, t, Owed(s)) <==> !TakesFile(s.disk, t.disk) || Owed(s) == {}
  {
    var l := CrashKeepsInv(c, s, landed, t);
    InvKeeps(c, t, l);
    NothingLeft(c);
    if TakesFile(s.disk, t.disk) && Owed(s) != {} {
      var a :| a in Owed(s);
      assert Read(c, t.disk.bytes) == [];
    } else if TakesFile(s.disk, t.disk) {
      assert Includes(l, Owed(s));
    }
  }

  /**
    In every state of every run: each power loss leaves everything owed exactly
    when the file's directory entry is durable, or nothing is owed.
   */
  lemma CrashSafeExactlyWhenLinked<R(!new)>(c: Codec<R>, run: seq<Log<R>>, n: nat)
    requires Lawful(c) && IsRun(c, run) && n < |run|
    ensures (forall t: Log<R> :: CrashesTo(run[n], t) ==> Keeps(c, t, Owed(run[n])))
            <==> run[n].disk.linked || Owed(run[n]) == {}
  {
    var s := run[n];
    var landed := RunsKeepInv(c, run, n);
    forall t: Log<R> | CrashesTo(s, t) ensures Keeps(c, t, Owed(s)) <==> !TakesFile(s.disk, t.disk) || Owed(s) == {} {
      CrashKeepsOwed(c, s, landed, t);
    }
    if !s.disk.linked && Owed(s) != {} {
      var t := s.(disk := NO_FILE, lost := |s.attempts|);
      NothingLeft(c);
      assert s.disk.present by { OwedNeedsFile(c, s, landed); }
      assert CrashesTo(s, t) && TakesFile(s.disk, t.disk);
    }
  }

  lemma OwedNeedsFile<R(!new)>(c: Codec<R>, s: Log<R>, landed: seq<nat>)
    requires Inv(c, s, landed) && Owed(s) != {}
    ensures s.disk.present
  {
    NothingLeft(c);
    var a :| a in Owed(s);
    assert Includes(landed[..|Read(c, s.disk.bytes[..s.disk.synced])|], Owed(s));
  }

  // ---- What makes the entry durable ----------------------------------------------------------------

  /**
    A step after which the entry is durable, as its caller can tell: the append
    that creates the file reports success, the directory is synced with the file
    there, or the file is there after a power loss.
   */
  predicate Secures<R(==)>(s: Log<R>, t: Log<R>) {
    || (!s.disk.present && t.reported != s.reported)
    || (s.disk.present && SyncsDirectory(s, t))
    || (s.disk.present && t.disk.present && CrashesTo(s, t))
  }

  lemma StepLinks<R(!new)>(c: Codec<R>, s: Log<R>, t: Log<R>)
    requires Next(c, s, t) && (!s.disk.present ==> s.disk == NO_FILE) && forall a <- s.reported :: a < |s.attempts|
    ensures t.disk.linked <==> Secures(s, t) || (s.disk.linked && t.disk.present)
  {
    if AppendsTo(c, s, t) {
      var r: R, fate: Fate :| t == AppendStep(c, s, r, fate);
    }
  }

  /** The file has been there from state m to state n. */
  ghost predicate PresentSince<R>(run: seq<Log<R>>, m: nat, n: nat)
    requires n < |run|
  {
    forall i :: m <= i <= n ==> run[i].disk.present
  }

  ghost predicate SecuredAt<R>(run: seq<Log<R>>, m: nat, n: nat)
    requires n < |run|
  {
    0 < m <= n && Secures(run[m - 1], run[m]) && PresentSince(run, m, n)
  }

  ghost predicate Secured<R>(run: seq<Log<R>>, n: nat)
    requires n < |run|
  {
    exists m :: SecuredAt(run, m, n)
  }

  /** In every state of every run the entry is durable exactly when such a step secured it and the file stayed. */
  lemma {:induction false} LinkedExactlyWhenSecured<R(!new)>(c: Codec<R>, run: seq<Log<R>>, n: nat)
    requires Lawful(c) && IsRun(c, run) && n < |run|
    ensures run[n].disk.linked <==> Secured(run, n)
  {
    if n > 0 {
      LinkedExactlyWhenSecured(c, run, n - 1);
      var landed := RunsKeepInv(c, run, n - 1);
      var after := RunsKeepInv(c, run, n);
      StepLinks(c, run[n - 1], run[n]);
      SecuredNext(run, n);
    }
  }

  lemma SecuredLonger<R>(run: seq<Log<R>>, m: nat, n: nat)
    requires 0 < n < |run|
    ensures SecuredAt(run, m, n) <==>
              run[n].disk.present && if m == n then Secures(run[n - 1], run[n]) else SecuredAt(run, m, n - 1)
  {
  }

  lemma SecuredNext<R>(run: seq<Log<R>>, n: nat)
    requires 0 < n < |run|
    ensures Secured(run, n) <==>
              run[n].disk.present && (Secures(run[n - 1], run[n]) || Secured(run, n - 1))
  {
    SecuredLonger(run, n, n);
    if Secured(run, n) {
      var m :| SecuredAt(run, m, n);
      SecuredLonger(run, m, n);
    }
    if run[n].disk.present && Secured(run, n - 1) {
      var m :| SecuredAt(run, m, n - 1);
      SecuredLonger(run, m, n);
    }
  }

  /**
    So: each power loss leaves everything owed exactly when the file's own
    creation reported success, the directory was synced since, or the file came
    through a power loss before, or nothing is owed.
   */
  lemma CrashSafeExactlyWhenSecured<R(!new)>(c: Codec<R>, run: seq<Log<R>>, n: nat)
    requires Lawful(c) && IsRun(c, run) && n < |run|
    ensures (forall t: Log<R> :: CrashesTo(run[n], t) ==> Keeps(c, t, Owed(run[n])))
            <==> Secured(run, n) || Owed(run[n]) == {}
  {
    CrashSafeExactlyWhenLinked(c, run, n);
    LinkedExactlyWhenSecured(c, run, n);
  }

  /** No append is made to a file whose entry is not durable. */
  ghost predicate IsCareful<R(!new)>(c: Codec<R>, run: seq<Log<R>>) {
    forall i :: 0 < i < |run| && AppendsTo(c, run[i - 1], run[i]) ==>
      (run[i - 1].disk.present ==> run[i - 1].disk.linked)
  }

  /** Everything reported is owed, and its file's entry is durable. */
  predicate Linked<R>(s: Log<R>) { Owed(s) == s.reported && (s.reported != {} ==> s.disk.linked) }

  lemma AppendLinks<R>(c: Codec<R>, s: Log<R>, r: R, fate: Fate)
    requires Linked(s) && s.lost <= |s.attempts| && (s.disk.present ==> s.disk.linked)
    ensures Linked(AppendStep(c, s, r, fate))
  {
    OwedGrows(c, s, r, fate);
  }

  lemma CrashLinks<R>(s: Log<R>, t: Log<R>)
    requires Linked(s) && CrashesTo(s, t)
    ensures Linked(t)
  {
  }

  lemma {:induction false} LostIsPast<R(!new)>(c: Codec<R>, run: seq<Log<R>>, n: nat)
    requires IsRun(c, run) && n < |run|
    ensures run[n].lost <= |run[n].attempts|
  {
    if n > 0 {
      LostIsPast(c, run, n - 1);
      assert Next(c, run[n - 1], run[n]);
    }
  }

  /** With that care, a record is reported only once its file's entry is durable. */
  lemma {:induction false} CareLinks<R(!new)>(c: Codec<R>, run: seq<Log<R>>, n: nat)
    requires IsRun(c, run) && IsCareful(c, run) && n < |run|
    ensures Linked(run[n])
  {
    if n > 0 {
      var s, t := run[n - 1], run[n];
      CareLinks(c, run, n - 1);
      LostIsPast(c, run, n - 1);
      assert Next(c, s, t);
      if SyncsDirectory(s, t) {
        assert Owed(t) == Owed(s);
      } else if CrashesTo(s, t) {
        CrashLinks(s, t);
      } else {
        var r: R, fate: Fate :| t == AppendStep(c, s, r, fate);
        AppendLinks(c, s, r, fate);
      }
    }
  }

  /** With that care every record ever reported is read back, in every state and after every power loss. */
  lemma CarefulRunsSurvive<R(!new)>(c: Codec<R>, run: seq<Log<R>>, n: nat)
    requires Lawful(c) && IsRun(c, run) && IsCareful(c, run) && n < |run|
    ensures Keeps(c, run[n], run[n].reported)
    ensures forall t: Log<R> :: CrashesTo(run[n], t) ==> Keeps(c, t, run[n].reported)
  {
    CareLinks(c, run, n);
    RunsKeepRecords(c, run, n);
    CrashSafeExactlyWhenLinked(c, run, n);
  }

  /**
    Without it, for any two records: the append that creates the file fails to
    sync, the next one reports success without syncing the directory, and a power
    loss takes the file.
   */
  lemma FailedCreationLosesReported<R(!new)>(c: Codec<R>, first: R, second: R)
    requires Lawful(c)
    ensures exists run: seq<Log<R>> ::
              IsRun(c, run) && |run| == 4 && 1 in run[2].reported && !Keeps(c, run[3], run[2].reported)
  {
    var failed := Fate(true, |c.encode(first)| + 1, false, true);
    var fate := Fate(true, |c.encode(second)| + 1, true, true);
    var unsynced := AppendStep(c, Start(), first, failed);
    assert EndsLine(unsynced.disk.bytes) by {
      assert Payload(c, [], first) == c.encode(first) + [NEWLINE];
      assert unsynced.disk.bytes == c.encode(first) + [NEWLINE];
    }
    var done := AppendStep(c, unsynced, second, fate);
    assert 1 in done.reported && !done.disk.linked && done.disk.present;
    var lost := done.(disk := NO_FILE, lost := 2);
    assert CrashesTo(done, lost);
    var run := [Start(), unsynced, done, lost];
    assert AppendsTo(c, run[0], run[1]) && AppendsTo(c, run[1], run[2]);
    assert IsRun(c, run);
    NothingLeft(c);
    assert !Keeps(c, lost, done.reported);
  }

  // ---- The index -----------------------------------------------------------------------------

  predicate Latest<R, K(==)>(records: seq<R>, key: R -> K, i: nat)
    requires i < |records|
  {
    forall j :: i < j < |records| ==> key(records[j]) != key(records[i])
  }

  predicate First<R, K(==)>(records: seq<R>, key: R -> K, i: nat)
    requires i < |records|
  {
    forall j :: 0 <= j < i ==> key(records[j]) != key(records[i])
  }

  /** The lines `getline` yields: an unterminated last one too, if it is not empty. */
  function Lines(t: Text): seq<seq<Byte>> { t.lines + (if t.tail == [] then [] else [t.tail]) }

  lemma ReadsItsLines<R>(c: Codec<R>, t: Text)
    ensures ReadLines(c, Lines(t)) == ReadText(c, t)
  {
    if t.tail != [] {
      ReadLinesSnoc(c, t.lines, t.tail);
    } else {
      assert Lines(t) == t.lines;
    }
  }

  /** `at` places each id of `order` where it first appears in the records. */
  predicate IsFirstOrder<R, K(==)>(records: seq<R>, key: R -> K, order: seq<K>, at: seq<nat>) {
    && |at| == |order|
    && (forall i, j :: 0 <= i < j < |at| ==> at[i] < at[j])
    && (forall i :: 0 <= i < |at| ==>
          at[i] < |records| && key(records[at[i]]) == order[i] && First(records, key, at[i]))
    && (forall i :: 0 <= i < |records| ==> key(records[i]) in order)
  }

  predicate HoldsLatest<R(==), K(==)>(records: seq<R>, key: R -> K, runs: map<K, R>) {
    forall i :: 0 <= i < |records| && Latest(records, key, i) ==>
      key(records[i]) in runs && runs[key(records[i])] == records[i]
  }

  lemma LatestGrows<R, K>(records: seq<R>, key: R -> K, runs: map<K, R>, r: R)
    requires HoldsLatest(records, key, runs)
    ensures HoldsLatest(records + [r], key, runs[key(r) := r])
  {
    var all := records + [r];
    forall i | 0 <= i < |all| && Latest(all, key, i)
      ensures key(all[i]) in runs[key(r) := r] && runs[key(r) := r][key(all[i])] == all[i]
    {
      if i < |records| {
        assert all[|records|] == r && key(r) != key(all[i]);
        assert forall j :: i < j < |records| ==> all[j] == records[j];
        assert Latest(records, key, i);
      }
    }
  }

  lemma FirstOrderGrows<R, K>(records: seq<R>, key: R -> K, order: seq<K>, at: seq<nat>, r: R)
    requires IsFirstOrder(records, key, order, at)
    ensures key(r) in order ==> IsFirstOrder(records + [r], key, order, at)
    ensures key(r) !in order ==> IsFirstOrder(records + [r], key, order + [key(r)], at + [|records|])
  {
    var all := records + [r];
    assert forall i :: 0 <= i < |records| ==> all[i] == records[i];
    forall i | 0 <= i < |at| ensures First(all, key, at[i]) {
      assert First(records, key, at[i]);
    }
  }

  lemma ReadsNextLine<R>(c: Codec<R>, lines: seq<seq<Byte>>, i: nat)
    requires i < |lines|
    ensures ReadLines(c, lines[..i + 1]) == ReadLines(c, lines[..i]) + ReadLine(c, lines[i])
  {
    assert lines[..i + 1] == lines[..i] + [lines[i]];
    ReadLinesSnoc(c, lines[..i], lines[i]);
  }

  /** What `initialize` has rebuilt from the records read so far. */
  ghost predicate IsIndex<R, K>(records: seq<R>, key: R -> K, runs: map<K, R>, order: seq<K>) {
    && (forall k <- order :: k in runs)
    && (forall k <- runs :: k in order)
    && HoldsLatest(records, key, runs)
    && exists at: seq<nat> :: IsFirstOrder(records, key, order, at)
  }

  method IndexRecord<R, K(==)>(ghost records: seq<R>, key: R -> K, runs: map<K, R>, order: seq<K>, r: R)
    returns (runs': map<K, R>, order': seq<K>)
    requires IsIndex(records, key, runs, order)
    ensures IsIndex(records + [r], key, runs', order')
  {
    ghost var at: seq<nat> :| IsFirstOrder(records, key, order, at);
    LatestGrows(records, key, runs, r);
    FirstOrderGrows(records, key, order, at, r);
    order' := if key(r) in runs then order else order + [key(r)];
    runs' := runs[key(r) := r];
  }

  /** `initialize`'s loop: the latest record of each run, in the order the runs first appear. */
  method RebuildIndex<R, K(==)>(c: Codec<R>, file: seq<Byte>, key: R -> K) returns (runs: map<K, R>, order: seq<K>)
    ensures IsIndex(Read(c, file), key, runs, order)
  {
    var lines := Lines(Split(file));
    ReadsItsLines(c, Split(file));
    runs, order := map[], [];
    ghost var records: seq<R> := [];
    assert IsFirstOrder(records, key, order, []);
    for i := 0 to |lines|
      invariant records == ReadLines(c, lines[..i])
      invariant IsIndex(records, key, runs, order)
    {
      ReadsNextLine(c, lines, i);
      var decoded := if lines[i] == [] then None else c.decode(lines[i]);
      if decoded.Some? {
        runs, order := IndexRecord(records, key, runs, order, decoded.value);
        records := records + [decoded.value];
      }
    }
    assert lines[..|lines|] == lines;
  }
}
