/**
  The files of the run journal as the lists RunJournal speaks of: every run of a
  file's bytes in RunLogCrashes is, state by state, a run of a DurableLists list.
  So the index and each event stream are such lists.
 */
module JournalFiles {
  import opened DurableLists
  import opened RunLog
  import File = RunLogCrashes

  /** The list is what a re-read gives, and what it counts as kept is in the synced part. */
  predicate Holds<R(==)>(c: Codec<R>, s: File.Log<R>, d: Durable<R>) {
    d.items == Read(c, s.disk.bytes) && s.disk.synced <= |s.disk.bytes|
    && d.kept <= |Read(c, s.disk.bytes[..s.disk.synced])|
  }

  /** What an append to the file is to the list. */
  function FateOf<R(==)>(c: Codec<R>, s: File.Log<R>, r: R, fate: File.Fate): Fate {
    if File.Reported(c, s.disk, r, fate) then Stored
    else if Read(c, File.AppendStep(c, s, r, fate).disk.bytes) == Read(c, s.disk.bytes) then Missed
    else Unsure
  }

  lemma AppendRefines<R(!new)>(c: Codec<R>, s: File.Log<R>, landed: seq<nat>, d: Durable<R>, r: R, fate: File.Fate)
    requires Lawful(c) && File.Inv(c, s, landed) && Holds(c, s, d)
    ensures Holds(c, File.AppendStep(c, s, r, fate), Append(d, r, FateOf(c, s, r, fate)))
  {
    if fate.openable {
      File.GrownReads(c, s.disk, r, fate);
      var file, grown := s.disk.bytes, File.Grown(c, s.disk, r, fate);
      File.CutReads(c, file, file, s.disk.synced);
      assert grown[..|grown|] == grown;
      assert grown[..s.disk.synced] == file[..s.disk.synced];
    }
  }

  /** What a power loss to the file is to the list. */
  function LossOf<R>(c: Codec<R>, s: File.Log<R>, t: File.Log<R>): Loss {
    if File.TakesFile(s.disk, t.disk) then Whole else Cut(|Read(c, t.disk.bytes)|)
  }

  lemma CrashRefines<R(!new)>(c: Codec<R>, s: File.Log<R>, landed: seq<nat>, d: Durable<R>, t: File.Log<R>)
    requires Lawful(c) && File.Inv(c, s, landed) && Holds(c, s, d) && File.CrashesTo(s, t)
    ensures Holds(c, t, Survives(d, LossOf(c, s, t)))
    ensures LossOf(c, s, t).Whole? ==> !s.disk.linked
  {
    File.NothingLeft(c);
    if !File.TakesFile(s.disk, t.disk) {
      var file, cut := s.disk.bytes, t.disk.bytes;
      File.CutReads(c, file, cut, s.disk.synced);
      assert cut[..|cut|] == cut;
      assert Read(c, cut) == Read(c, file)[..|Read(c, cut)|];
      if !s.disk.present {
        assert file == [];
      }
    }
  }

  /** One step of the list. `linked` is the file's: a list whose file's entry is durable is not lost whole. */
  ghost predicate ListStep<R(!new)>(d: Durable<R>, e: Durable<R>, linked: bool) {
    || e == d
    || (exists r: R, fate: Fate :: e == Append(d, r, fate))
    || (exists loss: Loss :: e == Survives(d, loss) && (loss.Whole? ==> !linked))
  }

  lemma StepRefines<R(!new)>(c: Codec<R>, s: File.Log<R>, landed: seq<nat>, t: File.Log<R>, d: Durable<R>)
    returns (e: Durable<R>)
    requires Lawful(c) && File.Inv(c, s, landed) && Holds(c, s, d) && File.Next(c, s, t)
    ensures Holds(c, t, e) && ListStep(d, e, s.disk.linked)
  {
    if File.SyncsDirectory(s, t) {
      e := d;
    } else if File.CrashesTo(s, t) {
      CrashRefines(c, s, landed, d, t);
      e := Survives(d, LossOf(c, s, t));
    } else {
      var r: R, fate: File.Fate :| t == File.AppendStep(c, s, r, fate);
      AppendRefines(c, s, landed, d, r, fate);
      e := Append(d, r, FateOf(c, s, r, fate));
    }
  }

  lemma RunStepRefines<R(!new)>(c: Codec<R>, run: seq<File.Log<R>>, n: nat, d: Durable<R>) returns (e: Durable<R>)
    requires Lawful(c) && File.IsRun(c, run) && 0 < n < |run| && Holds(c, run[n - 1], d)
    ensures Holds(c, run[n], e) && ListStep(d, e, run[n - 1].disk.linked)
  {
    var s, t := run[n - 1], run[n];
    assert File.Next(c, s, t);
    var landed := File.RunsKeepInv(c, run, n - 1);
    e := StepRefines(c, s, landed, t, d);
  }

  /** The list alongside the file, up to state n. */
  ghost predicate Alongside<R(!new)>(c: Codec<R>, run: seq<File.Log<R>>, n: nat, lists: seq<Durable<R>>)
    requires n < |run|
  {
    && |lists| == n + 1 && lists[0] == Nothing()
    && (forall i :: 0 <= i <= n ==> Holds(c, run[i], lists[i]))
    && (forall i :: 0 < i <= n ==> ListStep(lists[i - 1], lists[i], run[i - 1].disk.linked))
  }

  lemma AlongsideNext<R(!new)>(c: Codec<R>, run: seq<File.Log<R>>, n: nat, lists: seq<Durable<R>>, e: Durable<R>)
    requires 0 < n < |run| && Alongside(c, run, n - 1, lists)
    requires Holds(c, run[n], e) && ListStep(lists[n - 1], e, run[n - 1].disk.linked)
    ensures Alongside(c, run, n, lists + [e])
  {
    var all := lists + [e];
    assert forall i :: 0 <= i < n ==> all[i] == lists[i];
  }

  /** Every run of a file is, state by state, a run of a list that is lost whole only when the file can be. */
  lemma {:induction false} RunsRefine<R(!new)>(c: Codec<R>, run: seq<File.Log<R>>, n: nat)
    returns (lists: seq<Durable<R>>)
    requires Lawful(c) && File.IsRun(c, run) && n < |run|
    ensures Alongside(c, run, n, lists)
  {
    if n == 0 {
      File.NothingLeft(c);
      lists := [Nothing()];
    } else {
      var front := RunsRefine(c, run, n - 1);
      var next := RunStepRefines(c, run, n, front[n - 1]);
      AlongsideNext(c, run, n, front, next);
      lists := front + [next];
    }
  }
}
