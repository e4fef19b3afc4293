/**
  An append-only file of core/runs/run_journal.cpp as the list of what a re-read
  gives: the index, or one run's event stream. Module JournalFiles shows that the
  bytes of RunLogCrashes behave as this says.
 */
module DurableLists {
  import opened Octets

  /** A power loss that leaves the file leaves the first `kept` items. */
  datatype Durable<T> = Durable(items: seq<T>, kept: nat)

  function Nothing<T>(): Durable<T> { Durable([], 0) }

  /** An append that is not there, is there though it reported failure, or reported success. */
  datatype Fate = Missed | Unsure | Stored

  function Append<T>(d: Durable<T>, x: T, fate: Fate): Durable<T> {
    if fate.Missed? then d
    else Durable(d.items + [x], if fate.Stored? then |d.items| + 1 else d.kept)
  }

  /** A power loss cuts the file, or takes it whole. */
  datatype Loss = Cut(keep: nat) | Whole

  function Survives<T>(d: Durable<T>, loss: Loss): Durable<T> {
    if loss.Whole? then Nothing()
    else
      var n := Least(|d.items|, if loss.keep < d.kept then d.kept else loss.keep);
      Durable(d.items[..n], n)
  }

  /** What `d` keeps, `e` keeps too. */
  predicate KeepsAll<T(==)>(d: Durable<T>, e: Durable<T>) {
    d.kept <= |d.items| && d.kept <= e.kept <= |e.items| && e.items[..d.kept] == d.items[..d.kept]
  }

  /** A power loss keeps all that was kept exactly when it leaves the file, or nothing was kept. */
  lemma LossKeepsAllExactly<T>(d: Durable<T>, loss: Loss)
    requires d.kept <= |d.items|
    ensures KeepsAll(d, Survives(d, loss)) <==> loss.Cut? || d.kept == 0
  {
    if loss.Cut? {
      assert Survives(d, loss).items[..d.kept] == d.items[..d.kept];
    }
  }

  lemma KeepsAllTransitive<T>(d: Durable<T>, e: Durable<T>, f: Durable<T>)
    requires KeepsAll(d, e) && KeepsAll(e, f)
    ensures KeepsAll(d, f)
  {
    assert f.items[..d.kept] == f.items[..e.kept][..d.kept];
    assert e.items[..d.kept] == e.items[..e.kept][..d.kept];
  }
}
