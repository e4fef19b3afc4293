/** Shapes of sequences that several components keep. */
module Lists {
  /** True, false, true, ... */
  predicate Alternates(bits: seq<bool>) { forall i :: 0 <= i < |bits| ==> bits[i] == (i % 2 == 0) }

  predicate NoDuplicates<T(==)>(items: seq<T>) {
    forall i, j :: 0 <= i < j < |items| ==> items[i] != items[j]
  }
}
