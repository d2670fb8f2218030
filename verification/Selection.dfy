/** Lists of positions: how a reader says which elements of a list were taken, without the function that
    took them. */
module Selection {

  /** Positions below `n`, each larger than the one before. */
  predicate Rising(idx: seq<nat>, n: nat) {
    && (forall k | 0 <= k < |idx| :: idx[k] < n)
    && (forall j, k | 0 <= j < k < |idx| :: idx[j] < idx[k])
  }

  lemma RisingNext(idx: seq<nat>, n: nat)
    requires Rising(idx, n)
    ensures Rising(idx, n + 1) && Rising(idx + [n], n + 1) && n !in idx
  {
  }
}
