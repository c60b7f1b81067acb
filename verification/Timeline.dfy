/** Values watched over time: h[t] is the value at time t. */
module Timeline {

  /** A change brings a stamp that was never there before; values without a stamp change freely. */
  ghost predicate Stamped<V(!new), K>(h: seq<V>, stamp: V -> seq<K>) {
    forall i, j | 0 <= i < j < |h| && h[j] != h[j - 1] && stamp(h[j]) != [] :: stamp(h[i]) != stamp(h[j])
  }

  lemma {:induction false} Settled<V(!new), K>(h: seq<V>, stamp: V -> seq<K>, i: nat, k: nat)
    requires Stamped(h, stamp) && i <= k < |h| && stamp(h[i]) == stamp(h[k]) != []
    ensures forall j | i <= j <= k :: h[j] == h[k]
    decreases k
  {
    if i < k {
      assert h[k] == h[k - 1];
      Settled(h, stamp, i, k - 1);
    }
  }

  /** Two equal stamped readings: nothing changed in between. */
  lemma NoReturn<V(!new), K>(h: seq<V>, stamp: V -> seq<K>, i: nat, j: nat, k: nat)
    requires Stamped(h, stamp) && i <= j <= k < |h| && h[i] == h[k] && stamp(h[k]) != []
    ensures h[j] == h[i]
  {
    Settled(h, stamp, i, k);
  }
}
