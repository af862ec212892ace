/** Induction over the states of a run, on sequences that say something of each of them. */
module Steps {

  /** Two sequences that start alike and go on alike are alike. */
  lemma {:induction false} SameSteps<T>(xs: seq<T>, ys: seq<T>, n: nat)
    requires |xs| == |ys| && n < |xs| && xs[0] == ys[0]
    requires forall k :: 0 < k < |xs| && xs[k - 1] == ys[k - 1] ==> xs[k] == ys[k]
    ensures xs[n] == ys[n]
  {
    if n > 0 {
      SameSteps(xs, ys, n - 1);
    }
  }

  lemma {:induction false} Climbs(xs: seq<nat>, m: nat, n: nat)
    requires m <= n < |xs|
    requires forall k :: 0 < k < |xs| ==> xs[k - 1] <= xs[k]
    ensures xs[m] <= xs[n]
    decreases n
  {
    if m < n {
      Climbs(xs, m, n - 1);
    }
  }
}
