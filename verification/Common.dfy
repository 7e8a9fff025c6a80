/** Small shared vocabulary: optional values and subsequences. */
module Common {

  datatype Option<+T> = None | Some(value: T)

  function Last<T>(s: seq<T>): T
    requires s != []
  {
    s[|s| - 1]
  }

  function Front<T>(s: seq<T>): seq<T>
    requires s != []
  {
    s[..|s| - 1]
  }

  /** The positions at, in increasing order, pick xs out of ys. */
  ghost predicate Picks<T>(xs: seq<T>, ys: seq<T>, at: seq<int>) {
    && |at| == |xs|
    && (forall i :: 0 <= i < |at| ==> 0 <= at[i] < |ys| && ys[at[i]] == xs[i])
    && (forall i, j :: 0 <= i < j < |at| ==> at[i] < at[j])
  }

  /** xs can be obtained from ys by deleting elements. */
  ghost predicate Subsequence<T>(xs: seq<T>, ys: seq<T>) {
    exists at :: Picks(xs, ys, at)
  }

  lemma SubsequenceOfAny<T>(ys: seq<T>)
    ensures Subsequence([], ys)
  {
    assert Picks([], ys, []);
  }

  lemma SubsequenceSkip<T>(xs: seq<T>, ys: seq<T>, y: T)
    requires Subsequence(xs, ys)
    ensures Subsequence(xs, ys + [y])
  {
    var at :| Picks(xs, ys, at);
    assert Picks(xs, ys + [y], at);
  }

  lemma SubsequenceTake<T>(xs: seq<T>, ys: seq<T>, y: T)
    requires Subsequence(xs, ys)
    ensures Subsequence(xs + [y], ys + [y])
  {
    var at :| Picks(xs, ys, at);
    assert Picks(xs + [y], ys + [y], at + [|ys|]);
  }

  lemma SubsequenceLength<T>(xs: seq<T>, ys: seq<T>)
    requires Subsequence(xs, ys)
    ensures |xs| <= |ys|
  {
    var at :| Picks(xs, ys, at);
    if xs != [] {
      AtLeastIndex(at, |at| - 1);
    }
  }

  /** Increasing numbers are no smaller than their index. */
  lemma {:induction false} AtLeastIndex(at: seq<int>, i: nat)
    requires i < |at| && at[0] >= 0 && forall j, k :: 0 <= j < k < |at| ==> at[j] < at[k]
    ensures at[i] >= i
  {
    if i > 0 {
      AtLeastIndex(at, i - 1);
    }
  }
}
