/** The two accumulations every level of the aggregator performs: a running total and a running
    best that starts at zero and is replaced only on strict improvement. */
module Folds {

  /** Sum of a sequence, accumulated left to right as the source's `+=` loops do. */
  function Sum(vals: seq<real>): real {
    if vals == [] then 0.0 else Sum(vals[..|vals| - 1]) + vals[|vals| - 1]
  }

  /** A sum of non-negative values is non-negative. */
  lemma {:induction false} SumNonNegative(vals: seq<real>)
    requires forall i :: 0 <= i < |vals| ==> vals[i] >= 0.0
    ensures Sum(vals) >= 0.0
  {
    if vals != [] {
      SumNonNegative(vals[..|vals| - 1]);
    }
  }

  /** Summing a concatenation sums the parts. */
  lemma {:induction false} SumConcat(a: seq<real>, b: seq<real>)
    ensures Sum(a + b) == Sum(a) + Sum(b)
  {
    if b == [] {
      assert a + b == a;
    } else {
      SumConcat(a, b[..|b| - 1]);
      assert (a + b)[..|a + b| - 1] == a + b[..|b| - 1];
    }
  }

  /** A prefix one element longer adds that element. */
  lemma SumPrefix(vals: seq<real>, k: nat)
    requires 0 < k <= |vals|
    ensures Sum(vals[..k]) == Sum(vals[..k - 1]) + vals[k - 1]
  {
    assert vals[..k][..k - 1] == vals[..k - 1];
  }

  /** A running best: the label recorded for the winner and its value. */
  datatype Best = Best(at: int, kw: real)

  /** `b` is what a running best seeded with label 0 and value 0 ends with after visiting `vals`, the
      element at index i carrying label `first + i`, when it is replaced only on a strictly greater value:
      its value is max(0, vals); if that is positive, its label is that of the EARLIEST element attaining
      it; otherwise no replacement happened and the label is still 0. */
  ghost predicate IsFirstBest(vals: seq<real>, first: int, b: Best) {
    && b.kw >= 0.0
    && (forall i :: 0 <= i < |vals| ==> vals[i] <= b.kw)
    && (b.kw == 0.0 ==> b.at == 0)
    && (b.kw > 0.0 ==>
          && first <= b.at < first + |vals|
          && vals[b.at - first] == b.kw
          && forall i :: 0 <= i < b.at - first ==> vals[i] < b.kw)
  }

  /** The running best over `vals` with a strict `>` update, starting from (0, 0). */
  function FirstBest(vals: seq<real>, first: int): Best {
    if vals == [] then Best(0, 0.0)
    else
      var prev := FirstBest(vals[..|vals| - 1], first);
      var last := vals[|vals| - 1];
      if last > prev.kw then Best(first + |vals| - 1, last) else prev
  }

  /** The running best is max(0, vals) at the earliest position attaining it, or (0, 0). */
  lemma {:induction false} FirstBestIsFirst(vals: seq<real>, first: int)
    ensures IsFirstBest(vals, first, FirstBest(vals, first))
  {
    if vals != [] {
      FirstBestIsFirst(vals[..|vals| - 1], first);
    }
  }

  /** One more element replaces the best exactly when it is strictly greater (ties keep the earlier one). */
  lemma FirstBestAppend(vals: seq<real>, first: int, v: real)
    ensures FirstBest(vals + [v], first)
         == if v > FirstBest(vals, first).kw then Best(first + |vals|, v) else FirstBest(vals, first)
  {
    assert (vals + [v])[..|vals|] == vals;
  }

  /** The characterisation determines the running best: nothing else satisfies it. */
  lemma FirstBestUnique(vals: seq<real>, first: int, b: Best)
    requires IsFirstBest(vals, first, b)
    ensures b == FirstBest(vals, first)
  {
    var f := FirstBest(vals, first);
    FirstBestIsFirst(vals, first);
    if b.kw > 0.0 {
      assert b.kw <= f.kw;
    }
    if f.kw > 0.0 {
      assert f.kw <= b.kw;
    }
    assert b.kw == f.kw;
  }
}
