/** Option and Result, for the source's optional values and error returns. */
module Wrappers {
  datatype Option<+T> = None | Some(value: T)

  datatype Result<+T, +E> = Success(value: T) | Failure(error: E)
}

/** Sums of an integer weight over the entries of a sequence. */
module Sums {
  function Sum<T>(w: T -> int, s: seq<T>): int {
    if s == [] then 0 else Sum(w, s[..|s| - 1]) + w(s[|s| - 1])
  }

  /** Replacing one entry changes the sum by the difference of the two weights. */
  lemma {:induction false} SumUpdate<T>(w: T -> int, s: seq<T>, i: nat, x: T)
    requires i < |s|
    ensures Sum(w, s[i := x]) == Sum(w, s) - w(s[i]) + w(x)
  {
    var n := |s| - 1;
    if i == n {
      assert s[i := x][..n] == s[..n];
    } else {
      assert s[i := x][..n] == s[..n][i := x];
      SumUpdate(w, s[..n], i, x);
    }
  }

  /** Entries whose weights are all zero sum to zero. */
  lemma {:induction false} SumZero<T>(w: T -> int, s: seq<T>)
    requires forall i :: 0 <= i < |s| ==> w(s[i]) == 0
    ensures Sum(w, s) == 0
  {
    if s != [] {
      SumZero(w, s[..|s| - 1]);
    }
  }

  /** Non-negative weights sum to at least each single weight. */
  lemma {:induction false} SumAtLeast<T>(w: T -> int, s: seq<T>, i: nat)
    requires i < |s|
    requires forall j :: 0 <= j < |s| ==> 0 <= w(s[j])
    ensures Sum(w, s) >= w(s[i])
  {
    var n := |s| - 1;
    if i < n {
      SumAtLeast(w, s[..n], i);
    } else {
      SumNonNegative(w, s[..n]);
    }
  }

  lemma {:induction false} SumNonNegative<T>(w: T -> int, s: seq<T>)
    requires forall j :: 0 <= j < |s| ==> 0 <= w(s[j])
    ensures Sum(w, s) >= 0
  {
    if s != [] {
      SumNonNegative(w, s[..|s| - 1]);
    }
  }

  /** Pointwise smaller weights give a smaller sum. */
  lemma {:induction false} SumMonotone<T>(v: T -> int, w: T -> int, s: seq<T>)
    requires forall j :: 0 <= j < |s| ==> v(s[j]) <= w(s[j])
    ensures Sum(v, s) <= Sum(w, s)
  {
    if s != [] {
      SumMonotone(v, w, s[..|s| - 1]);
    }
  }
}
