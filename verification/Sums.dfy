/** Sums of integer sequences. */
module Sums {
  function Sum(s: seq<int>): int {
    if s == [] then 0 else Sum(s[..|s| - 1]) + s[|s| - 1]
  }

  lemma {:induction false} SumFront(s: seq<int>)
    requires s != []
    ensures Sum(s) == s[0] + Sum(s[1..])
  {
    var last := |s| - 1;
    if last > 0 {
      SumFront(s[..last]);
      assert s[..last][1..] == s[1..][..last - 1];
    }
  }

  lemma {:induction false} SumUpdate(s: seq<int>, i: nat, x: int)
    requires i < |s|
    ensures Sum(s[i := x]) == Sum(s) - s[i] + x
  {
    var last := |s| - 1;
    if i < last {
      assert s[i := x][..last] == s[..last][i := x];
      SumUpdate(s[..last], i, x);
    } else {
      assert s[i := x][..last] == s[..last];
    }
  }

  lemma {:induction false} SumShift(s: seq<int>, t: seq<int>, d: int)
    requires |s| == |t| && forall i :: 0 <= i < |s| ==> t[i] == s[i] - d
    ensures Sum(t) == Sum(s) - |s| * d
  {
    if s != [] {
      SumShift(s[..|s| - 1], t[..|s| - 1], d);
    }
  }

  lemma {:induction false} SumOfSums(s: seq<int>, t: seq<int>, u: seq<int>)
    requires |s| == |t| == |u| && forall i :: 0 <= i < |s| ==> u[i] == s[i] + t[i]
    ensures Sum(u) == Sum(s) + Sum(t)
  {
    if s != [] {
      SumOfSums(s[..|s| - 1], t[..|s| - 1], u[..|s| - 1]);
    }
  }

  lemma {:induction false} SumConcat(s: seq<int>, t: seq<int>)
    ensures Sum(s + t) == Sum(s) + Sum(t)
  {
    if t == [] {
      assert s + t == s;
    } else {
      SumConcat(s, t[..|t| - 1]);
      assert (s + t)[..|s + t| - 1] == s + t[..|t| - 1];
    }
  }

  lemma {:induction false} SumAtMost(s: seq<int>, b: int)
    requires forall i :: 0 <= i < |s| ==> s[i] <= b
    ensures Sum(s) <= |s| * b
  {
    if s != [] {
      SumAtMost(s[..|s| - 1], b);
    }
  }

  lemma {:induction false} SumAtLeast(s: seq<int>, b: int)
    requires forall i :: 0 <= i < |s| ==> b <= s[i]
    ensures |s| * b <= Sum(s)
  {
    if s != [] {
      SumAtLeast(s[..|s| - 1], b);
    }
  }

  /** One entry is what the others leave of the sum. */
  lemma EntryFromSum(s: seq<int>, i: nat, b: int)
    requires i < |s| && forall k :: 0 <= k < |s| ==> b <= s[k]
    ensures s[i] <= Sum(s) - (|s| - 1) * b
  {
    SumUpdate(s, i, b);
    SumAtLeast(s[i := b], b);
  }

  lemma {:induction false} SumPointwise(s: seq<int>, t: seq<int>)
    requires |s| == |t| && forall i :: 0 <= i < |s| ==> s[i] <= t[i]
    ensures Sum(s) <= Sum(t)
  {
    if s != [] {
      SumPointwise(s[..|s| - 1], t[..|t| - 1]);
    }
  }

  lemma {:induction false} PrefixSums(s: seq<int>, i: nat, j: nat)
    requires i <= j <= |s| && forall k :: 0 <= k < |s| ==> s[k] >= 0
    ensures Sum(s[..i]) <= Sum(s[..j])
    decreases j
  {
    if i < j {
      PrefixSums(s, i, j - 1);
      assert s[..j][..j - 1] == s[..j - 1];
    }
  }
}
