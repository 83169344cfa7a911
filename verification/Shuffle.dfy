/** The in-place shuffle of src/utils/shuffle.ts, for every outcome of its random draws. */
module Shuffle {

  /** Draws a loop over `n` slots can make: one slot index per iteration. */
  ghost predicate Draws(draws: seq<nat>, n: nat) {
    forall i :: 0 <= i < |draws| ==> draws[i] < n
  }

  function Swap<T>(s: seq<T>, i: nat, j: nat): (r: seq<T>)
    requires i < |s| && j < |s|
    ensures multiset(r) == multiset(s)
  {
    SwapIsPermutation(s, i, j);
    s[i := s[j]][j := s[i]]
  }

  lemma SwapIsPermutation<T>(s: seq<T>, i: nat, j: nat)
    requires i < |s| && j < |s|
    ensures multiset(s[i := s[j]][j := s[i]]) == multiset(s)
  {
  }

  /** The sequence after iterations 0, 1, ... |draws|-1, each swapping slot `i` with the slot drawn. */
  ghost function Shuffled<T>(s: seq<T>, draws: seq<nat>): (r: seq<T>)
    requires |draws| <= |s| && Draws(draws, |s|)
    ensures |r| == |s|
  {
    if draws == [] then s
    else
      var i := |draws| - 1;
      Swap(Shuffled(s, draws[..i]), i, draws[i])
  }

  lemma ShuffledNext<T>(s: seq<T>, draws: seq<nat>, j: nat)
    requires |draws| < |s| && Draws(draws, |s|) && j < |s|
    ensures Draws(draws + [j], |s|)
    ensures Shuffled(s, draws + [j]) == Swap(Shuffled(s, draws), |draws|, j)
  {
    var more := draws + [j];
    assert more[..|more| - 1] == draws && more[|more| - 1] == j;
    hide Swap;
  }

  /** Whatever is drawn, shuffling only rearranges. */
  lemma {:induction false} ShuffledIsPermutation<T>(s: seq<T>, draws: seq<nat>)
    requires |draws| <= |s| && Draws(draws, |s|)
    ensures multiset(Shuffled(s, draws)) == multiset(s)
  {
    if draws != [] {
      ShuffledIsPermutation(s, draws[..|draws| - 1]);
    }
  }

  /** And every rearrangement can be drawn: a caller may assume no more than that it got some permutation. */
  lemma EveryPermutationIsDrawn<T>(s: seq<T>, target: seq<T>)
    requires multiset(s) == multiset(target)
    ensures exists draws: seq<nat> :: |draws| <= |s| && Draws(draws, |s|) && Shuffled(s, draws) == target
  {
    hide *;
    assert |s| == |multiset(s)| && |target| == |multiset(target)|;
    var draws := DrawPrefix(s, target, |s|);
    var r := Shuffled(s, draws);
    assert r[..|s|] == r && target[..|s|] == target;
  }

  /** Draws that put the first `n` slots right, by fetching each element from the slots not yet settled. */
  lemma {:induction false} DrawPrefix<T>(s: seq<T>, target: seq<T>, n: nat) returns (draws: seq<nat>)
    requires multiset(s) == multiset(target) && |s| == |target| && n <= |s|
    ensures |draws| == n && Draws(draws, |s|) && Shuffled(s, draws)[..n] == target[..n]
  {
    if n == 0 {
      draws := [];
    } else {
      var before := DrawPrefix(s, target, n - 1);
      var t := Shuffled(s, before);
      ShuffledIsPermutation(s, before);
      var k := FindBeyond(t, target, n - 1);
      draws := before + [k];
      assert draws[..n - 1] == before;
      assert Shuffled(s, draws) == Swap(t, n - 1, k);
      SwapSettles(t, target, n - 1, k);
    }
  }

  lemma SwapSettles<T>(t: seq<T>, target: seq<T>, i: nat, k: nat)
    requires |t| == |target| && i <= k < |t| && t[..i] == target[..i] && t[k] == target[i]
    ensures Swap(t, i, k)[..i + 1] == target[..i + 1]
  {
  }

  lemma FindBeyond<T>(t: seq<T>, target: seq<T>, i: nat) returns (k: nat)
    requires |t| == |target| && i < |t| && multiset(t) == multiset(target) && t[..i] == target[..i]
    ensures i <= k < |t| && t[k] == target[i]
  {
    RestMultiset(t, i);
    RestMultiset(target, i);
    assert target[i] in multiset(target[i..]);
    var rest := t[i..];
    var j :| 0 <= j < |rest| && rest[j] == target[i];
    k := i + j;
  }

  lemma RestMultiset<T>(s: seq<T>, i: nat)
    requires i <= |s|
    ensures multiset(s[i..]) == multiset(s) - multiset(s[..i])
  {
    assert s == s[..i] + s[i..];
  }

  /** One pass over the array; the ghost result records what was drawn. */
  method ShuffleArray<T>(arr: array<T>) returns (ghost draws: seq<nat>)
    modifies arr
    ensures Draws(draws, arr.Length) && |draws| <= arr.Length
    ensures arr[..] == Shuffled(old(arr[..]), draws)
    ensures multiset(arr[..]) == multiset(old(arr[..]))
  {
    draws := [];
    if arr.Length <= 1 {
      return;
    }
    var i := 0;
    while i < arr.Length
      invariant 0 <= i <= arr.Length && |draws| == i && Draws(draws, arr.Length)
      invariant arr[..] == Shuffled(old(arr[..]), draws)
    {
      var j: nat :| j < arr.Length;
      ShuffledNext(old(arr[..]), draws, j);
      hide Shuffled;
      ghost var was := arr[..];
      var tmp := arr[i];
      arr[i] := arr[j];
      arr[j] := tmp;
      assert arr[..] == Swap(was, i, j);
      draws := draws + [j];
      i := i + 1;
    }
    ShuffledIsPermutation(old(arr[..]), draws);
  }
}
