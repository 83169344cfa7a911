/** Facts about sequences without repetitions and their subsequences, shared by the other modules. */
module Seqs {

  datatype Option<+T> = None | Some(value: T)

  function Min(a: int, b: int): int { if a <= b then a else b }

  function Max(a: int, b: int): int { if a <= b then b else a }

  ghost predicate Distinct<T>(s: seq<T>) {
    forall i, j :: 0 <= i < j < |s| ==> s[i] != s[j]
  }

  function ToSet<T>(s: seq<T>): set<T> { set x | x in s }

  /** The subsequence of `s` whose elements lie in `xs`. */
  function Restrict<T>(s: seq<T>, xs: set<T>): (r: seq<T>) {
    if s == [] then []
    else if s[0] in xs then [s[0]] + Restrict(s[1..], xs)
    else Restrict(s[1..], xs)
  }

  /** The subsequence of `s` whose elements do not lie in `xs`. */
  function Without<T>(s: seq<T>, xs: set<T>): (r: seq<T>) {
    if s == [] then []
    else if s[0] in xs then Without(s[1..], xs)
    else [s[0]] + Without(s[1..], xs)
  }

  lemma {:induction false} RestrictConcat<T>(a: seq<T>, b: seq<T>, xs: set<T>)
    ensures Restrict(a + b, xs) == Restrict(a, xs) + Restrict(b, xs)
  {
    if a == [] {
      assert a + b == b;
    } else {
      assert (a + b)[1..] == a[1..] + b;
      RestrictConcat(a[1..], b, xs);
    }
  }

  lemma {:induction false} WithoutConcat<T>(a: seq<T>, b: seq<T>, xs: set<T>)
    ensures Without(a + b, xs) == Without(a, xs) + Without(b, xs)
  {
    if a == [] {
      assert a + b == b;
    } else {
      assert (a + b)[1..] == a[1..] + b;
      WithoutConcat(a[1..], b, xs);
    }
  }

  lemma {:induction false} RestrictMembers<T>(s: seq<T>, xs: set<T>)
    ensures forall x :: x in Restrict(s, xs) <==> x in s && x in xs
  {
    if s != [] {
      RestrictMembers(s[1..], xs);
      assert s == [s[0]] + s[1..];
    }
  }

  lemma {:induction false} WithoutMembers<T>(s: seq<T>, xs: set<T>)
    ensures forall x :: x in Without(s, xs) <==> x in s && x !in xs
  {
    if s != [] {
      WithoutMembers(s[1..], xs);
      assert s == [s[0]] + s[1..];
    }
  }

  lemma {:induction false} RestrictDistinct<T>(s: seq<T>, xs: set<T>)
    requires Distinct(s)
    ensures Distinct(Restrict(s, xs))
  {
    if s != [] {
      RestrictDistinct(s[1..], xs);
      RestrictMembers(s[1..], xs);
    }
  }

  lemma {:induction false} WithoutDistinct<T>(s: seq<T>, xs: set<T>)
    requires Distinct(s)
    ensures Distinct(Without(s, xs))
  {
    if s != [] {
      WithoutDistinct(s[1..], xs);
      WithoutMembers(s[1..], xs);
    }
  }

  lemma {:induction false} WithoutTwice<T>(s: seq<T>, xs: set<T>, ys: set<T>)
    ensures Without(Without(s, xs), ys) == Without(s, xs + ys)
  {
    if s != [] {
      WithoutTwice(s[1..], xs, ys);
      if s[0] !in xs {
        assert Without(s, xs)[1..] == Without(s[1..], xs);
      }
    }
  }

  /** Only which elements of the sequence lie in the set matters. */
  lemma {:induction false} RestrictWithin<T>(s: seq<T>, xs: set<T>, ys: set<T>)
    requires forall x :: x in s ==> (x in xs <==> x in ys)
    ensures Restrict(s, xs) == Restrict(s, ys)
  {
    if s != [] {
      RestrictWithin(s[1..], xs, ys);
    }
  }

  /** The two subsequences share the elements of the sequence out between them. */
  lemma {:induction false} SplitLength<T>(s: seq<T>, xs: set<T>)
    ensures |Restrict(s, xs)| + |Without(s, xs)| == |s|
  {
    if s != [] {
      SplitLength(s[1..], xs);
    }
  }

  lemma {:induction false} RestrictAll<T>(s: seq<T>, xs: set<T>)
    requires forall x :: x in s ==> x in xs
    ensures Restrict(s, xs) == s && Without(s, xs) == []
  {
    if s != [] {
      RestrictAll(s[1..], xs);
    }
  }

  lemma {:induction false} RestrictNone<T>(s: seq<T>, xs: set<T>)
    requires forall x :: x in s ==> x !in xs
    ensures Restrict(s, xs) == [] && Without(s, xs) == s
  {
    if s != [] {
      RestrictNone(s[1..], xs);
    }
  }

  lemma {:induction false} DistinctCardinality<T>(s: seq<T>)
    requires Distinct(s)
    ensures |ToSet(s)| == |s|
  {
    if s != [] {
      DistinctCardinality(s[1..]);
      assert ToSet(s) == {s[0]} + ToSet(s[1..]);
    }
  }

  /** A repetition-free sequence holds as many elements of `xs` as its set of elements does. */
  lemma RestrictCardinality<T>(s: seq<T>, xs: set<T>)
    requires Distinct(s)
    ensures |Restrict(s, xs)| == |ToSet(s) * xs|
  {
    RestrictDistinct(s, xs);
    DistinctCardinality(Restrict(s, xs));
    RestrictMembers(s, xs);
    assert ToSet(Restrict(s, xs)) == ToSet(s) * xs;
  }

  lemma SubsetCardinality<T>(a: set<T>, b: set<T>)
    requires a <= b
    ensures |a| <= |b| && (|a| == |b| ==> a == b)
  {
    assert b == a + (b - a);
  }

  lemma SplitCardinality<T>(a: set<T>, b: set<T>)
    ensures |a| == |a - b| + |a * b|
    ensures b <= a ==> a * b == b
  {
    assert a == (a - b) + (a * b);
  }

  /** Rearranging a sequence keeps its elements and its freedom from repetitions. */
  lemma PermutationFacts<T>(a: seq<T>, b: seq<T>)
    requires multiset(a) == multiset(b)
    ensures |a| == |b| && ToSet(a) == ToSet(b)
    ensures forall x :: x in a <==> x in b
    ensures Distinct(a) ==> Distinct(b)
  {
    assert |multiset(a)| == |a| && |multiset(b)| == |b|;
    forall x ensures x in a <==> x in b {
      assert x in a <==> x in multiset(a);
      assert x in b <==> x in multiset(b);
    }
    if Distinct(a) {
      DistinctMultiset(a);
      MultisetDistinct(b);
    }
  }

  lemma {:induction false} DistinctMultiset<T>(s: seq<T>)
    requires Distinct(s)
    ensures forall x :: multiset(s)[x] <= 1
  {
    if s != [] {
      DistinctMultiset(s[1..]);
      assert s == [s[0]] + s[1..];
      assert s[0] !in multiset(s[1..]);
    }
  }

  lemma MultisetDistinct<T>(s: seq<T>)
    requires forall x :: multiset(s)[x] <= 1
    ensures Distinct(s)
  {
    forall i, j | 0 <= i < j < |s| ensures s[i] != s[j] {
      assert s == s[..j] + s[j..];
      assert s[..j][i] in multiset(s[..j]);
      assert s[j..][0] in multiset(s[j..]);
      assert multiset(s)[s[i]] == multiset(s[..j])[s[i]] + multiset(s[j..])[s[i]];
    }
  }

  lemma DistinctConcat<T>(a: seq<T>, b: seq<T>)
    requires Distinct(a + b)
    ensures Distinct(a) && Distinct(b) && ToSet(a) !! ToSet(b) && ToSet(a + b) == ToSet(a) + ToSet(b)
  {
    var all := a + b;
    assert forall i :: 0 <= i < |a| ==> all[i] == a[i];
    assert forall i :: 0 <= i < |b| ==> all[|a| + i] == b[i];
  }

  function Flat<T>(s: seq<seq<T>>): seq<T> {
    if s == [] then [] else Flat(s[..|s| - 1]) + s[|s| - 1]
  }

  lemma FlatNext<T>(s: seq<seq<T>>, i: nat)
    requires i < |s|
    ensures Flat(s[..i + 1]) == Flat(s[..i]) + s[i]
  {
    assert s[..i + 1][..i] == s[..i];
  }
}
