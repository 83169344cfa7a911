/**
 * Choosing which peers an over-subscribed mesh keeps: the array algorithm inside the heartbeat.
 * `ob` is the set of peers with an outbound connection.
 */
module MeshTrim {
  import opened Seqs

  /** The array with the element at `i` moved to the front. */
  function Rotated<T>(s: seq<T>, i: nat): (r: seq<T>)
    requires i < |s|
  {
    [s[i]] + s[..i] + s[i + 1..]
  }

  /** Moves the element at `i` to the front, shifting those before it one slot right. */
  method Rotate<T>(a: array<T>, i: nat)
    requires i < a.Length
    modifies a
    ensures a[..] == Rotated(old(a[..]), i)
  {
    var p := a[i];
    var j := i;
    while j > 0
      invariant 0 <= j <= i
      invariant forall k :: 0 <= k < j ==> a[k] == old(a[k])
      invariant forall k :: j < k <= i ==> a[k] == old(a[k - 1])
      invariant forall k :: i < k < a.Length ==> a[k] == old(a[k])
    {
      a[j] := a[j - 1];
      j := j - 1;
    }
    a[0] := p;
  }

  ghost function OutCount<T>(s: seq<T>, ob: set<T>): nat { |Restrict(s, ob)| }

  /** Every element in [lo, hi) is, or is not, outbound. */
  ghost predicate AllOut<T>(s: seq<T>, lo: nat, hi: nat, ob: set<T>) {
    hi <= |s| && forall k :: lo <= k < hi ==> s[k] in ob
  }

  ghost predicate NoneOut<T>(s: seq<T>, lo: nat, hi: nat, ob: set<T>) {
    hi <= |s| && forall k :: lo <= k < hi ==> s[k] !in ob
  }

  /**
   * State of the bubbling loops: the first `front` slots are outbound, the rest of [0, i) is not, slots from
   * `i` on are as they were, and the peers that are not outbound kept their order.
   */
  ghost predicate Bubbled<T>(was: seq<T>, s: seq<T>, front: nat, i: nat, ob: set<T>) {
    && |s| == |was| && front <= i <= |s|
    && AllOut(s, 0, front, ob) && NoneOut(s, front, i, ob)
    && s[i..] == was[i..]
    && Without(s, ob) == Without(was, ob)
    && multiset(s) == multiset(was)
    && OutCount(was[..i], ob) == front
  }

  lemma RotatedKeepsOrder<T>(s: seq<T>, i: nat, ob: set<T>)
    requires i < |s| && s[i] in ob
    ensures Without(Rotated(s, i), ob) == Without(s, ob)
    ensures multiset(Rotated(s, i)) == multiset(s)
  {
    var p := [s[i]];
    assert s == s[..i] + p + s[i + 1..];
    assert Without(p, ob) == [];
    hide Without;
    WithoutConcat(s[..i] + p, s[i + 1..], ob);
    WithoutConcat(s[..i], p, ob);
    WithoutConcat(p + s[..i], s[i + 1..], ob);
    WithoutConcat(p, s[..i], ob);
  }

  lemma BubbleStep<T>(was: seq<T>, s: seq<T>, front: nat, i: nat, ob: set<T>)
    requires Bubbled(was, s, front, i, ob) && i < |s|
    ensures s[i] in ob ==> Bubbled(was, Rotated(s, i), front + 1, i + 1, ob)
    ensures s[i] !in ob ==> Bubbled(was, s, front, i + 1, ob)
    ensures OutCount(was[..i + 1], ob) == if s[i] in ob then front + 1 else front
  {
    assert was[i..][0] == s[i..][0];
    assert was[..i + 1] == was[..i] + [s[i]];
    RestrictConcat(was[..i], [s[i]], ob);
    assert was[i + 1..] == was[i..][1..] && s[i + 1..] == s[i..][1..];
    if s[i] in ob {
      RotatedKeepsOrder(s, i, ob);
      var r := Rotated(s, i);
      assert r[i + 1..] == s[i + 1..];
      assert forall k :: 1 <= k <= i ==> r[k] == s[k - 1];
    }
  }

  lemma NoneLeft<T>(s: seq<T>, ob: set<T>)
    requires OutCount(s, ob) == 0
    ensures forall x :: x in s ==> x !in ob
  {
    RestrictMembers(s, ob);
    assert Restrict(s, ob) == [];
  }

  /** Once all the outbound peers before `D` are at the front, the slots up to `D` hold none to move. */
  lemma BubbleSkip<T>(was: seq<T>, s: seq<T>, front: nat, i: nat, D: nat, ob: set<T>)
    requires Bubbled(was, s, front, i, ob) && i <= D <= |s| && OutCount(was[..D], ob) == front
    ensures Bubbled(was, s, front, D, ob)
  {
    assert was[..D] == was[..i] + was[i..D];
    RestrictConcat(was[..i], was[i..D], ob);
    NoneLeft(was[i..D], ob);
    assert s[i..D] == s[i..][..D - i] == was[i..][..D - i] == was[i..D];
    forall k | front <= k < D ensures s[k] !in ob {
      if i <= k {
        assert s[k] == was[i..D][k - i];
      }
    }
    assert s[D..] == s[i..][D - i..] && was[D..] == was[i..][D - i..];
  }

  lemma OutCountPrefix<T>(s: seq<T>, i: nat, ob: set<T>)
    requires i <= |s|
    ensures OutCount(s[..i], ob) <= OutCount(s, ob)
  {
    assert s == s[..i] + s[i..];
    RestrictConcat(s[..i], s[i..], ob);
  }

  lemma OutCountBounded<T>(s: seq<T>, ob: set<T>)
    ensures OutCount(s, ob) <= |s|
  {
    SplitLength(s, ob);
  }

  /**
   * What trimming does to the ordered peers `was`, giving `s`, of which the first `D` are kept. Outbound peers
   * move to the front only when the first `D` fall short of `Dout`.
   */
  ghost predicate Trimmed<T>(was: seq<T>, s: seq<T>, D: nat, Dout: nat, ob: set<T>) {
    && |s| == |was| && D <= |s|
    && multiset(s) == multiset(was)
    && Without(s, ob) == Without(was, ob)
    && if OutCount(was[..D], ob) >= Dout then s == was
       else && OutCount(s[..D], ob) == Min(D, OutCount(was, ob))
            && forall p :: p in was[..D] && p in ob ==> p in s[..D]
  }

  lemma BubbledIsTrimmed<T>(was: seq<T>, s: seq<T>, front: nat, i: nat, D: nat, Dout: nat, ob: set<T>)
    requires Bubbled(was, s, front, i, ob) && front <= D <= i && (front == D || i == |s|)
    requires Distinct(was) && OutCount(was[..D], ob) < Dout
    ensures Trimmed(was, s, D, Dout, ob)
  {
    assert s[..D] == s[..front] + s[front..D];
    RestrictConcat(s[..front], s[front..D], ob);
    RestrictAll(s[..front], ob);
    RestrictNone(s[front..D], ob);
    assert was[..|s|] == was;
    OutCountPrefix(was, i, ob);
    forall k | i <= k < |s| ensures s[k] == was[k] {
      assert s[i..][k - i] == was[i..][k - i];
    }
    PermutationFacts(was, s);
    forall p | p in was[..D] && p in ob ensures p in s[..D] {
      assert p in was;
      var k :| 0 <= k < |s| && s[k] == p;
      assert s[..D][k] == p;
    }
  }

  /** Brings outbound peers forward in place, when the first `D` slots hold fewer than `Dout` of them. */
  method BubbleOutbound<T(==)>(a: array<T>, D: nat, Dout: nat, ob: set<T>)
    requires D <= a.Length && Distinct(a[..])
    modifies a
    ensures Trimmed(old(a[..]), a[..], D, Dout, ob)
  {
    ghost var was := a[..];
    var outbound := CountSelected(a, D, ob);
    hide *;
    if outbound >= Dout {
      LeftAlone(was, D, Dout, ob);
      return;
    }
    if outbound > 0 {
      GatherSelected(a, D, outbound, ob);
    } else {
      BubbleNone(was, D, ob);
    }
    OutCountBounded(was[..D], ob);
    var front, i := FetchUnselected(a, D, outbound, was, ob);
    BubbledIsTrimmed(was, a[..], front, i, D, Dout, ob);
  }

  /** Brings outbound peers outside the selection to the front, until `D` are there or none is left. */
  method FetchUnselected<T(==)>(a: array<T>, D: nat, outbound: nat, ghost was: seq<T>, ob: set<T>)
    returns (ghost front: nat, i: nat)
    requires outbound <= D <= a.Length && Bubbled(was, a[..], outbound, D, ob)
    modifies a
    ensures front <= D <= i <= a.Length && (front == D || i == a.Length)
    ensures Bubbled(was, a[..], front, i, ob)
  {
    hide *;
    ghost var s := a[..];
    var ineed := D - outbound;
    front := outbound;
    i := D;
    while i < a.Length && ineed > 0
      invariant D <= i <= a.Length && ineed == D - front && front <= D
      invariant s == a[..] && Bubbled(was, s, front, i, ob)
    {
      BubbleStep(was, s, front, i, ob);
      assert a[i] == s[i];
      if a[i] in ob {
        Rotate(a, i);
        s := Rotated(s, i);
        ineed := ineed - 1;
        front := front + 1;
      }
      i := i + 1;
    }
  }

  method CountSelected<T(==)>(a: array<T>, D: nat, ob: set<T>) returns (outbound: nat)
    requires D <= a.Length
    ensures outbound == OutCount(a[..D], ob)
  {
    outbound := 0;
    for i := 0 to D
      invariant outbound == OutCount(a[..i], ob)
    {
      assert a[..i + 1] == a[..i] + [a[i]];
      RestrictConcat(a[..i], [a[i]], ob);
      if a[i] in ob {
        outbound := outbound + 1;
      }
    }
  }

  /** Brings the outbound peers among the first `D` to the front; slot 0 needs no look, nothing is before it. */
  method GatherSelected<T(==)>(a: array<T>, D: nat, outbound: nat, ob: set<T>)
    requires 0 < D <= a.Length && outbound == OutCount(a[..D], ob) > 0
    modifies a
    ensures Bubbled(old(a[..]), a[..], outbound, D, ob)
  {
    ghost var was, s := a[..], a[..];
    assert was[..D] == a[..D];
    ghost var first := if a[0] in ob then 1 else 0;
    BubbleFirst(was, ob);
    hide *;
    ghost var front: nat := first;
    var ihave := outbound;
    var i := 1;
    while i < D && ihave > 0
      invariant 1 <= i <= D && ihave == outbound - (front - first)
      invariant s == a[..] && Bubbled(was, s, front, i, ob) && front <= outbound
    {
      BubbleStep(was, s, front, i, ob);
      assert a[i] == s[i];
      OutCountWithin(was, i + 1, D, ob);
      if a[i] in ob {
        Rotate(a, i);
        s := Rotated(s, i);
        ihave := ihave - 1;
        front := front + 1;
      }
      i := i + 1;
    }
    OutCountOf(was, s, front, i, ob);
    BubbleSkip(was, s, front, i, D, ob);
  }

  lemma BubbleFirst<T>(was: seq<T>, ob: set<T>)
    requires was != []
    ensures Bubbled(was, was, if was[0] in ob then 1 else 0, 1, ob)
  {
    assert was[..1] == [was[0]];
    assert Restrict([was[0]], ob) == if was[0] in ob then [was[0]] else [];
  }

  lemma BubbleNone<T>(was: seq<T>, D: nat, ob: set<T>)
    requires D <= |was| && OutCount(was[..D], ob) == 0
    ensures Bubbled(was, was, 0, D, ob)
  {
    NoneLeft(was[..D], ob);
    forall k | 0 <= k < D ensures was[k] !in ob {
      assert was[..D][k] == was[k];
    }
  }

  lemma LeftAlone<T>(was: seq<T>, D: nat, Dout: nat, ob: set<T>)
    requires D <= |was| && OutCount(was[..D], ob) >= Dout
    ensures Trimmed(was, was, D, Dout, ob)
  {
  }

  lemma OutCountWithin<T>(s: seq<T>, i: nat, D: nat, ob: set<T>)
    requires i <= D <= |s|
    ensures OutCount(s[..i], ob) <= OutCount(s[..D], ob)
  {
    assert s[..D][..i] == s[..i];
    OutCountPrefix(s[..D], i, ob);
  }

  lemma OutCountOf<T>(was: seq<T>, s: seq<T>, front: nat, i: nat, ob: set<T>)
    requires Bubbled(was, s, front, i, ob)
    ensures OutCount(was[..i], ob) == front
  {
  }
}
