/** Insertion-ordered sets and the bounded extraction of src/utils/set.ts. */
module SetUtils {
  import opened Seqs

  /** A set that is iterated in insertion order. */
  class OrderedSet<T(==)> {
    var items: seq<T>

    ghost predicate Valid()
      reads this
    {
      Distinct(items)
    }

    constructor ()
      ensures Valid() && items == []
    {
      items := [];
    }

    method Add(x: T)
      requires Valid()
      modifies this
      ensures Valid() && items == if x in old(items) then old(items) else old(items) + [x]
    {
      if x !in items {
        items := items + [x];
      }
    }
  }

  /** The elements of `s` that satisfy `cond`. */
  function Satisfying<T>(s: seq<T>, cond: T -> bool): set<T> { set x | x in s && cond(x) }

  function Taken<T>(s: seq<T>, xs: set<T>, ineed: int): (r: seq<T>)
  {
    Restrict(s, xs)[..Min(Max(ineed, 0), |Restrict(s, xs)|)]
  }

  lemma WithoutFresh<T>(s: seq<T>, xs: set<T>, x: T)
    requires x !in s
    ensures Without(s, xs + {x}) == Without(s, xs)
  {
    if s != [] {
      WithoutFresh(s[1..], xs, x);
      assert s == [s[0]] + s[1..];
    }
  }

  /** The loop's step: element `k` leaves the set exactly when it is taken. */
  lemma AdvanceOne<T>(s: seq<T>, k: nat, good: set<T>, taken: seq<T>)
    requires k < |s| && Distinct(s) && taken == Restrict(s[..k], good)
    ensures
      var kept := Without(s[..k], ToSet(taken));
      if s[k] in good
      then Restrict(s[..k + 1], good) == taken + [s[k]] && Without(s[..k + 1], ToSet(taken + [s[k]])) == kept
      else Restrict(s[..k + 1], good) == taken && Without(s[..k + 1], ToSet(taken)) == kept + [s[k]]
  {
    assert s[..k + 1] == s[..k] + [s[k]];
    RestrictConcat(s[..k], [s[k]], good);
    RestrictMembers(s[..k], good);
    if s[k] in good {
      assert ToSet(taken + [s[k]]) == ToSet(taken) + {s[k]};
      WithoutConcat(s[..k], [s[k]], ToSet(taken + [s[k]]));
      WithoutFresh(s[..k], ToSet(taken), s[k]);
    } else {
      WithoutConcat(s[..k], [s[k]], ToSet(taken));
    }
  }

  /** Stopping at element `k`, at the end or with enough taken, leaves the rest untouched. */
  lemma StopAt<T>(s: seq<T>, k: nat, good: set<T>, taken: seq<T>, ineed: nat)
    requires k <= |s| && Distinct(s) && taken == Restrict(s[..k], good) && |taken| <= ineed
    requires k == |s| || |taken| == ineed
    ensures taken == Taken(s, good, ineed) && Distinct(taken)
    ensures Without(s, ToSet(taken)) == Without(s[..k], ToSet(taken)) + s[k..]
    ensures Distinct(Without(s, ToSet(taken)))
  {
    assert s == s[..k] + s[k..];
    RestrictConcat(s[..k], s[k..], good);
    WithoutConcat(s[..k], s[k..], ToSet(taken));
    RestrictMembers(s[..k], good);
    RestrictNone(s[k..], ToSet(taken));
    RestrictDistinct(s[..k], good);
    WithoutDistinct(s, ToSet(taken));
  }

  lemma DropMiddle<T>(all: seq<T>, kept: seq<T>, rest: seq<T>)
    requires all == kept + rest && rest != []
    ensures all[|kept|] == rest[0] && all[..|kept|] + all[|kept| + 1..] == kept + rest[1..]
    ensures all == (kept + [rest[0]]) + rest[1..]
  {
  }

  /** Takes the first `ineed` satisfying elements out of `superSet`, leaving the others in their order. */
  method RemoveItems<T>(superSet: OrderedSet<T>, ineed: int, cond: T -> bool) returns (subset: seq<T>)
    requires superSet.Valid()
    modifies superSet
    ensures superSet.Valid() && Distinct(subset)
    ensures subset == Taken(old(superSet.items), Satisfying(old(superSet.items), cond), ineed)
    ensures superSet.items == Without(old(superSet.items), ToSet(subset))
  {
    subset := [];
    ghost var s := superSet.items;
    ghost var good := Satisfying(s, cond);
    assert Restrict(s[..0], good) == [] && Without(s[..0], ToSet(subset)) == [];
    hide Restrict, Without;
    if ineed <= 0 {
      StopAt(s, 0, good, [], 0);
      return;
    }
    ghost var k, kept := 0, [];
    var i := 0;
    while i < |superSet.items| && |subset| < ineed
      invariant k <= |s| && |subset| <= ineed && i == |kept|
      invariant subset == Restrict(s[..k], good) && kept == Without(s[..k], ToSet(subset))
      invariant superSet.items == kept + s[k..]
      decreases |superSet.items| - i
    {
      var id := superSet.items[i];
      DropMiddle(superSet.items, kept, s[k..]);
      AdvanceOne(s, k, good, subset);
      assert s[k..][1..] == s[k + 1..];
      if cond(id) {
        subset := subset + [id];
        superSet.items := superSet.items[..i] + superSet.items[i + 1..];
      } else {
        i := i + 1;
        kept := kept + [id];
      }
      k := k + 1;
    }
    StopAt(s, k, good, subset, ineed);
  }
}
