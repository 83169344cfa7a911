/** Which peers of an over-subscribed mesh are kept, and what that choice promises. */
module MeshSelection {
  import opened Seqs
  import opened MeshTrim
  import Shuffle

  ghost predicate Ranked<T>(s: seq<T>, score: T -> real) {
    forall i, j :: 0 <= i < j < |s| ==> score(s[i]) >= score(s[j])
  }

  /** The first `n` peers are the best ones, best first. */
  ghost predicate TopRanked<T>(s: seq<T>, n: nat, score: T -> real) {
    n <= |s| && forall i, j :: 0 <= i < n && i < j < |s| ==> score(s[i]) >= score(s[j])
  }

  /** Array.from: the elements of a set in some order. */
  method Enumerate<T(==)>(xs: set<T>) returns (s: seq<T>)
    ensures ToSet(s) == xs && Distinct(s) && |s| == |xs|
  {
    s := [];
    var rest := xs;
    while rest != {}
      invariant rest <= xs && ToSet(s) == xs - rest && Distinct(s)
      decreases rest
    {
      var x :| x in rest;
      assert ToSet(s + [x]) == ToSet(s) + {x};
      s := s + [x];
      rest := rest - {x};
    }
    DistinctCardinality(s);
  }

  /** The number of peers at the head of the ranking that are not below `x`. */
  method RankOf<T>(r: seq<T>, x: T, score: T -> real) returns (k: nat)
    requires Ranked(r, score)
    ensures k <= |r|
    ensures forall j :: 0 <= j < k ==> score(r[j]) >= score(x)
    ensures forall j :: k <= j < |r| ==> score(x) >= score(r[j])
  {
    k := 0;
    while k < |r| && score(r[k]) >= score(x)
      invariant 0 <= k <= |r|
      invariant forall j :: 0 <= j < k ==> score(r[j]) >= score(x)
    {
      k := k + 1;
    }
  }

  /** Array.prototype.sort with the comparator `score(b) - score(a)`. */
  method SortByScore<T>(s: seq<T>, score: T -> real) returns (r: seq<T>)
    ensures multiset(r) == multiset(s) && Ranked(r, score)
  {
    r := [];
    for i := 0 to |s|
      invariant multiset(r) == multiset(s[..i]) && Ranked(r, score)
    {
      var k := RankOf(r, s[i], score);
      assert s[..i + 1] == s[..i] + [s[i]];
      InsertAt(r, k, s[i]);
      r := r[..k] + [s[i]] + r[k..];
    }
    assert s[..|s|] == s;
  }

  lemma InsertAt<T>(r: seq<T>, k: nat, x: T)
    requires k <= |r|
    ensures multiset(r[..k] + [x] + r[k..]) == multiset(r) + multiset{x}
  {
    assert r == r[..k] + r[k..];
  }

  /** What choosing the peers to keep guarantees; `order` is the array after sorting and shuffling the tail. */
  ghost predicate Selection<T(!new)>(order: seq<T>, kept: seq<T>, excess: seq<T>, score: T -> real,
                                     D: nat, Dscore: nat, Dout: nat, ob: set<T>) {
    && Distinct(order) && TopRanked(order, Dscore, score)
    && |kept| == D && Trimmed(order, kept + excess, D, Dout, ob)
  }

  /** `shuffle(s.slice(n))`: a rearrangement of what follows the first `n`. */
  method ShuffledSlice<T>(s: seq<T>, n: nat) returns (r: seq<T>)
    requires n <= |s|
    ensures multiset(r) == multiset(s[n..])
  {
    var slice := s[n..];
    var a := new T[|slice|](i requires 0 <= i < |slice| => slice[i]);
    assert a[..] == slice;
    ghost var draws := Shuffle.ShuffleArray(a);
    r := a[..];
  }

  /** The array after bubbling, cut after the first `D`. */
  method BubbledSplit<T(==)>(order: seq<T>, D: nat, Dout: nat, ob: set<T>) returns (kept: seq<T>, excess: seq<T>)
    requires D <= |order| && Distinct(order)
    ensures |kept| == D && Trimmed(order, kept + excess, D, Dout, ob)
  {
    var peersArray := new T[|order|](i requires 0 <= i < |order| => order[i]);
    assert peersArray[..] == order;
    BubbleOutbound(peersArray, D, Dout, ob);
    kept, excess := peersArray[..D], peersArray[D..];
    assert kept + excess == peersArray[..];
  }

  /** Splits an over-subscribed mesh into the peers kept and the peers to prune. */
  method SelectPeers<T(==, !new)>(peers: set<T>, score: T -> real, D: nat, Dscore: nat, Dout: nat, ob: set<T>)
    returns (kept: seq<T>, excess: seq<T>, ghost order: seq<T>)
    requires Dscore <= D <= |peers|
    ensures ToSet(order) == peers && Selection(order, kept, excess, score, D, Dscore, Dout, ob)
  {
    var listed := Enumerate(peers);
    var sorted := SortByScore(listed, score);
    PermutationFacts(listed, sorted);
    var tail := ShuffledSlice(sorted, Dscore);
    var peersArray := sorted[..Dscore] + tail;
    ShuffledTail(sorted, tail, Dscore, score);
    kept, excess := BubbledSplit(peersArray, D, Dout, ob);
    order := peersArray;
  }

  lemma ShuffledTail<T>(sorted: seq<T>, tail: seq<T>, n: nat, score: T -> real)
    requires n <= |sorted| && Ranked(sorted, score) && Distinct(sorted)
    requires multiset(tail) == multiset(sorted[n..])
    ensures TopRanked(sorted[..n] + tail, n, score) && Distinct(sorted[..n] + tail)
    ensures ToSet(sorted[..n] + tail) == ToSet(sorted) && |sorted[..n] + tail| == |sorted|
  {
    var order := sorted[..n] + tail;
    assert sorted == sorted[..n] + sorted[n..];
    PermutationFacts(sorted[n..], tail);
    PermutationFacts(sorted, order);
    forall i, j | 0 <= i < n && i < j < |order| ensures score(order[i]) >= score(order[j]) {
      if j >= n {
        assert tail[j - n] in sorted[n..];
        var k :| 0 <= k < |sorted[n..]| && sorted[n..][k] == order[j];
        assert sorted[n + k] == order[j];
      }
    }
  }

  // ----- what the selection promises

  lemma SelectionPartitions<T(!new)>(order: seq<T>, kept: seq<T>, excess: seq<T>, score: T -> real,
                                     D: nat, Dscore: nat, Dout: nat, ob: set<T>)
    requires Selection(order, kept, excess, score, D, Dscore, Dout, ob)
    ensures Distinct(kept) && Distinct(excess) && |ToSet(kept)| == D
    ensures ToSet(kept) + ToSet(excess) == ToSet(order) && ToSet(kept) !! ToSet(excess)
    ensures forall x :: x in excess ==> x in order && x !in kept
  {
    hide Restrict, Without, OutCount, TopRanked;
    PermutationFacts(order, kept + excess);
    DistinctConcat(kept, excess);
    DistinctCardinality(kept);
    hide *;
    forall x | x in excess ensures x in order && x !in kept {
      assert x in kept + excess;
      InSets(kept, excess, x);
    }
  }

  lemma InSets<T>(kept: seq<T>, excess: seq<T>, x: T)
    requires ToSet(kept) !! ToSet(excess) && x in excess
    ensures x !in kept
  {
    assert x in ToSet(excess);
  }

  /** At least `Dout` outbound peers survive, or all there are; after bubbling, as many as fit. */
  lemma SelectionKeepsOutbound<T(!new)>(order: seq<T>, kept: seq<T>, excess: seq<T>, score: T -> real,
                                        D: nat, Dscore: nat, Dout: nat, ob: set<T>)
    requires Selection(order, kept, excess, score, D, Dscore, Dout, ob) && Dout <= D
    ensures OutCount(kept, ob) >= Min(Dout, OutCount(order, ob))
    ensures OutCount(order[..D], ob) < Dout ==> OutCount(kept, ob) == Min(D, OutCount(order, ob))
  {
    assert (kept + excess)[..D] == kept;
  }

  /** The kept peers that are not outbound are the first of those that are not, in ranking order. */
  lemma KeptPrefix<T(!new)>(order: seq<T>, kept: seq<T>, excess: seq<T>, score: T -> real,
                            D: nat, Dscore: nat, Dout: nat, ob: set<T>)
    requires Selection(order, kept, excess, score, D, Dscore, Dout, ob)
    ensures Without(order, ob) == Without(kept, ob) + Without(excess, ob)
    ensures |Without(kept, ob)| == D - OutCount(kept, ob)
  {
    hide Restrict, Without, TopRanked, Distinct;
    WithoutConcat(kept, excess, ob);
    SplitLength(kept, ob);
  }

  /** The element at `i` is kept by `Without`, at the index counting those kept before it. */
  lemma WithoutAt<T>(s: seq<T>, ob: set<T>, i: nat)
    requires i < |s| && s[i] !in ob
    ensures |Without(s[..i], ob)| < |Without(s, ob)| && Without(s, ob)[|Without(s[..i], ob)|] == s[i]
  {
    assert s == s[..i] + ([s[i]] + s[i + 1..]);
    WithoutConcat(s[..i], [s[i]] + s[i + 1..], ob);
    WithoutConcat([s[i]], s[i + 1..], ob);
    assert Without([s[i]], ob) == [s[i]];
  }

  lemma WithoutPrefix<T>(s: seq<T>, ob: set<T>, i: nat, j: nat)
    requires i < j <= |s| && s[i] !in ob
    ensures |Without(s[..i], ob)| < |Without(s[..j], ob)|
  {
    assert s[..j][..i] == s[..i];
    WithoutAt(s[..j], ob, i);
  }

  /** Among peers that are not outbound, pruning one means pruning all ranked after it. */
  lemma RankRespected<T(!new)>(order: seq<T>, kept: seq<T>, excess: seq<T>, score: T -> real,
                               D: nat, Dscore: nat, Dout: nat, ob: set<T>, i: nat, j: nat)
    requires Selection(order, kept, excess, score, D, Dscore, Dout, ob)
    requires i < j < |order| && order[i] !in ob && order[j] !in ob && order[i] in excess
    ensures order[j] in excess
  {
    hide *;
    KeptPrefix(order, kept, excess, score, D, Dscore, Dout, ob);
    SelectionPartitions(order, kept, excess, score, D, Dscore, Dout, ob);
    WithoutAt(order, ob, i);
    WithoutAt(order, ob, j);
    WithoutPrefix(order, ob, i, j);
    WithoutMembers(kept, ob);
    WithoutMembers(excess, ob);
    AfterPrefix(Without(kept, ob), Without(excess, ob), |Without(order[..i], ob)|, |Without(order[..j], ob)|);
  }

  lemma AfterPrefix<T>(k: seq<T>, e: seq<T>, x: nat, y: nat)
    requires x < y < |k + e| && (k + e)[x] !in k
    ensures (k + e)[y] in e
  {
  }

  /** So a top-scored peer is pruned only along with every lower-scored peer that is not outbound either. */
  lemma TopScoreRespected<T(!new)>(order: seq<T>, kept: seq<T>, excess: seq<T>, score: T -> real,
                                   D: nat, Dscore: nat, Dout: nat, ob: set<T>, p: T, q: T)
    requires Selection(order, kept, excess, score, D, Dscore, Dout, ob)
    requires p in order[..Dscore] && q in order && p !in ob && q !in ob && score(q) < score(p)
    requires p in excess
    ensures q in excess
  {
    hide Restrict, Without, OutCount, Trimmed, Distinct;
    var i :| 0 <= i < Dscore && order[i] == p;
    var j :| 0 <= j < |order| && order[j] == q;
    RankRespected(order, kept, excess, score, D, Dscore, Dout, ob, i, j);
  }

  /**
   * When the `Dscore` best peers all survive: exactly if no bubbling is needed, or if those of them that are
   * not outbound fit beside the outbound peers brought forward.
   */
  lemma TopScoresKeptIff<T(!new)>(order: seq<T>, kept: seq<T>, excess: seq<T>, score: T -> real,
                                  D: nat, Dscore: nat, Dout: nat, ob: set<T>)
    requires Selection(order, kept, excess, score, D, Dscore, Dout, ob) && Dscore <= D
    ensures (forall p :: p in order[..Dscore] ==> p in kept) <==>
            (|| OutCount(order[..D], ob) >= Dout
             || |Without(order[..Dscore], ob)| <= D - Min(D, OutCount(order, ob)))
  {
    hide *;
    SelectionCases(order, kept, excess, score, D, Dscore, Dout, ob);
    var top := order[..Dscore];
    TopWithinFirst(order, Dscore, D);
    if OutCount(order[..D], ob) < Dout {
      KeptPrefix(order, kept, excess, score, D, Dscore, Dout, ob);
      SelectionPartitions(order, kept, excess, score, D, Dscore, Dout, ob);
      assert order == top + order[Dscore..];
      WithoutConcat(top, order[Dscore..], ob);
      TopFits(top, Without(order[Dscore..], ob), kept, excess, ob);
    }
  }

  lemma TopWithinFirst<T(!new)>(order: seq<T>, Dscore: nat, D: nat)
    requires Dscore <= D <= |order|
    ensures forall p :: p in order[..Dscore] ==> p in order[..D]
  {
    assert order[..Dscore] == order[..D][..Dscore];
  }

  lemma SelectionCases<T(!new)>(order: seq<T>, kept: seq<T>, excess: seq<T>, score: T -> real,
                                D: nat, Dscore: nat, Dout: nat, ob: set<T>)
    requires Selection(order, kept, excess, score, D, Dscore, Dout, ob)
    ensures D <= |order| && |kept| == D
    ensures if OutCount(order[..D], ob) >= Dout then kept == order[..D]
            else && OutCount(kept, ob) == Min(D, OutCount(order, ob))
                 && forall p :: p in order[..D] && p in ob ==> p in kept
  {
    hide Restrict, Without, OutCount, TopRanked, Distinct;
    assert (kept + excess)[..D] == kept;
  }

  lemma TopFits<T(!new)>(top: seq<T>, after: seq<T>, kept: seq<T>, excess: seq<T>, ob: set<T>)
    requires Without(top, ob) + after == Without(kept, ob) + Without(excess, ob)
    requires ToSet(kept) !! ToSet(excess)
    ensures (forall p :: p in top && p !in ob ==> p in kept) <==> |Without(top, ob)| <= |Without(kept, ob)|
  {
    WithoutMembers(top, ob);
    WithoutMembers(kept, ob);
    WithoutMembers(excess, ob);
    var t, k, e := Without(top, ob), Without(kept, ob), Without(excess, ob);
    if |t| <= |k| {
      forall p | p in t ensures p in kept {
        var i :| 0 <= i < |t| && t[i] == p;
        assert p == (t + after)[i] == (k + e)[i] == k[i];
      }
    } else {
      assert t[|k|] == (t + after)[|k|] == (k + e)[|k|] == e[0];
      assert t[|k|] in top && t[|k|] !in ob && t[|k|] in ToSet(excess);
    }
  }

  /** When none of the first `D` is outbound and `D` peers after them are, those `D` replace all of the first. */
  lemma AllDisplaced<T(!new)>(first: seq<T>, others: seq<T>, kept: seq<T>, score: T -> real,
                              Dscore: nat, Dout: nat, ob: set<T>)
    requires Distinct(first + others) && TopRanked(first + others, Dscore, score)
    requires (forall p :: p in first ==> p !in ob) && (forall p :: p in others ==> p in ob)
    requires |first| == |others| == |kept| && multiset(kept) == multiset(others) && 1 <= Dout
    ensures Selection(first + others, kept, first, score, |first|, Dscore, Dout, ob)
  {
    hide *;
    PermutationFacts(kept, others);
    assert forall p :: p in kept ==> p in ob;
    DisplacedFacts(first, others, kept, ob);
    DisplacedIsTrimmed(first, others, kept, first + others, kept + first, Dout, ob);
    SelectionOf(first + others, kept, first, score, Dscore, Dout, ob);
  }

  lemma SelectionOf<T(!new)>(order: seq<T>, kept: seq<T>, excess: seq<T>, score: T -> real,
                             Dscore: nat, Dout: nat, ob: set<T>)
    requires Distinct(order) && TopRanked(order, Dscore, score)
    requires Trimmed(order, kept + excess, |kept|, Dout, ob)
    ensures Selection(order, kept, excess, score, |kept|, Dscore, Dout, ob)
  {
    hide Distinct, TopRanked, Trimmed;
  }

  lemma DisplacedFacts<T(!new)>(first: seq<T>, others: seq<T>, kept: seq<T>, ob: set<T>)
    requires forall p :: p in first ==> p !in ob
    requires (forall p :: p in others ==> p in ob) && (forall p :: p in kept ==> p in ob)
    ensures Restrict(first + others, ob) == others && Restrict(first, ob) == [] && Restrict(kept, ob) == kept
    ensures Without(first + others, ob) == first && Without(kept + first, ob) == first
  {
    hide *;
    RestrictNone(first, ob);
    RestrictAll(others, ob);
    RestrictAll(kept, ob);
    RestrictConcat(first, others, ob);
    WithoutConcat(first, others, ob);
    WithoutConcat(kept, first, ob);
  }

  lemma DisplacedIsTrimmed<T(!new)>(first: seq<T>, others: seq<T>, kept: seq<T>, was: seq<T>, s: seq<T>,
                                    Dout: nat, ob: set<T>)
    requires was == first + others && s == kept + first && |first| == |others| == |kept|
    requires multiset(kept) == multiset(others) && 1 <= Dout
    requires Restrict(was, ob) == others && Restrict(first, ob) == [] && Restrict(kept, ob) == kept
    requires Without(was, ob) == first == Without(s, ob)
    ensures Trimmed(was, s, |first|, Dout, ob)
  {
    hide Restrict, Without;
    assert was[..|first|] == first && s[..|first|] == kept;
    RestrictMembers(first, ob);
  }

  /** With D = 2, Dscore = 1 and Dout = 1, the best of four peers is pruned. */
  lemma BestPeerCanBeDisplaced(score: int -> real)
    requires score(0) > score(1) && score(0) > score(2) && score(0) > score(3)
    ensures Selection([0, 1] + [2, 3], [3, 2], [0, 1], score, 2, 1, 1, {2, 3})
  {
    AllDisplaced([0, 1], [2, 3], [3, 2], score, 1, 1, {2, 3});
  }
}
