/** What one heartbeat pass guarantees about the mesh of a topic, whatever was drawn. */
module MeshTheorems {
  import opened Types
  import opened Seqs
  import opened MeshSelection
  import opened SetUtils
  import opened MeshPass

  /** Mesh, prune list, graft list and gossip targets agree, and no negative peer is left. */
  lemma MeshMatchesLists(i: Inputs, o: Outcome)
    requires i.Valid() && Maintained(i, o)
    ensures o.peers == i.start - ToSet(o.pruned) + ToSet(o.Grafted())
    ensures ToSet(o.pruned) !! ToSet(o.Grafted()) && o.gossip !! o.peers
    ensures forall p :: p in o.peers ==> i.score(p) >= 0.0
  {
    hide QuotaMade, OpportunisticMade, TrimOf, Distinct;
    assert i.start - i.Survivors() <= ToSet(o.pruned);
    assert forall p :: p in ToSet(o.Grafted()) ==> p in i.candidates;
  }

  /** The three graft lists are apart from each other and from the old mesh; the mesh is put together from them. */
  lemma GraftSets(i: Inputs, o: Outcome)
    requires i.Valid() && Maintained(i, o)
    ensures o.AtQuota() == i.start - ToSet(o.pruned) + ToSet(o.notEnough)
    ensures o.peers == o.AtQuota() + ToSet(o.quota) + ToSet(o.opportunistic)
    ensures o.AtQuota() !! ToSet(o.quota) !! ToSet(o.opportunistic)
    ensures i.start !! ToSet(o.notEnough) && ToSet(o.notEnough) <= ToSet(i.candidates)
    ensures ToSet(o.quota) <= ToSet(i.candidates) && ToSet(o.opportunistic) <= ToSet(i.candidates)
    ensures ToSet(o.Grafted()) == ToSet(o.notEnough) + ToSet(o.quota) + ToSet(o.opportunistic)
    ensures |ToSet(o.notEnough)| == |o.notEnough| && |ToSet(o.quota)| == |o.quota|
    ensures |ToSet(o.opportunistic)| == |o.opportunistic|
  {
    hide ToSet, Distinct, GossipWorthy, Filled, Cut, QuotaMade, OpportunisticMade;
    GraftsDisjoint(o.notEnough, o.quota, o.opportunistic);
    SetsAdd(i.start - ToSet(o.pruned), ToSet(o.notEnough), ToSet(o.quota), ToSet(o.opportunistic));
  }

  lemma GraftsDisjoint(a: seq<PeerId>, b: seq<PeerId>, c: seq<PeerId>)
    requires Distinct(a + b + c)
    ensures ToSet(a) !! ToSet(b) !! ToSet(c) && ToSet(a + b + c) == ToSet(a) + ToSet(b) + ToSet(c)
    ensures |ToSet(a)| == |a| && |ToSet(b)| == |b| && |ToSet(c)| == |c|
  {
    hide *;
    DistinctConcat(a + b, c);
    DistinctConcat(a, b);
    DistinctCardinality(a);
    DistinctCardinality(b);
    DistinctCardinality(c);
  }

  lemma DisjointSizes(a: set<PeerId>, b: set<PeerId>, c: set<PeerId>)
    requires a !! b !! c
    ensures |a + b| == |a| + |b| && |a + b + c| == |a| + |b| + |c|
  {
  }

  /** The mesh at the quota check: what survived or was kept, and what filled it up. */
  lemma AtQuotaIs(i: Inputs, o: Outcome)
    requires i.Valid() && Maintained(i, o) && i.params.Documented()
    ensures o.trim == None ==> o.AtQuota() == i.Survivors() + ToSet(o.notEnough)
    ensures o.trim.Some? ==> |o.AtQuota()| == i.params.D && |i.Survivors()| > i.params.Dhi
    ensures o.trim == None ==> |o.AtQuota()| == |i.Survivors()| + |o.notEnough| <= i.params.Dhi
  {
    hide *;
    GraftSets(i, o);
    FilledAndCut(i, o);
    var s, n := i.Survivors(), ToSet(o.notEnough);
    DisjointSizes(s, n, {});
    if o.trim.Some? {
      var t := o.trim.value;
      TrimPartition(i, t, s + n);
      KeptRemain(i.start, s, n, ToSet(t.kept), ToSet(t.excess), ToSet(o.pruned));
    } else {
      SurvivorsRemain(i.start, s, n, ToSet(o.pruned));
    }
  }

  /** The second and third clause of the contract, unfolded. */
  lemma FilledAndCut(i: Inputs, o: Outcome)
    requires Maintained(i, o) && i.params.Documented()
    ensures i.Survivors() <= i.start
    ensures |i.Survivors()| >= i.params.Dlo ==> o.notEnough == [] && ToSet(o.notEnough) == {}
    ensures |i.Survivors()| < i.params.Dlo ==> |i.Survivors()| + |o.notEnough| <= i.params.Dhi
    ensures var mesh := i.Survivors() + ToSet(o.notEnough);
            match o.trim
            case None => |mesh| <= i.params.Dhi && ToSet(o.pruned) == i.start - i.Survivors()
            case Some(t) => && |mesh| > i.params.Dhi && TrimOf(i, t, mesh)
                            && ToSet(o.pruned) == i.start - i.Survivors() + ToSet(t.excess)
  {
    hide TrimOf, InStep, QuotaMade, OpportunisticMade;
  }

  lemma TrimPartition(i: Inputs, t: Trim, mesh: set<PeerId>)
    requires TrimOf(i, t, mesh)
    ensures ToSet(t.kept) + ToSet(t.excess) == mesh && ToSet(t.kept) !! ToSet(t.excess)
    ensures |ToSet(t.kept)| == i.params.D
  {
    SelectionPartitions(t.order, t.kept, t.excess, i.score, i.params.D, i.params.Dscore, i.params.Dout, i.outbound);
  }

  lemma KeptRemain(start: set<PeerId>, s: set<PeerId>, n: set<PeerId>, kept: set<PeerId>, excess: set<PeerId>,
                   pruned: set<PeerId>)
    requires s <= start && n == {} && kept + excess == s + n && kept !! excess && pruned == start - s + excess
    ensures start - pruned + n == kept
  {
  }

  lemma SurvivorsRemain(start: set<PeerId>, s: set<PeerId>, n: set<PeerId>, pruned: set<PeerId>)
    requires s <= start && pruned == start - s
    ensures start - pruned + n == s + n
  {
  }

  /** The size of the mesh before the last two graftings. */
  lemma AtQuotaSize(i: Inputs, o: Outcome)
    requires i.Valid() && Maintained(i, o) && i.params.Documented()
    ensures Min(i.params.Dlo, |i.Survivors()| + |i.candidates|) <= |o.AtQuota()| <= i.params.Dhi
    ensures |o.AtQuota()| < i.params.Dlo ==> ToSet(i.candidates) == ToSet(o.notEnough)
  {
    AtQuotaIs(i, o);
    GraftSets(i, o);
    FilledExact(i, o);
    DistinctCandidates(i);
    hide Maintained, ToSet, Distinct, i.Survivors, i.Valid, o.AtQuota, o.Grafted;
    SubsetCardinality(ToSet(o.notEnough), ToSet(i.candidates));
  }

  /** How many candidates fill the mesh up. */
  lemma FilledExact(i: Inputs, o: Outcome)
    requires Maintained(i, o) && i.params.Documented()
    ensures var n := |i.Survivors()|;
            |o.notEnough| == if n < i.params.Dlo then Min(i.params.D - n, |i.candidates|) else 0
  {
    hide InStep, Cut, QuotaMade, OpportunisticMade, i.Survivors;
  }

  /** Neither too few peers nor, beyond the last two graftings, too many. */
  lemma MeshSizeBounded(i: Inputs, o: Outcome)
    requires i.Valid() && Maintained(i, o) && i.params.Documented()
    ensures |o.peers| >= Min(i.params.Dlo, |i.Survivors()| + |i.candidates|)
    ensures |o.peers| <= i.params.Dhi + i.params.Dout + i.params.opportunisticGraftPeers
  {
    hide *;
    AtQuotaSize(i, o);
    GraftSets(i, o);
    GraftCounts(i, o);
    DisjointSizes(o.AtQuota(), ToSet(o.quota), ToSet(o.opportunistic));
  }

  lemma GraftCounts(i: Inputs, o: Outcome)
    requires i.Valid() && Maintained(i, o)
    ensures |o.quota| <= i.params.Dout && |o.opportunistic| <= i.params.opportunisticGraftPeers
  {
    hide InStep, ToSet, Filled, Cut, MedianOf, Restrict;
  }

  /** As many outbound peers are grafted as are missing, or as there are left among the candidates. */
  lemma QuotaExact(i: Inputs, o: Outcome)
    requires i.Valid() && Maintained(i, o)
    ensures var have := OutSize(o.AtQuota(), i.outbound);
            |o.quota| == if |o.AtQuota()| >= i.params.Dlo && have < i.params.Dout
                         then Min(i.params.Dout - have, OutSize(ToSet(i.candidates) - ToSet(o.notEnough), i.outbound))
                         else 0
    ensures ToSet(o.quota) <= i.outbound
  {
    var left := Remaining(i, o.notEnough);
    WithoutDistinct(i.candidates, ToSet(o.notEnough));
    RemainingFacts(i.candidates, o.notEnough);
    var have := OutSize(o.AtQuota(), i.outbound);
    hide InStep, Filled, Cut, OpportunisticMade, Distinct, ToSet, Taken, Without;
    if |o.AtQuota()| >= i.params.Dlo && have < i.params.Dout {
      TakenFacts(left, i.outbound, i.params.Dout - have);
    } else {
      NoPeers(o.quota);
    }
  }

  lemma NoPeers(s: seq<PeerId>)
    requires s == []
    ensures ToSet(s) == {}
  {
  }

  // ----- opportunistic grafting

  /** There is one median. */
  lemma MedianUnique(mesh: set<PeerId>, score: PeerId -> real, x: real, y: real)
    requires MedianOf(mesh, score, x) && MedianOf(mesh, score, y)
    ensures x == y
  {
    if x < y {
      MedianNotLess(mesh, score, x, y);
    } else if y < x {
      MedianNotLess(mesh, score, y, x);
    }
  }

  lemma MedianNotLess(mesh: set<PeerId>, score: PeerId -> real, x: real, y: real)
    requires MedianOf(mesh, score, x) && MedianOf(mesh, score, y)
    ensures x >= y
  {
    if x < y {
      DisjointWithin(AtMost(mesh, score, x), mesh - Below(mesh, score, y), mesh);
    }
  }

  lemma DisjointWithin(a: set<PeerId>, b: set<PeerId>, mesh: set<PeerId>)
    requires a !! b && a <= mesh && b <= mesh
    ensures |a| + |b| <= |mesh|
  {
    SubsetCardinality(a + b, mesh);
  }

  /** The median is the score of a peer of the mesh. */
  lemma MedianIsScore(mesh: set<PeerId>, score: PeerId -> real, median: real)
    requires mesh != {} && MedianOf(mesh, score, median)
    ensures exists p :: p in mesh && score(p) == median
  {
    var low, high := AtMost(mesh, score, median), mesh - Below(mesh, score, median);
    if low !! high {
      DisjointWithin(low, high, mesh);
    } else {
      var p :| p in low && p in high;
    }
  }

  /** A mesh with nothing to be done about: no size, score or quota asks for a change. */
  ghost predicate Settled(mesh: set<PeerId>, score: PeerId -> real, outbound: set<PeerId>, params: MeshParams,
                          tick: bool) {
    && params.Dlo <= |mesh| <= params.Dhi && OutSize(mesh, outbound) >= params.Dout
    && (forall p :: p in mesh ==> score(p) >= 0.0)
    && (tick ==> forall p :: p in mesh ==> score(p) >= params.opportunisticGraftThreshold)
  }

  /** The pass leaves a settled mesh as it is. */
  lemma SettledStays(i: Inputs, o: Outcome)
    requires i.Valid() && Maintained(i, o) && Settled(i.start, i.score, i.outbound, i.params, i.opportunisticTick)
    ensures o.peers == i.start && o.pruned == [] && o.Grafted() == []
  {
    hide *;
    NothingBeforeQuota(i, o);
    NothingForQuota(i, o);
    NothingAfterQuota(i, o);
    GraftSets(i, o);
    EmptyToSet(o.quota);
    EmptyToSet(o.opportunistic);
    NothingGrafted(o);
  }

  lemma NothingGrafted(o: Outcome)
    requires o.notEnough == [] && o.quota == [] && o.opportunistic == []
    ensures o.Grafted() == []
  {
  }

  lemma NothingForQuota(i: Inputs, o: Outcome)
    requires i.Valid() && Maintained(i, o) && Settled(i.start, i.score, i.outbound, i.params, i.opportunisticTick)
    requires o.notEnough == [] && o.pruned == []
    ensures o.AtQuota() == i.start && o.quota == []
  {
    hide *;
    GraftSets(i, o);
    EmptyToSet(o.notEnough);
    EmptyToSet(o.pruned);
    QuotaIsMade(i, o);
    assert i.start - {} + {} == i.start;
    QuotaMetAlready(i, Remaining(i, o.notEnough), o.quota);
  }

  lemma QuotaIsMade(i: Inputs, o: Outcome)
    requires Maintained(i, o)
    ensures QuotaMade(i, o.AtQuota(), Remaining(i, o.notEnough), o.quota)
  {
    hide InStep, Filled, Cut, QuotaMade, OpportunisticMade, Remaining, o.AtQuota;
  }

  lemma QuotaMetAlready(i: Inputs, left: seq<PeerId>, quota: seq<PeerId>)
    requires Settled(i.start, i.score, i.outbound, i.params, i.opportunisticTick) && QuotaMade(i, i.start, left, quota)
    ensures quota == []
  {
    hide OutSize;
  }

  lemma NothingAfterQuota(i: Inputs, o: Outcome)
    requires i.Valid() && Maintained(i, o) && Settled(i.start, i.score, i.outbound, i.params, i.opportunisticTick)
    requires o.AtQuota() == i.start && o.quota == []
    ensures o.opportunistic == []
  {
    GraftSets(i, o);
    EmptyToSet(o.quota);
    hide i.Valid, InStep, Filled, Cut, QuotaMade, OpportunisticMade, ToSet, Remaining, o.AtQuota, Settled;
    NoneOpportunistic(i, o);
  }

  lemma NothingBeforeQuota(i: Inputs, o: Outcome)
    requires Maintained(i, o) && Settled(i.start, i.score, i.outbound, i.params, i.opportunisticTick)
    ensures o.notEnough == [] && o.pruned == []
  {
    hide *;
    AllSurvive(i);
    SizesAre(i, o);
    EmptyToSet(o.notEnough);
    NotFilled(i, o.notEnough);
    assert i.start + {} == i.start;
    NotCut(i, o.trim, ToSet(o.pruned));
    EmptyToSet(o.pruned);
  }

  lemma AllSurvive(i: Inputs)
    requires Settled(i.start, i.score, i.outbound, i.params, i.opportunisticTick)
    ensures i.Survivors() == i.start
  {
  }

  lemma SizesAre(i: Inputs, o: Outcome)
    requires Maintained(i, o)
    ensures Filled(i, o.notEnough) && Cut(i, i.Survivors() + ToSet(o.notEnough), o.trim, ToSet(o.pruned))
  {
    hide InStep, Filled, Cut, QuotaMade, OpportunisticMade, Remaining, o.AtQuota;
  }

  lemma NotFilled(i: Inputs, notEnough: seq<PeerId>)
    requires Filled(i, notEnough) && i.Survivors() == i.start
    requires Settled(i.start, i.score, i.outbound, i.params, i.opportunisticTick)
    ensures notEnough == []
  {
    hide FirstOf, OutSize, i.Survivors;
  }

  lemma NotCut(i: Inputs, trim: Option<Trim>, pruned: set<PeerId>)
    requires Cut(i, i.start, trim, pruned) && i.Survivors() == i.start
    requires Settled(i.start, i.score, i.outbound, i.params, i.opportunisticTick)
    ensures pruned == {}
  {
    hide TrimOf, OutSize, i.Survivors;
  }

  lemma EmptyToSet<T>(s: seq<T>)
    ensures ToSet(s) == {} <==> s == []
  {
    assert s != [] ==> s[0] in ToSet(s);
  }

  lemma NoneOpportunistic(i: Inputs, o: Outcome)
    requires Settled(i.start, i.score, i.outbound, i.params, i.opportunisticTick)
    requires o.peers - ToSet(o.opportunistic) == i.start
    requires OpportunisticMade(i, i.start, Remaining(i, o.notEnough + o.quota), o.opportunistic)
    ensures o.opportunistic == []
  {
    if i.opportunisticTick && |i.start| > 1 {
      var left := Remaining(i, o.notEnough + o.quota);
      var median :| MedianOf(i.start, i.score, median) && o.opportunistic == Improvers(i, left, median);
      MedianIsScore(i.start, i.score, median);
    }
  }

  /**
   * On a tick, with more than one peer in the mesh and its median below the threshold, as many of the remaining
   * candidates above the median are grafted as the parameter allows and there are; otherwise none.
   */
  lemma OpportunisticExact(i: Inputs, o: Outcome, median: real)
    requires i.Valid() && Maintained(i, o)
    requires |o.peers - ToSet(o.opportunistic)| > 1 ==> MedianOf(o.peers - ToSet(o.opportunistic), i.score, median)
    ensures var mesh := o.peers - ToSet(o.opportunistic);
            var left := Remaining(i, o.notEnough + o.quota);
            var due := i.opportunisticTick && |mesh| > 1 && median < i.params.opportunisticGraftThreshold;
            && |o.opportunistic|
               == (if due then Min(i.params.opportunisticGraftPeers, |Above(left, i.score, median)|) else 0)
            && forall p :: p in o.opportunistic ==> p in left && i.score(p) > median
  {
    var mesh, left := o.peers - ToSet(o.opportunistic), Remaining(i, o.notEnough + o.quota);
    WithoutDistinct(i.candidates, ToSet(o.notEnough + o.quota));
    if i.opportunisticTick && |mesh| > 1 {
      var m :| MedianOf(mesh, i.score, m) && o.opportunistic == Improvers(i, left, m);
      MedianUnique(mesh, i.score, m, median);
      ImproversFacts(i, left, median);
    }
  }

  lemma ImproversFacts(i: Inputs, left: seq<PeerId>, median: real)
    requires Distinct(left)
    ensures var grafts := Improvers(i, left, median);
            && |grafts| == (if median < i.params.opportunisticGraftThreshold
                            then Min(i.params.opportunisticGraftPeers, |Above(left, i.score, median)|) else 0)
            && forall p :: p in grafts ==> p in left && i.score(p) > median
  {
    var xs, k := Above(left, i.score, median), i.params.opportunisticGraftPeers;
    TakenFacts(left, xs, k);
    assert ToSet(left) * xs == xs;
    forall p | p in Taken(left, xs, k) ensures p in xs {
      assert p in ToSet(Taken(left, xs, k));
    }
    hide Taken, Distinct, ToSet;
  }

  /** The mesh ends with `Dout` outbound peers, unless every outbound candidate was grafted. */
  lemma OutboundQuotaMet(i: Inputs, o: Outcome)
    requires i.Valid() && Maintained(i, o) && i.params.Documented()
    ensures || OutSize(o.peers, i.outbound) >= i.params.Dout
            || (ToSet(i.candidates) - ToSet(o.Grafted())) * i.outbound == {}
  {
    AtQuotaSize(i, o);
    GraftSets(i, o);
    QuotaExact(i, o);
    hide Maintained, ToSet, Distinct, i.Survivors, i.Valid, o.AtQuota, o.Grafted;
    QuotaCounts(o.AtQuota(), ToSet(i.candidates) - ToSet(o.notEnough), ToSet(o.quota), ToSet(o.opportunistic),
                i.outbound, i.params.Dout);
  }

  lemma QuotaCounts(m: set<PeerId>, left: set<PeerId>, q: set<PeerId>, op: set<PeerId>, ob: set<PeerId>, Dout: nat)
    requires m !! q
    ensures |(m + q + op) * ob| >= |m * ob|
    ensures q <= ob ==> |(m + q + op) * ob| >= |m * ob| + |q|
    ensures q <= left && q <= ob && |q| == |left * ob| ==> (left - q) * ob == {}
  {
    SubsetCardinality(m * ob, (m + q + op) * ob);
    if q <= ob {
      assert (m * ob) !! q;
      SubsetCardinality(m * ob + q, (m + q + op) * ob);
    }
    if q <= left && q <= ob {
      SubsetCardinality(q, left * ob);
    }
  }

  /** The mesh holds what was grafted, and otherwise only survivors. */
  lemma PeersFrom(i: Inputs, o: Outcome)
    requires i.Valid() && Maintained(i, o)
    ensures ToSet(o.Grafted()) <= o.peers <= i.Survivors() + ToSet(i.candidates)
  {
    MeshMatchesLists(i, o);
    hide QuotaMade, OpportunisticMade, TrimOf, Distinct, Filled, Cut;
    forall p | p in o.peers ensures p in i.Survivors() + ToSet(i.candidates) {
      assert p in i.start || p in ToSet(o.Grafted());
    }
  }

  lemma DistinctCandidates(i: Inputs)
    requires i.Valid()
    ensures |ToSet(i.candidates)| == |i.candidates|
  {
    DistinctCardinality(i.candidates);
  }
}
