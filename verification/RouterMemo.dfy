/** The heartbeat depends on no scores but those it consults. */
module RouterMemo {
  import opened Types
  import opened Seqs
  import opened MeshTrim
  import opened MeshSelection
  import opened SetUtils
  import opened MeshPass
  import opened RouterModel
  import opened RouterInvariants

  /** A subscriber with a stream of a protocol we speak, not a configured peer. */
  predicate Contactable(c: Config, s: State, t: Topic, p: PeerId) {
    t in s.topics && p in s.topics[t] && p in s.streams && s.streams[p] in c.multicodecs && p !in c.direct
  }

  predicate InMeshOrNear(c: Config, s: State, t: Topic, p: PeerId) {
    t in s.mesh && (p in s.mesh[t] || Contactable(c, s, t, p))
  }

  predicate InFanoutOrNear(c: Config, s: State, now: int, t: Topic, p: PeerId) {
    && t in s.fanout && (t in s.fanoutLastpub ==> s.fanoutLastpub[t] + c.fanoutTTL >= now)
    && ((p in s.fanout[t] && t in s.topics && p in s.topics[t]) || Contactable(c, s, t, p))
  }

  /** Whom the heartbeat consults: for each mesh, and each fanout that lasts, its peers and whoever could be taken. */
  lemma ConsultedIff(c: Config, s: State, now: int, p: PeerId)
    ensures p in Consulted(c, s, now) <==> exists t :: InMeshOrNear(c, s, t, p) || InFanoutOrNear(c, s, now, t, p)
  {
    forall t ensures t in s.mesh && p in MeshConsulted(c, s, t) <==> InMeshOrNear(c, s, t, p) {
    }
    forall t ensures t in s.fanout && t !in FanoutExpired(c, s, now) && p in FanoutConsulted(c, s, t)
        <==> InFanoutOrNear(c, s, now, t, p) {
    }
    hide MeshConsulted, FanoutConsulted, InMeshOrNear, InFanoutOrNear, FanoutExpired;
  }

  ghost predicate Agree(ids: set<PeerId>, f: PeerId -> real, g: PeerId -> real) {
    forall p :: p in ids ==> f(p) == g(p)
  }

  /** The same passes, working with another table. */
  function Rescored(passes: map<Topic, Pass>, g: PeerId -> real): map<Topic, Pass> {
    map t | t in passes :: Pass(passes[t].inputs.(score := g), passes[t].outcome)
  }

  /** With any other table that has the same scores for the peers consulted, the heartbeat can go the same way. */
  lemma ConsultedSuffices(c: Config, s: State, f: PeerId -> real, g: PeerId -> real, passes: map<Topic, Pass>, now: int,
                          s': State)
    requires Beaten(c, s, f, passes, now, s') && Agree(Consulted(c, s, now), f, g)
    ensures Beaten(c, s, g, Rescored(passes, g), now, s')
  {
    var s1 := Ticked(c, s, now);
    var other := Rescored(passes, g);
    hide ClearBackoff, PrunesBacked, FanoutMaintained, PassStarts, Maintained, Consulted, FanoutExpired;
    forall t | t in passes
      ensures PassStarts(c, s1, t, g, OpportunisticTick(c, s1.ticks), other[t].inputs)
      ensures Maintained(other[t].inputs, other[t].outcome)
    {
      ConsultedForMesh(c, s, f, g, now, t);
      MeshAsked(c, s, s1, t);
      PassAlike(c, s1, t, f, g, passes[t]);
    }
    assert FanoutMaintained(c, s, g, now, s'.fanout) by { FanoutAlike(c, s, f, g, now, s'.fanout); }
    assert PrunesBacked(s1.backoff, other, now + c.pruneBackoff, s'.backoff) by {
      PrunesAlike(s1.backoff, passes, g, now + c.pruneBackoff, s'.backoff);
    }
    assert MeshesMaintained(c, s1, g, other, s'.mesh);
    hide MeshesMaintained, Rescored, Ticked;
  }

  lemma ConsultedForMesh(c: Config, s: State, f: PeerId -> real, g: PeerId -> real, now: int, t: Topic)
    requires Agree(Consulted(c, s, now), f, g) && t in s.mesh
    ensures Agree(MeshConsulted(c, s, t), f, g)
  {
    hide MeshConsulted, FanoutConsulted, FanoutExpired;
    assert MeshConsulted(c, s, t) <= Consulted(c, s, now);
  }

  lemma MeshAsked(c: Config, s: State, s1: State, t: Topic)
    requires s1 == s.(ticks := s1.ticks, backoff := s1.backoff)
    ensures MeshConsulted(c, s1, t) == MeshConsulted(c, s, t)
  {
    assert Reachable(c, s1, t) == Reachable(c, s, t);
  }

  lemma PrunesAlike(b: Backoffs, passes: map<Topic, Pass>, g: PeerId -> real, expire: int, b': Backoffs)
    requires PrunesBacked(b, passes, expire, b')
    ensures PrunesBacked(b, Rescored(passes, g), expire, b')
  {
    hide Backed, ToSet;
    forall t ensures EntryBacked(b, Rescored(passes, g), expire, b', t) {
      assert EntryBacked(b, passes, expire, b', t);
    }
  }

  lemma FanoutAlike(c: Config, s: State, f: PeerId -> real, g: PeerId -> real, now: int,
                    fanout: map<Topic, set<PeerId>>)
    requires FanoutMaintained(c, s, f, now, fanout) && Agree(Consulted(c, s, now), f, g)
    ensures FanoutMaintained(c, s, g, now, fanout)
  {
    hide FanoutExpired, FanoutKept, FanoutConsulted, MeshConsulted;
    forall t | t in fanout ensures FanoutKept(c, s, t, g, fanout[t]) {
      assert FanoutConsulted(c, s, t) <= Consulted(c, s, now);
      KeptAlike(c, s, t, f, g, fanout[t]);
    }
  }

  lemma KeptAlike(c: Config, s: State, t: Topic, f: PeerId -> real, g: PeerId -> real, now: set<PeerId>)
    requires t in s.fanout && FanoutKept(c, s, t, f, now) && Agree(FanoutConsulted(c, s, t), f, g)
    ensures FanoutKept(c, s, t, g, now)
  {
    StayingAlike(c, s, t, f, g);
    hide FanoutStaying, Choosable, Agree, FanoutConsulted;
  }

  lemma StayingAlike(c: Config, s: State, t: Topic, f: PeerId -> real, g: PeerId -> real)
    requires Agree(FanoutConsulted(c, s, t), f, g)
    ensures FanoutStaying(c, s, t, f) == FanoutStaying(c, s, t, g)
    ensures Choosable(c, s, t, f, c.publishThreshold) == Choosable(c, s, t, g, c.publishThreshold)
  {
    hide Reachable;
  }

  lemma PassAlike(c: Config, s: State, t: Topic, f: PeerId -> real, g: PeerId -> real, p: Pass)
    requires t in s.mesh && PassStarts(c, s, t, f, OpportunisticTick(c, s.ticks), p.inputs)
    requires Maintained(p.inputs, p.outcome) && Agree(MeshConsulted(c, s, t), f, g)
    ensures PassStarts(c, s, t, g, OpportunisticTick(c, s.ticks), p.inputs.(score := g))
    ensures Maintained(p.inputs.(score := g), p.outcome)
  {
    InputsAreValid(c, s, t, f, p.inputs);
    assert PassStarts(c, s, t, g, OpportunisticTick(c, s.ticks), p.inputs.(score := g)) by {
      hide Maintained, ToSet, Distinct, Outbound;
      StartsAlike(c, s, t, f, g);
    }
    assert Agree(p.inputs.start + ToSet(p.inputs.candidates), f, g) by { hide Maintained, Distinct, Outbound, ToSet; }
    hide PassStarts, MeshConsulted;
    assert p.inputs.score == f by { assert PassStarts(c, s, t, f, OpportunisticTick(c, s.ticks), p.inputs); }
    MaintainedAlike(p.inputs, g, p.outcome);
  }

  lemma StartsAlike(c: Config, s: State, t: Topic, f: PeerId -> real, g: PeerId -> real)
    requires Agree(MeshConsulted(c, s, t), f, g)
    ensures Candidates(c, s, t, f) == Candidates(c, s, t, g) && GossipTargets(c, s, t, f) == GossipTargets(c, s, t, g)
    ensures Candidates(c, s, t, f) <= MeshConsulted(c, s, t)
  {
    forall bar: real ensures Choosable(c, s, t, f, bar) == Choosable(c, s, t, g, bar) {
    }
  }

  lemma MaintainedAlike(i: Inputs, g: PeerId -> real, o: Outcome)
    requires Maintained(i, o) && Agree(i.start + ToSet(i.candidates), i.score, g)
    ensures Maintained(i.(score := g), o)
  {
    StepsAlike(i, g, o);
    CutAlike(i, g, o);
    OpportunisticAlike(i, g, o);
    SameRest(i, g, o);
    hide InStep, Cut, OpportunisticMade, Filled, QuotaMade, Remaining, i.Survivors, Agree;
  }

  lemma StepsAlike(i: Inputs, g: PeerId -> real, o: Outcome)
    requires InStep(i, o) && Agree(i.start + ToSet(i.candidates), i.score, g)
    ensures i.(score := g).Survivors() == i.Survivors() && InStep(i.(score := g), o)
  {
    assert forall p :: p in o.pruned ==> p in ToSet(o.pruned);
    assert GossipWorthy(i.(score := g), o.pruned) == GossipWorthy(i, o.pruned);
    assert i.(score := g).Survivors() == i.Survivors();
    hide GossipWorthy, Distinct, ToSet, i.Survivors;
  }

  /** These do not look at scores beyond the survivors. */
  lemma SameRest(i: Inputs, g: PeerId -> real, o: Outcome)
    requires i.(score := g).Survivors() == i.Survivors()
    ensures Filled(i.(score := g), o.notEnough) <==> Filled(i, o.notEnough)
    ensures forall ps :: Remaining(i.(score := g), ps) == Remaining(i, ps)
    ensures forall mesh, left, quota ::
              QuotaMade(i.(score := g), mesh, left, quota) <==> QuotaMade(i, mesh, left, quota)
  {
    hide i.Survivors, OutSize, Taken, FirstOf, ToSet;
  }

  lemma CutAlike(i: Inputs, g: PeerId -> real, o: Outcome)
    requires Maintained(i, o) && Agree(i.start + ToSet(i.candidates), i.score, g)
    requires i.(score := g).Survivors() == i.Survivors()
    ensures Cut(i.(score := g), i.Survivors() + ToSet(o.notEnough), o.trim, ToSet(o.pruned))
  {
    var was := i.Survivors() + ToSet(o.notEnough);
    hide Filled, QuotaMade, OpportunisticMade, Trimmed, Distinct;
    assert i.Survivors() <= i.start;
    hide i.Survivors;
    if |was| > i.params.Dhi {
      var order := o.trim.value.order;
      forall k | 0 <= k < |order| ensures i.score(order[k]) == g(order[k]) {
        assert order[k] in ToSet(order);
        assert forall p :: p in ToSet(o.notEnough) ==> p in ToSet(o.Grafted());
      }
    }
  }

  lemma OpportunisticAlike(i: Inputs, g: PeerId -> real, o: Outcome)
    requires Maintained(i, o) && Agree(i.start + ToSet(i.candidates), i.score, g)
    ensures OpportunisticMade(i.(score := g), o.peers - ToSet(o.opportunistic), Remaining(i, o.notEnough + o.quota),
                              o.opportunistic)
  {
    var mesh, left := o.peers - ToSet(o.opportunistic), Remaining(i, o.notEnough + o.quota);
    PeersWithin(i, o);
    LeftWithin(i, o.notEnough + o.quota);
    assert OpportunisticMade(i, mesh, left, o.opportunistic);
    hide Maintained, Remaining, ToSet, MedianOf, Improvers;
    if i.opportunisticTick && |mesh| > 1 {
      var median :| MedianOf(mesh, i.score, median) && o.opportunistic == Improvers(i, left, median);
      MedianAlike(mesh, i.score, g, median);
      ImproversAlike(i, g, left, median);
    }
  }

  lemma PeersWithin(i: Inputs, o: Outcome)
    requires InStep(i, o)
    ensures o.peers - ToSet(o.opportunistic) <= i.start + ToSet(i.candidates)
  {
    hide ToSet, Distinct, GossipWorthy;
  }

  lemma LeftWithin(i: Inputs, grafted: seq<PeerId>)
    ensures ToSet(Remaining(i, grafted)) <= ToSet(i.candidates)
  {
    WithoutMembers(i.candidates, ToSet(grafted));
  }

  lemma MedianAlike(mesh: set<PeerId>, f: PeerId -> real, g: PeerId -> real, median: real)
    requires Agree(mesh, f, g)
    ensures MedianOf(mesh, f, median) <==> MedianOf(mesh, g, median)
  {
    assert AtMost(mesh, f, median) == AtMost(mesh, g, median);
    assert Below(mesh, f, median) == Below(mesh, g, median);
  }

  lemma ImproversAlike(i: Inputs, g: PeerId -> real, left: seq<PeerId>, median: real)
    requires Agree(ToSet(left), i.score, g)
    ensures Improvers(i.(score := g), left, median) == Improvers(i, left, median)
  {
    assert forall p :: p in left ==> p in ToSet(left);
    assert Above(left, i.score, median) == Above(left, g, median);
  }
}
