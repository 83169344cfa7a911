/** Whom the heartbeat gossips to, and when that is somebody in the mesh. */
module RouterGossip {
  import opened Types
  import opened Seqs
  import opened MeshPass
  import opened MeshTheorems
  import opened RouterModel
  import opened RouterInvariants

  /** The topic keeps its fanout through the heartbeat. */
  predicate FanoutLive(c: Config, s: State, t: Topic, now: int) { t in s.fanout && t !in FanoutExpired(c, s, now) }

  /**
   * Gossip is to avoid the mesh. It does for a topic without fanout; for one with fanout it goes to every mesh peer
   * that may be gossiped to and is not in the fanout.
   */
  lemma GossipAvoidsMesh(c: Config, s: State, score: PeerId -> real, passes: map<Topic, Pass>, now: int, s': State,
                         gossip: map<Topic, set<PeerId>>, t: Topic)
    requires Beaten(c, s, score, passes, now, s') && GossipsTo(c, s, score, passes, s'.fanout, gossip) && t in s.mesh
    ensures t in s'.mesh && t in gossip
    ensures !FanoutLive(c, s, t, now) ==> gossip[t] !! s'.mesh[t]
    ensures FanoutLive(c, s, t, now) ==>
      && t in s'.fanout
      && forall p :: p in s'.mesh[t] ==>
           (p in gossip[t] <==> p in Choosable(c, s, t, score, c.params.gossipThreshold) && p !in s'.fanout[t])
  {
    hide ClearBackoff, PrunesBacked, GossipTargets, Candidates, Choosable, FanoutKept, FanoutExpired;
    assert t in passes;
    assert t in s'.fanout <==> FanoutLive(c, s, t, now);
    if t !in s'.fanout {
      PassGossip(c, Ticked(c, s, now), t, score, passes[t]);
    }
    hide PassStarts, Maintained;
  }

  lemma PassGossip(c: Config, s: State, t: Topic, score: PeerId -> real, p: Pass)
    requires t in s.mesh && PassStarts(c, s, t, score, OpportunisticTick(c, s.ticks), p.inputs)
    requires Maintained(p.inputs, p.outcome)
    ensures p.outcome.gossip !! p.outcome.peers
  {
    InputsAreValid(c, s, t, score, p.inputs);
    hide PassStarts, p.inputs.Valid, Maintained;
    MeshMatchesLists(p.inputs, p.outcome);
  }

  // ----- foretold before the heartbeat

  /** Mesh peers that may be gossiped to and that the fanout upkeep does not already have. */
  function Exposed(c: Config, s: State, t: Topic, score: PeerId -> real): set<PeerId> {
    PeersIn(s.mesh, t) * Choosable(c, s, t, score, c.params.gossipThreshold) - FanoutStaying(c, s, t, score)
  }

  /** Whom the fanout may be filled up with, and how many of them. */
  function FanoutPool(c: Config, s: State, t: Topic, score: PeerId -> real): set<PeerId> {
    Choosable(c, s, t, score, c.publishThreshold) - FanoutStaying(c, s, t, score)
  }

  function FanoutRoom(c: Config, s: State, t: Topic, score: PeerId -> real): nat {
    Max(c.params.D - |FanoutStaying(c, s, t, score)|, 0)
  }

  /** A settled mesh gets exactly the gossip of its exposed peers that are not drawn into the fanout. */
  lemma SettledMeshGossip(c: Config, s: State, score: PeerId -> real, passes: map<Topic, Pass>, now: int, s': State,
                          gossip: map<Topic, set<PeerId>>, t: Topic)
    requires Beaten(c, s, score, passes, now, s') && GossipsTo(c, s, score, passes, s'.fanout, gossip)
    requires t in s.mesh && FanoutLive(c, s, t, now)
    requires Settled(s.mesh[t], score, Outbound(s), c.params, OpportunisticTick(c, s.ticks + 1))
    ensures t in s'.mesh && s'.mesh[t] == s.mesh[t]
    ensures t in s'.fanout && t in gossip && FanoutKept(c, s, t, score, s'.fanout[t])
    ensures gossip[t] * s'.mesh[t] == Exposed(c, s, t, score) - s'.fanout[t]
  {
    GossipAvoidsMesh(c, s, score, passes, now, s', gossip, t);
    SettledKept(c, s, score, passes, now, s', t);
    KeptStay(c, s, t, score, s'.fanout[t]);
    hide *;
    ExposedPart(c, s, t, score, s'.fanout[t], gossip[t]);
  }

  lemma ExposedPart(c: Config, s: State, t: Topic, score: PeerId -> real, fanout: set<PeerId>, gossip: set<PeerId>)
    requires t in s.mesh && FanoutStaying(c, s, t, score) <= fanout
    requires forall p :: p in s.mesh[t] ==>
               (p in gossip <==> p in Choosable(c, s, t, score, c.params.gossipThreshold) && p !in fanout)
    ensures gossip * s.mesh[t] == Exposed(c, s, t, score) - fanout
  {
    hide Choosable, FanoutStaying;
  }

  lemma KeptStay(c: Config, s: State, t: Topic, score: PeerId -> real, fanout: set<PeerId>)
    requires t in s.fanout && FanoutKept(c, s, t, score, fanout)
    ensures FanoutStaying(c, s, t, score) <= fanout
  {
  }

  lemma SettledKept(c: Config, s: State, score: PeerId -> real, passes: map<Topic, Pass>, now: int, s': State, t: Topic)
    requires Beaten(c, s, score, passes, now, s') && t in s.mesh && FanoutLive(c, s, t, now)
    requires Settled(s.mesh[t], score, Outbound(s), c.params, OpportunisticTick(c, s.ticks + 1))
    ensures t in s'.mesh && s'.mesh[t] == s.mesh[t]
    ensures t in s'.fanout && FanoutKept(c, s, t, score, s'.fanout[t])
  {
    hide ClearBackoff, PrunesBacked, FanoutExpired, Settled, Maintained, PassStarts, FanoutKept, OpportunisticTick;
    var s1 := Ticked(c, s, now);
    assert t in passes && s1.mesh == s.mesh && Outbound(s1) == Outbound(s);
    SettledPass(c, s1, t, score, passes[t]);
  }

  lemma SettledPass(c: Config, s: State, t: Topic, score: PeerId -> real, p: Pass)
    requires t in s.mesh && PassStarts(c, s, t, score, OpportunisticTick(c, s.ticks), p.inputs)
    requires Settled(s.mesh[t], score, Outbound(s), c.params, OpportunisticTick(c, s.ticks))
    requires Maintained(p.inputs, p.outcome)
    ensures p.outcome.peers == s.mesh[t]
  {
    InputsAreValid(c, s, t, score, p.inputs);
    hide Settled, Maintained, p.inputs.Valid, Outbound, OpportunisticTick, Candidates, GossipTargets;
    SettledStays(p.inputs, p.outcome);
  }

  /**
   * So, before the heartbeat, some draw of fanout peers spares a settled mesh if and only if the exposed peers can all
   * be drawn, and every draw spares it if and only if there are none, or they can be drawn and everyone who can is.
   */
  lemma DrawsThatSpare(c: Config, s: State, t: Topic, score: PeerId -> real)
    requires t in s.fanout
    ensures var exposed, pool := Exposed(c, s, t, score), FanoutPool(c, s, t, score);
            var room := FanoutRoom(c, s, t, score);
            && ((exists f :: FanoutKept(c, s, t, score, f) && exposed <= f) <==> exposed <= pool && |exposed| <= room)
            && ((forall f :: FanoutKept(c, s, t, score, f) ==> exposed <= f) <==>
                  exposed == {} || (exposed <= pool && |pool| <= room))
  {
    var exposed, pool, room := Exposed(c, s, t, score), FanoutPool(c, s, t, score), FanoutRoom(c, s, t, score);
    var kept := FanoutStaying(c, s, t, score);
    assert exposed !! kept && pool !! kept;
    forall f ensures FanoutKept(c, s, t, score, f) <==> Draw(kept, pool, room, f) {
      KeptIsDraw(c, s, t, score, f);
    }
    SomeDrawHolds(kept, pool, room, exposed);
    EveryDrawHolds(kept, pool, room, exposed);
    hide *;
  }

  /** `f` is what stayed and as many others as there is room for. */
  ghost predicate Draw(kept: set<PeerId>, pool: set<PeerId>, room: nat, f: set<PeerId>) {
    kept <= f && f - kept <= pool && |f - kept| == Min(room, |pool|)
  }

  lemma KeptIsDraw(c: Config, s: State, t: Topic, score: PeerId -> real, f: set<PeerId>)
    requires t in s.fanout
    ensures FanoutKept(c, s, t, score, f) <==>
              Draw(FanoutStaying(c, s, t, score), FanoutPool(c, s, t, score), FanoutRoom(c, s, t, score), f)
  {
    hide FanoutStaying, Choosable;
  }

  lemma SomeDrawHolds(kept: set<PeerId>, pool: set<PeerId>, room: nat, wanted: set<PeerId>)
    requires kept !! pool && kept !! wanted
    ensures (exists f :: Draw(kept, pool, room, f) && wanted <= f) <==> wanted <= pool && |wanted| <= room
  {
    if f :| Draw(kept, pool, room, f) && wanted <= f {
      assert wanted <= f - kept;
      SubsetCardinality(wanted, f - kept);
    }
    if wanted <= pool && |wanted| <= room {
      SubsetCardinality(wanted, pool);
      var f := Between(wanted, pool, Min(room, |pool|));
      Drawn(kept, f);
      assert Draw(kept, pool, room, kept + f);
    }
  }

  lemma EveryDrawHolds(kept: set<PeerId>, pool: set<PeerId>, room: nat, wanted: set<PeerId>)
    requires kept !! pool && kept !! wanted
    ensures (forall f :: Draw(kept, pool, room, f) ==> wanted <= f) <==>
              wanted == {} || (wanted <= pool && |pool| <= room)
  {
    if wanted <= pool && |pool| <= room {
      forall f | Draw(kept, pool, room, f) ensures wanted <= f {
        WholeSet(f - kept, pool);
      }
    } else if wanted != {} {
      var e :| e in wanted && (wanted <= pool || e !in pool);
      // there are enough to draw without `e`
      SplitCardinality(pool, {e});
      assert pool * {e} == {} || pool * {e} == {e};
      var f := Between({}, pool - {e}, Min(room, |pool|));
      Drawn(kept, f);
      assert Draw(kept, pool, room, kept + f) && e !in kept + f;
    }
  }

  lemma Drawn(kept: set<PeerId>, f: set<PeerId>)
    requires kept !! f
    ensures kept + f - kept == f
  {
  }

  lemma WholeSet(a: set<PeerId>, b: set<PeerId>)
    requires a <= b && |a| == |b|
    ensures a == b
  {
    SplitCardinality(b, a);
  }

  /** A set of `n` elements between two others. */
  lemma {:induction false} Between(low: set<PeerId>, high: set<PeerId>, n: nat) returns (mid: set<PeerId>)
    requires low <= high && |low| <= n <= |high|
    ensures low <= mid <= high && |mid| == n
    decreases n - |low|
  {
    if |low| == n {
      return low;
    }
    assert low != high;
    var x :| x in high && x !in low;
    SubsetCardinality(low + {x}, high);
    mid := Between(low + {x}, high, n);
  }
}
