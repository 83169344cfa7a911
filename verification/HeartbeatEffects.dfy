/** What a heartbeat does beside the meshes: backoffs, fanout and gossip targets, said of the router's fields. */
module HeartbeatEffects {
  import opened Types
  import opened Seqs
  import opened MeshPass
  import opened MeshTheorems
  import opened RouterModel
  import opened HeartbeatRules

  // ----- backoffs

  /** What the entry of a peer is made into by recording `expire`: the later of the two counts. */
  predicate RaisedTo(b: Backoffs, t: Topic, p: PeerId, expire: int, was: Option<int>) {
    t in b && p in b[t] && b[t][p] == if was.Some? && was.value > expire then was.value else expire
  }

  function EntryFound(c: Config, s: State, t: Topic, p: PeerId, now: int): Option<int> {
    if StillListed(c, s, t, p, now) then Some(s.backoff[t][p]) else None
  }

  /**
   * A peer that a heartbeat takes out of a mesh is backed off for the prune backoff. Every other backoff stays what
   * it was, unless this heartbeat sweeps it away.
   */
  lemma BackoffRule(c: Config, s: State, score: PeerId -> real, passes: map<Topic, Pass>, now: int, s': State, t: Topic,
                    p: PeerId)
    requires Beaten(c, s, score, passes, now, s') && now + c.pruneBackoff > 0
    ensures t in s.mesh ==> t in s'.mesh
    ensures if t in s.mesh && p in s.mesh[t] && p !in s'.mesh[t]
            then RaisedTo(s'.backoff, t, p, now + c.pruneBackoff, EntryFound(c, s, t, p, now))
            else && (t in s'.backoff && p in s'.backoff[t] <==> StillListed(c, s, t, p, now))
                 && (StillListed(c, s, t, p, now) ==> s'.backoff[t][p] == s.backoff[t][p])
  {
    var s1 := Ticked(c, s, now);
    EntryAfter(c, s, score, passes, now, s', t);
    SweptBackoff(c, s, now, t);
    if t in s.mesh {
      PassOf(c, s, score, passes, now, s', t);
      PrunedLeft(passes[t].inputs, passes[t].outcome);
      StartOf(c, s, t, score, now, passes[t].inputs);
    }
    hide Beaten, Maintained, StartsFrom, StillListed, Ticked, passes[t].inputs.Valid, EntryBacked;
    PrunedOnly(s1.backoff, passes, now + c.pruneBackoff, s'.backoff, t, p);
  }

  lemma StartOf(c: Config, s: State, t: Topic, score: PeerId -> real, now: int, i: Inputs)
    requires StartsFrom(c, s, t, score, now, i)
    ensures t in s.mesh && i.start == s.mesh[t]
  {
    hide Reaches, StillListed, ToSet;
  }

  lemma EntryAfter(c: Config, s: State, score: PeerId -> real, passes: map<Topic, Pass>, now: int, s': State, t: Topic)
    requires Beaten(c, s, score, passes, now, s')
    ensures EntryBacked(Ticked(c, s, now).backoff, passes, now + c.pruneBackoff, s'.backoff, t)
    ensures t in passes <==> t in s.mesh
  {
    hide ClearBackoff, FanoutMaintained, PassStarts, Maintained, EntryBacked;
  }

  lemma PrunedLeft(i: Inputs, o: Outcome)
    requires i.Valid() && Maintained(i, o)
    ensures forall p :: p in o.pruned <==> p in i.start && p !in o.peers
  {
    hide *;
    MeshMatchesLists(i, o);
    PrunedWithin(i, o);
    StartApart(i, o);
    Rearranged(i.start, ToSet(o.pruned), ToSet(o.Grafted()), o.peers);
    InToSet(o.pruned);
  }

  lemma GraftedCame(i: Inputs, o: Outcome)
    requires i.Valid() && Maintained(i, o)
    ensures forall p :: p in o.Grafted() <==> p in o.peers && p !in i.start
  {
    hide *;
    MeshMatchesLists(i, o);
    PrunedWithin(i, o);
    StartApart(i, o);
    Rearranged(i.start, ToSet(o.pruned), ToSet(o.Grafted()), o.peers);
    InToSet(o.Grafted());
  }

  lemma InToSet(s: seq<PeerId>)
    ensures forall p :: p in s <==> p in ToSet(s)
  {
  }

  lemma PrunedOnly(b: Backoffs, passes: map<Topic, Pass>, expire: int, b': Backoffs, t: Topic, p: PeerId)
    requires EntryBacked(b, passes, expire, b', t) && expire > 0
    ensures var found := if t in b && p in b[t] then Some(b[t][p]) else None;
            if t in passes && p in passes[t].outcome.pruned then RaisedTo(b', t, p, expire, found)
            else (t in b' && p in b'[t] <==> found.Some?) && (found.Some? ==> b'[t][p] == found.value)
  {
    InToSet(if t in passes then passes[t].outcome.pruned else []);
  }

  // ----- fanout

  /** Fanout peers that are still in the topic and score well enough to be published to. */
  ghost function StillFit(c: Config, s: State, t: Topic, score: PeerId -> real): set<PeerId> {
    set p | t in s.fanout && p in s.fanout[t] && t in s.topics && p in s.topics[t] && score(p) >= c.publishThreshold
  }

  ghost function OtherFit(c: Config, s: State, t: Topic, score: PeerId -> real): set<PeerId> {
    set p | p in s.streams && Reaches(c, s, t, p, score, c.publishThreshold) && p !in StillFit(c, s, t, score)
  }

  /**
   * Fanout for a topic goes once it has not been published to for longer than `fanoutTTL`. Otherwise peers that left or
   * score too low go, and others that can be reached take their place: to `D`, or all there are.
   */
  lemma FanoutRule(c: Config, s: State, score: PeerId -> real, passes: map<Topic, Pass>, now: int, s': State, t: Topic)
    requires Beaten(c, s, score, passes, now, s')
    ensures t in s'.fanout <==> t in s.fanout && (t in s.fanoutLastpub ==> s.fanoutLastpub[t] + c.fanoutTTL >= now)
    ensures t in s'.fanout ==>
              var fit, others := StillFit(c, s, t, score), OtherFit(c, s, t, score);
              && fit <= s'.fanout[t] <= fit + others
              && |s'.fanout[t]| == if |fit| < c.params.D then Min(c.params.D, |fit| + |others|) else |fit|
  {
    hide ClearBackoff, PrunesBacked, MeshesMaintained, FanoutKept, StillFit, OtherFit;
    assert FanoutMaintained(c, s, score, now, s'.fanout);
    if t in s'.fanout {
      FitAre(c, s, t, score);
      hide Choosable, FanoutStaying, Beaten, FanoutMaintained;
      KeptSize(c, s, t, score, s'.fanout[t]);
    }
  }

  lemma FitAre(c: Config, s: State, t: Topic, score: PeerId -> real)
    requires t in s.fanout
    ensures StillFit(c, s, t, score) == FanoutStaying(c, s, t, score)
    ensures OtherFit(c, s, t, score) == Choosable(c, s, t, score, c.publishThreshold) - FanoutStaying(c, s, t, score)
  {
    assert StillFit(c, s, t, score) == FanoutStaying(c, s, t, score);
    hide StillFit, FanoutStaying;
  }

  lemma KeptSize(c: Config, s: State, t: Topic, score: PeerId -> real, now: set<PeerId>)
    requires t in s.fanout && FanoutKept(c, s, t, score, now)
    ensures var kept := FanoutStaying(c, s, t, score);
            var pool := Choosable(c, s, t, score, c.publishThreshold) - kept;
            && kept <= now <= kept + pool
            && |now| == if |kept| < c.params.D then Min(c.params.D, |kept| + |pool|) else |kept|
  {
    hide Choosable, FanoutStaying;
    var kept := FanoutStaying(c, s, t, score);
    assert now * kept == kept;
    SplitCardinality(now, kept);
  }

  // ----- gossip targets

  /**
   * Gossip about a joined topic without fanout goes to everybody outside the new mesh who scores well enough: peers
   * that can be reached, and those that were in the mesh before. About a topic with fanout, to those that can be
   * reached and are not in it.
   */
  lemma GossipRule(c: Config, s: State, score: PeerId -> real, passes: map<Topic, Pass>, now: int, s': State,
                   gossip: map<Topic, set<PeerId>>, t: Topic, p: PeerId)
    requires Beaten(c, s, score, passes, now, s') && GossipsTo(c, s, score, passes, s'.fanout, gossip)
    ensures t in gossip <==> t in s.mesh || t in s'.fanout
    ensures t in s.mesh ==> t in s'.mesh
    ensures t in s'.fanout ==>
              (p in gossip[t] <==> Reaches(c, s, t, p, score, c.params.gossipThreshold) && p !in s'.fanout[t])
    ensures t in s.mesh && t !in s'.fanout ==>
              (p in gossip[t] <==>
                 && p !in s'.mesh[t] && score(p) >= c.params.gossipThreshold
                 && (p in s.mesh[t] || Reaches(c, s, t, p, score, c.params.gossipThreshold)))
  {
    EntryAfter(c, s, score, passes, now, s', t);
    assert t in s'.fanout ==> FanoutGossip(c, s, t, score, s'.fanout[t]) == gossip[t];
    assert t in s.mesh && t !in s'.fanout ==> gossip[t] == passes[t].outcome.gossip;
    FanoutTargetsAre(c, s, t, score, s'.fanout, p);
    hide *;
    if t in s.mesh {
      MeshTargets(c, s, score, passes, now, s', t, p);
    }
  }

  lemma FanoutTargetsAre(c: Config, s: State, t: Topic, score: PeerId -> real, fanout: map<Topic, set<PeerId>>,
                         p: PeerId)
    ensures t in fanout ==>
              (p in FanoutGossip(c, s, t, score, fanout[t]) <==>
                 Reaches(c, s, t, p, score, c.params.gossipThreshold) && p !in fanout[t])
  {
  }

  lemma MeshTargets(c: Config, s: State, score: PeerId -> real, passes: map<Topic, Pass>, now: int, s': State, t: Topic,
                    p: PeerId)
    requires Beaten(c, s, score, passes, now, s') && t in s.mesh
    ensures t in s'.mesh && t in passes
    ensures p in passes[t].outcome.gossip <==>
              && p !in s'.mesh[t] && score(p) >= c.params.gossipThreshold
              && (p in s.mesh[t] || Reaches(c, s, t, p, score, c.params.gossipThreshold))
  {
    hide *;
    PassOf(c, s, score, passes, now, s', t);
    GossipLeftOver(passes[t].inputs, passes[t].outcome);
    GossipStart(c, s, t, score, now, passes[t].inputs, p);
  }

  lemma GossipStart(c: Config, s: State, t: Topic, score: PeerId -> real, now: int, i: Inputs, p: PeerId)
    requires StartsFrom(c, s, t, score, now, i)
    ensures t in s.mesh && i.start == s.mesh[t] && i.score == score && i.params == c.params
    ensures p in i.gossip <==> Reaches(c, s, t, p, score, c.params.gossipThreshold) && p !in s.mesh[t]
    ensures Reaches(c, s, t, p, score, c.params.gossipThreshold) ==> score(p) >= c.params.gossipThreshold
  {
    hide StillListed, ToSet;
  }

  lemma GossipLeftOver(i: Inputs, o: Outcome)
    requires i.Valid() && Maintained(i, o)
    ensures forall p :: p in o.gossip <==>
              && p !in o.peers
              && (p in i.gossip || (p in i.start && i.score(p) >= i.params.gossipThreshold))
  {
    PrunedLeft(i, o);
    MeshMatchesLists(i, o);
    StartApart(i, o);
    GossipApart(i);
    assert InStep(i, o);
    hide Maintained, i.Valid, ToSet, Distinct;
  }

  lemma GossipApart(i: Inputs)
    requires i.Valid()
    ensures i.gossip !! i.start
  {
  }
}
