/** What holds in every state the router can reach, and what single steps leave behind. */
module RouterInvariants {
  import opened Types
  import opened Seqs
  import opened MeshPass
  import opened RouterModel
  import opened RouterTheorems
  import opened MeshTheorems

  /** The meshes are those of the subscriptions, without direct peers; no fanout set outgrows `D`. */
  ghost predicate Inv(c: Config, s: State) {
    && s.mesh.Keys == s.subscriptions
    && NoDirect(c, s.mesh)
    && FanoutBounded(c, s.fanout)
  }

  ghost predicate NoDirect(c: Config, mesh: map<Topic, set<PeerId>>) {
    forall t :: t in mesh ==> mesh[t] !! c.direct
  }

  ghost predicate FanoutBounded(c: Config, fanout: map<Topic, set<PeerId>>) {
    forall t :: t in fanout ==> |fanout[t]| <= c.params.D
  }

  lemma {:induction false} GraftAllInv(c: Config, id: PeerId, score: real, now: int, e: GraftEffect,
                                       graft: seq<Option<Topic>>)
    requires NoDirect(c, e.s.mesh)
    ensures var s' := GraftAll(c, id, score, now, e, graft).s;
            && NoDirect(c, s'.mesh) && s'.mesh.Keys == e.s.mesh.Keys
            && s' == e.s.(mesh := s'.mesh, backoff := s'.backoff)
  {
    hide GraftOne, NoDirect;
    if graft != [] {
      GraftAllInv(c, id, score, now, e, graft[..|graft| - 1]);
      var last := graft[|graft| - 1];
      if last.Some? {
        GraftOneInv(c, id, score, now, GraftAll(c, id, score, now, e, graft[..|graft| - 1]), last.value);
      }
    }
  }

  lemma GraftOneInv(c: Config, id: PeerId, score: real, now: int, e: GraftEffect, t: Topic)
    requires NoDirect(c, e.s.mesh)
    ensures var s' := GraftOne(c, id, score, now, e, t).s;
            && NoDirect(c, s'.mesh) && s'.mesh.Keys == e.s.mesh.Keys
            && s' == e.s.(mesh := s'.mesh, backoff := s'.backoff)
  {
    hide AddBackoff;
  }

  lemma {:induction false} PruneListInv(c: Config, s: State, id: PeerId, prune: seq<PruneEntry>, now: int)
    requires NoDirect(c, s.mesh)
    ensures var s' := PruneList(c, s, id, prune, now);
            && NoDirect(c, s'.mesh) && s'.mesh.Keys == s.mesh.Keys
            && s' == s.(mesh := s'.mesh, backoff := s'.backoff)
    decreases |prune|
  {
    hide AddBackoff;
    if prune != [] && !PruneStops(s, prune[0]) {
      PruneListInv(c, PruneOne(c, s, id, prune[0], now), id, prune[1..], now);
    }
  }

  lemma BeatenInv(c: Config, s: State, score: PeerId -> real, passes: map<Topic, Pass>, now: int, s': State)
    requires Inv(c, s) && Beaten(c, s, score, passes, now, s')
    ensures Inv(c, s')
  {
    hide ClearBackoff, PrunesBacked, PassStarts, Maintained, FanoutKept;
    var s1 := Ticked(c, s, now);
    forall t | t in s'.mesh ensures s'.mesh[t] !! c.direct {
      forall p | p in s'.mesh[t] ensures p !in c.direct {
        if p !in s1.mesh[t] {
          PassAdmits(c, s1, t, score, passes[t], p);
        } else {
          assert s.mesh[t] !! c.direct;
        }
      }
    }
    forall t | t in s'.fanout ensures |s'.fanout[t]| <= c.params.D {
      FanoutKeptBounded(c, s, t, score, s'.fanout[t]);
    }
  }

  lemma FanoutKeptBounded(c: Config, s: State, t: Topic, score: PeerId -> real, now: set<PeerId>)
    requires t in s.fanout && |s.fanout[t]| <= c.params.D && FanoutKept(c, s, t, score, now)
    ensures |now| <= c.params.D
  {
    var kept := FanoutStaying(c, s, t, score);
    SubsetCardinality(kept, s.fanout[t]);
    hide Choosable, FanoutStaying;
    SplitCardinality(now, kept);
  }

  lemma JoinedInv(c: Config, s: State, t: Topic, score: PeerId -> real, s': State)
    requires s.mesh.Keys + {t} == s.subscriptions && NoDirect(c, s.mesh) && FanoutBounded(c, s.fanout)
    requires Joined(c, s, t, score, s')
    ensures Inv(c, s')
  {
    if t !in s.mesh {
      var fit := FanoutFit(c, s, t, score);
      forall p | p in s'.mesh[t] ensures p !in c.direct {
        assert p in fit || p in s'.mesh[t] - fit;
      }
    }
  }

  lemma RemovedInv(c: Config, s: State, id: PeerId)
    requires Inv(c, s)
    ensures Inv(c, PeerRemoved(s, id))
  {
    var s' := PeerRemoved(s, id);
    forall t | t in s'.fanout ensures |s'.fanout[t]| <= c.params.D {
      SubsetCardinality(s'.fanout[t], s.fanout[t]);
    }
  }

  lemma PublishedInv(c: Config, s: State, t: Topic, score: PeerId -> real, now: int, s': State)
    requires Inv(c, s) && c.params.D > 0 && Published(c, s, t, score, now, s')
    ensures Inv(c, s')
  {
    hide Reachable;
  }

  lemma StepInv(c: Config, s: State, e: Event, now: int, s': State)
    requires Inv(c, s) && c.params.D > 0 && Step(c, s, e, now, s')
    ensures Inv(c, s')
  {
    hide GraftAll, MakePrunes, PruneList, Beaten, Joined, Published, Left, NoDirect, FanoutBounded, AddBackoff;
    hide PeerRemoved;
    match e
    case Subscribe(t, score) =>
      JoinedInv(c, s.(subscriptions := s.subscriptions + {t}), t, score, s');
    case Unsubscribe(t) => LeftInv(c, s, t, now);
    case Graft(id, score, graft) =>
      var start := GraftEffect(s, [], c.doPX, 0);
      GraftAllInv(c, id, score, now, start, graft);
      var r := GraftAll(c, id, score, now, start, graft);
      MakePrunesSafe(c, r.s, id, r.prune, now);
    case Prune(id, prune) => PruneListInv(c, s, id, prune, now);
    case SendPrune(id, t) =>
    case Publish(t, score) => PublishedInv(c, s, t, score, now, s');
    case Heartbeat(score, passes) => BeatenInv(c, s, score, passes, now, s');
    case RemovePeer(id) => RemovedInv(c, s, id);
    case _ =>
  }

  lemma LeftInv(c: Config, s: State, t: Topic, now: int)
    requires Inv(c, s)
    ensures Inv(c, Left(c, s.(subscriptions := s.subscriptions - {t}), t, now))
  {
    hide AddBackoff, FanoutBounded;
  }

  /** Every run from the initial state keeps the invariant. */
  lemma {:induction false} AlwaysInv(c: Config, run: seq<Moment>, k: nat)
    requires c.params.D > 0 && IsRun(c, run) && k < |run| && run[0].state == INITIAL
    ensures Inv(c, run[k].state)
  {
    hide Step;
    if k > 0 {
      AlwaysInv(c, run, k - 1);
      StepInv(c, run[k - 1].state, run[k].event, run[k].now, run[k].state);
    }
  }

  ghost predicate Nowhere(s: State, p: PeerId) {
    forall t :: p !in PeersIn(s.mesh, t) && p !in PeersIn(s.fanout, t) && p !in PeersIn(s.topics, t)
  }

  /** A disconnect clears a peer out of every set exactly if the router knew it, or had it nowhere anyway. */
  lemma RemovedIsNowhere(s: State, p: PeerId)
    ensures Nowhere(PeerRemoved(s, p), p) <==> p in s.known || Nowhere(s, p)
    ensures forall t, q :: q != p ==> (q in PeersIn(PeerRemoved(s, p).mesh, t) <==> q in PeersIn(s.mesh, t))
  {
  }

  /** A joined mesh holds at most `D` peers only if no fanout peer was taken over beside `D` new ones. */
  lemma JoinSize(c: Config, s: State, t: Topic, score: PeerId -> real, s': State)
    requires Joined(c, s, t, score, s') && t !in s.mesh && c.params.D > 0 && |PeersIn(s.fanout, t)| <= c.params.D
    ensures var fit := FanoutFit(c, s, t, score);
            var others := WithoutBackoff(s, t, Choosable(c, s, t, score, 0.0)) - fit;
            && |s'.mesh[t]| < 2 * c.params.D
            && (|s'.mesh[t]| <= c.params.D <==>
                  |fit| == c.params.D || fit == {} || |fit| + |others| <= c.params.D)
  {
    hide Choosable, WithoutBackoff;
    var fit, m := FanoutFit(c, s, t, score), s'.mesh[t];
    SubsetCardinality(fit, PeersIn(s.fanout, t));
    if fit <= m {
      SplitCardinality(m, fit);
    }
  }

  /**
   * Fanout is meant for topics the node has not joined. Publishing breaks that for a joined topic exactly if flood
   * publishing is off, its mesh is empty, it had no fanout peers, and some peer is fit to be one.
   */
  lemma FanoutOfJoinedTopic(c: Config, s: State, t: Topic, score: PeerId -> real, now: int, s': State)
    requires t in s.mesh && t !in s.fanout && Published(c, s, t, score, now, s')
    ensures t in s'.mesh && t in s'.fanout <==>
              !c.floodPublish && s.mesh[t] == {} && PublishPool(c, s, t, score) != {}
  {
    assert t !in s.topics ==> PublishPool(c, s, t, score) == {};
    hide RandomPick, Reachable, PublishPool;
  }

  /** What a mesh is like after its maintenance: well-scored peers, neither too few nor too many, enough outbound. */
  ghost predicate Healthy(p: MeshParams, survivors: set<PeerId>, candidates: set<PeerId>, outbound: set<PeerId>,
                          mesh: set<PeerId>) {
    && mesh <= survivors + candidates
    && |mesh| >= Min(p.Dlo, |survivors| + |candidates|)
    && |mesh| <= p.Dhi + p.Dout + p.opportunisticGraftPeers
    && (OutSize(mesh, outbound) >= p.Dout || (candidates - mesh) * outbound == {})
  }

  ghost function WellScored(xs: set<PeerId>, score: PeerId -> real): set<PeerId> { set p | p in xs && score(p) >= 0.0 }

  /** Every heartbeat leaves every mesh healthy. */
  lemma HeartbeatMesh(c: Config, s: State, score: PeerId -> real, passes: map<Topic, Pass>, now: int, s': State,
                      t: Topic)
    requires Beaten(c, s, score, passes, now, s') && c.params.Documented() && t in s.mesh
    ensures t in s'.mesh
    ensures Healthy(c.params, WellScored(s.mesh[t], score), Candidates(c, Ticked(c, s, now), t, score), Outbound(s),
                    s'.mesh[t])
  {
    var s1 := Ticked(c, s, now);
    hide Healthy, ClearBackoff, PrunesBacked, FanoutMaintained, Candidates, GossipTargets, Maintained, WellScored;
    PassHealthy(c, s1, t, score, passes[t]);
    hide PassStarts;
    assert Outbound(s1) == Outbound(s);
  }

  lemma PassHealthy(c: Config, s: State, t: Topic, score: PeerId -> real, p: Pass)
    requires t in s.mesh && PassStarts(c, s, t, score, OpportunisticTick(c, s.ticks), p.inputs)
    requires Maintained(p.inputs, p.outcome) && c.params.Documented()
    ensures Healthy(c.params, WellScored(s.mesh[t], score), Candidates(c, s, t, score), Outbound(s), p.outcome.peers)
  {
    InputsAreValid(c, s, t, score, p.inputs);
    InputsAre(c, s, t, score, p.inputs);
    hide *;
    PassSummary(p.inputs, p.outcome);
  }

  lemma InputsAre(c: Config, s: State, t: Topic, score: PeerId -> real, i: Inputs)
    requires t in s.mesh && PassStarts(c, s, t, score, OpportunisticTick(c, s.ticks), i)
    ensures i.params == c.params && i.outbound == Outbound(s)
    ensures i.Survivors() == WellScored(s.mesh[t], score) && ToSet(i.candidates) == Candidates(c, s, t, score)
  {
    hide Candidates, GossipTargets, Outbound, ToSet, Distinct;
  }

  lemma InputsAreValid(c: Config, s: State, t: Topic, score: PeerId -> real, i: Inputs)
    requires t in s.mesh && PassStarts(c, s, t, score, i.opportunisticTick, i)
    ensures i.Valid()
  {
    forall p | p in i.candidates ensures i.score(p) >= 0.0 {
      assert p in ToSet(i.candidates);
    }
  }

  lemma PassSummary(i: Inputs, o: Outcome)
    requires i.Valid() && Maintained(i, o) && i.params.Documented()
    ensures Healthy(i.params, i.Survivors(), ToSet(i.candidates), i.outbound, o.peers)
  {
    hide Maintained, OutSize, ToSet, Distinct, i.Valid, i.Survivors, i.params.Documented, Min;
    MeshSizeBounded(i, o);
    OutboundQuotaMet(i, o);
    DistinctCandidates(i);
    PeersFrom(i, o);
    var g, cs := ToSet(o.Grafted()), ToSet(i.candidates);
    assert (cs - o.peers) * i.outbound <= (cs - g) * i.outbound;
  }

  // ----- what follows a heartbeat's passes

  /** No peer is grafted twice, pruned twice, or both, in one topic. */
  lemma ListsApart(c: Config, s: State, score: PeerId -> real, passes: map<Topic, Pass>, now: int, s': State, t: Topic)
    requires Beaten(c, s, score, passes, now, s') && t in passes
    ensures var o := passes[t].outcome;
            Distinct(o.Grafted()) && Distinct(o.pruned) && ToSet(o.Grafted()) !! ToSet(o.pruned)
  {
    hide ClearBackoff, PrunesBacked, FanoutMaintained;
    PassLists(c, Ticked(c, s, now), t, score, passes[t]);
    hide *;
  }

  lemma PassLists(c: Config, s: State, t: Topic, score: PeerId -> real, p: Pass)
    requires t in s.mesh && PassStarts(c, s, t, score, OpportunisticTick(c, s.ticks), p.inputs)
    requires Maintained(p.inputs, p.outcome)
    ensures Distinct(p.outcome.Grafted()) && Distinct(p.outcome.pruned)
    ensures ToSet(p.outcome.Grafted()) !! ToSet(p.outcome.pruned)
  {
    InputsAreValid(c, s, t, score, p.inputs);
    hide PassStarts, p.inputs.Valid, Filled, Cut, QuotaMade, OpportunisticMade, Distinct, ToSet;
    MeshMatchesLists(p.inputs, p.outcome);
  }

  /** Preparing a PRUNE for a peer just pruned records its backoff again: that changes nothing. */
  lemma PruneRepeats(c: Config, s: State, score: PeerId -> real, passes: map<Topic, Pass>, now: int, s': State,
                     t: Topic, p: PeerId)
    requires Beaten(c, s, score, passes, now, s') && t in passes && p in passes[t].outcome.pruned
    ensures MakePrune(c, s', p, t, false, now) == s'
  {
    hide ClearBackoff, MeshesMaintained, FanoutMaintained, FanoutExpired;
    var s1 := Ticked(c, s, now);
    assert EntryBacked(s1.backoff, passes, now + c.pruneBackoff, s'.backoff, t);
    hide Ticked;
    var was := if t in s1.backoff then s1.backoff[t] else map[];
    BackedAgain(was, ToSet(passes[t].outcome.pruned), p, now + c.pruneBackoff);
    hide Backed;
    assert s'.backoff[t := s'.backoff[t]] == s'.backoff;
  }

  lemma BackedAgain(b: map<PeerId, int>, ids: set<PeerId>, id: PeerId, expire: int)
    requires id in ids
    ensures Backed(Backed(b, ids, expire), {id}, expire) == Backed(b, ids, expire)
  {
  }
}
