/** The router's fields and the methods that update them, each proved to be a step of the model. */
module Router {
  import opened Types
  import opened Seqs
  import opened SetUtils
  import opened MeshPass
  import opened MeshSelection
  import opened RouterModel
  import opened RouterInvariants

  class GossipRouter {
    const c: Config
    var subscriptions: set<Topic>
    var mesh: map<Topic, set<PeerId>>
    var fanout: map<Topic, set<PeerId>>
    var fanoutLastpub: map<Topic, int>
    var topics: map<Topic, set<PeerId>>
    var backoff: Backoffs
    var peers: set<PeerId>
    var outbound: map<PeerId, bool>
    var streamsOutbound: map<PeerId, Protocol>
    var heartbeatTicks: nat

    constructor (c: Config)
      ensures this.c == c && Now() == INITIAL
    {
      this.c := c;
      subscriptions, peers, heartbeatTicks := {}, {}, 0;
      mesh, fanout, fanoutLastpub, topics, backoff := map[], map[], map[], map[], map[];
      outbound, streamsOutbound := map[], map[];
    }

    /** The state of the model these fields stand for. */
    function Now(): State
      reads this
    {
      State(subscriptions, mesh, fanout, fanoutLastpub, topics, backoff, peers, outbound, streamsOutbound,
            heartbeatTicks)
    }

    // ----- backoff

    method DoAddBackoff(id: PeerId, topic: Topic, intervalMs: int, now: int)
      modifies this
      ensures Now() == old(Now()).(backoff := AddBackoff(old(backoff), topic, {id}, now + intervalMs))
    {
      var b := if topic in backoff then backoff[topic] else map[];
      var expire := now + intervalMs;
      var existingExpire := if id in b then b[id] else 0;
      ghost var was := b;
      if existingExpire < expire {
        b := b[id := expire];
      }
      assert b == Backed(was, {id}, expire);
      backoff := backoff[topic := b];
    }

    method ClearExpired(now: int)
      modifies this
      ensures Now() == old(Now()).(backoff := ClearBackoff(c, old(backoff), heartbeatTicks, now))
    {
      if heartbeatTicks % PRUNE_BACKOFF_TICKS != 0 {
        return;
      }
      backoff := ClearEveryTopic(backoff, now);
    }

    method ClearEveryTopic(was: Backoffs, now: int) returns (b: Backoffs)
      ensures b == map t | t in was && Live(c, was[t], now) != map[] :: Live(c, was[t], now)
    {
      var all := Enumerate(was.Keys);
      EnumeratedKeys(all, was);
      hide Live, ToSet, Distinct;
      b := was;
      assert PartlyCleared(c, was, all[..0], now, b);
      for k := 0 to |all|
        invariant PartlyCleared(c, was, all[..k], now, b)
      {
        PartlyClearedStep(c, was, all, k, now, b);
        var live := DeleteExpired(b[all[k]], now);
        b := if live == map[] then b - {all[k]} else b[all[k] := live];
      }
      assert all[..|all|] == all;
    }

    method DeleteExpired(b: map<PeerId, int>, now: int) returns (live: map<PeerId, int>)
      ensures live == Live(c, b, now)
    {
      live := b;
      var all := Enumerate(b.Keys);
      for k := 0 to |all|
        invariant live
               == map p | p in b && (p in all[..k] ==> !(b[p] + BACKOFF_SLACK * c.heartbeatInterval < now)) :: b[p]
      {
        var id := all[k];
        assert id in ToSet(all);
        if b[id] + BACKOFF_SLACK * c.heartbeatInterval < now {
          live := live - {id};
        }
        assert forall u :: u in all[..k + 1] <==> u in all[..k] || u == id;
      }
      assert forall p :: p in all[..|all|] <==> p in ToSet(all);
    }

    /** The backoff side of preparing a PRUNE. */
    method PreparePrune(id: PeerId, topic: Topic, onUnsubscribe: bool, now: int)
      modifies this
      ensures Now() == MakePrune(c, old(Now()), id, topic, onUnsubscribe, now)
    {
      if id in streamsOutbound && streamsOutbound[id] == GossipsubV10 {
        return;
      }
      DoAddBackoff(id, topic, if onUnsubscribe then c.unsubscribeBackoff else c.pruneBackoff, now);
    }

    // ----- received control messages

    method HandleGraft(id: PeerId, score: real, graft: seq<Option<Topic>>, now: int)
      returns (prune: seq<Topic>, doPX: bool, penalties: nat)
      modifies this
      ensures Step(c, old(Now()), Graft(id, score, graft), now, Now())
      ensures var r := GraftAll(c, id, score, now, GraftEffect(old(Now()), [], c.doPX, 0), graft);
              prune == r.prune && doPX == r.doPX && penalties == r.penalties
    {
      hide Step, GraftOne, MakePrune;
      prune, doPX, penalties := [], c.doPX, 0;
      ghost var start := GraftEffect(Now(), [], c.doPX, 0);
      for k := 0 to |graft|
        invariant GraftEffect(Now(), prune, doPX, penalties) == GraftAll(c, id, score, now, start, graft[..k])
      {
        assert graft[..k + 1][..k] == graft[..k];
        match graft[k] {
          case None =>
          case Some(topic) => prune, doPX, penalties := HandleGraftOf(id, score, topic, now, prune, doPX, penalties);
        }
      }
      assert graft[..|graft|] == graft;
      ghost var s := Now();
      for k := 0 to |prune|
        invariant Now() == MakePrunes(c, s, id, prune[..k], now)
      {
        assert prune[..k + 1][..k] == prune[..k];
        PreparePrune(id, prune[k], false, now);
      }
      assert prune[..|prune|] == prune;
      GraftIsStep(c, start.s, id, score, graft, now);
    }

    /** One topic of a GRAFT. */
    method HandleGraftOf(id: PeerId, score: real, topic: Topic, now: int, prune: seq<Topic>, doPX: bool, penalties: nat)
      returns (prune': seq<Topic>, doPX': bool, penalties': nat)
      modifies this
      ensures GraftEffect(Now(), prune', doPX', penalties')
           == GraftOne(c, id, score, now, GraftEffect(old(Now()), prune, doPX, penalties), topic)
    {
      hide AddBackoff, Backed;
      prune', doPX', penalties' := prune, doPX, penalties;
      if topic !in mesh {
        doPX' := false;
        return;
      }
      var peersInMesh := mesh[topic];
      if id in peersInMesh {
        return;
      }
      if id in c.direct {
        prune' := prune' + [topic];
        doPX' := false;
      } else if HasBackoff(backoff, topic, id) && now < backoff[topic][id] {
        var backoffExpiry := backoff[topic][id];
        penalties' := penalties' + 1;
        doPX' := false;
        var floodCutoff := backoffExpiry + c.graftFloodThreshold - c.pruneBackoff;
        if now < floodCutoff {
          penalties' := penalties' + 1;
        }
        DoAddBackoff(id, topic, c.pruneBackoff, now);
        prune' := prune' + [topic];
      } else if score < 0.0 {
        prune' := prune' + [topic];
        doPX' := false;
        DoAddBackoff(id, topic, c.pruneBackoff, now);
      } else if |peersInMesh| >= c.params.Dhi && !(id in outbound && outbound[id]) {
        prune' := prune' + [topic];
        DoAddBackoff(id, topic, c.pruneBackoff, now);
      } else {
        mesh := mesh[topic := peersInMesh + {id}];
      }
    }

    method HandlePrune(id: PeerId, prune: seq<PruneEntry>, now: int)
      modifies this
      ensures Step(c, old(Now()), Prune(id, prune), now, Now())
    {
      ghost var start := Now();
      hide Step, AddBackoff, PruneList;
      PruneListIsStep(c, start, id, prune, now);
      for k := 0 to |prune|
        invariant PruneList(c, start, id, prune, now) == PruneList(c, Now(), id, prune[k..], now)
      {
        var PruneEntry(topicID, peerBackoff) := prune[k];
        PruneListNext(c, Now(), id, prune, k, now);
        match topicID {
          case None =>
          case Some(topic) =>
            if topic !in mesh {
              return;
            }
            mesh := mesh[topic := mesh[topic] - {id}];
            if peerBackoff.Some? && peerBackoff.value > 0 {
              DoAddBackoff(id, topic, peerBackoff.value * 1000, now);
            } else {
              DoAddBackoff(id, topic, c.pruneBackoff, now);
            }
        }
      }
      PruneListDone(c, Now(), id, prune, now);
    }

    // ----- choosing peers

    method SelectFrom(xs: set<PeerId>, keep: PeerId -> bool) returns (r: seq<PeerId>)
      ensures Distinct(r) && ToSet(r) == Where(xs, keep)
    {
      var all := Enumerate(xs);
      r := [];
      for k := 0 to |all|
        invariant Distinct(r) && ToSet(r) == Where(ToSet(all[..k]), keep)
      {
        assert all[..k + 1] == all[..k] + [all[k]];
        assert ToSet(all[..k + 1]) == ToSet(all[..k]) + {all[k]} && all[k] !in ToSet(all[..k]);
        if keep(all[k]) {
          assert ToSet(r + [all[k]]) == ToSet(r) + {all[k]};
          r := r + [all[k]];
        }
      }
      assert all[..|all|] == all;
    }

    method GetRandomGossipPeers(topic: Topic, count: int, filter: PeerId -> bool) returns (chosen: set<PeerId>)
      ensures RandomPick(Where(Reachable(c, Now(), topic), filter), count, chosen)
    {
      var streams, multicodecs := streamsOutbound, c.multicodecs;
      var gossipPeer := (p: PeerId) => p in streams && streams[p] in multicodecs && filter(p);
      var found := SelectFrom(PeersIn(topics, topic), gossipPeer);
      assert ToSet(found) == Where(Reachable(c, Now(), topic), filter);
      var shuffled := ShuffledSlice(found, 0);
      assert found[0..] == found;
      PermutationFacts(found, shuffled);
      DistinctCardinality(found);
      var cut := if count > 0 && |shuffled| > count then shuffled[..count] else shuffled;
      DistinctCardinality(cut);
      chosen := ToSet(cut);
    }

    // ----- join and leave

    method Subscribe(topic: Topic, score: PeerId -> real, now: int)
      modifies this
      ensures Step(c, old(Now()), Event.Subscribe(topic, score), now, Now())
    {
      subscriptions := subscriptions + {topic};
      hide Joined;
      Join(topic, score);
    }

    method Join(topic: Topic, score: PeerId -> real)
      modifies this
      ensures Joined(c, old(Now()), topic, score, Now())
    {
      if topic in mesh {
        return;
      }
      hide JoinChoice;
      var toAdd := ChooseToJoin(topic, score);
      if topic in fanout {
        fanout := fanout - {topic};
        fanoutLastpub := fanoutLastpub - {topic};
      }
      mesh := mesh[topic := toAdd];
    }

    /** The peers a join starts the mesh with. */
    method ChooseToJoin(topic: Topic, score: PeerId -> real) returns (toAdd: set<PeerId>)
      ensures JoinChoice(c, Now(), topic, score, toAdd)
    {
      var direct, bo := c.direct, if topic in backoff then backoff[topic] else map[];
      var fit := (p: PeerId) => p !in direct && score(p) >= 0.0 && p !in bo;
      var taken := SelectFrom(PeersIn(fanout, topic), fit);
      toAdd := ToSet(taken);
      assert toAdd == FanoutFit(c, Now(), topic, score);
      if |toAdd| < c.params.D {
        var have := toAdd;
        var another := (p: PeerId) => p !in have && fit(p);
        JoinPool(c, Now(), topic, score, have, another);
        hide JoinChoice, FanoutFit, Reachable, Choosable, WithoutBackoff, RandomPick, ToSet, Where;
        var newPeers := GetRandomGossipPeers(topic, c.params.D, another);
        JoinBy(c, Now(), topic, score, newPeers);
        toAdd := have + newPeers;
      }
    }

    method Unsubscribe(topic: Topic, now: int)
      modifies this
      ensures Step(c, old(Now()), Event.Unsubscribe(topic), now, Now())
    {
      subscriptions := subscriptions - {topic};
      hide Left;
      Leave(topic, now);
    }

    method Leave(topic: Topic, now: int)
      modifies this
      ensures Now() == Left(c, old(Now()), topic, now)
    {
      if topic !in mesh {
        return;
      }
      hide AddBackoff, Told;
      PrepareLeave(topic, mesh[topic], now);
      mesh := mesh - {topic};
    }

    method PrepareLeave(topic: Topic, ids: set<PeerId>, now: int)
      modifies this
      ensures Now() == old(Now()).(
                backoff := AddBackoff(old(Now()).backoff, topic, Told(old(Now()), ids), now + c.unsubscribeBackoff))
    {
      ghost var s := Now();
      var all := Enumerate(ids);
      NobodyTold(c, s, topic, now);
      hide *;
      for k := 0 to |all|
        invariant Now() == LeavePrunes(c, s, topic, all[..k], now)
      {
        TellOne(c, s, topic, all, k, now);
        PreparePrune(all[k], topic, true, now);
      }
      assert all[..|all|] == all;
      EverybodyTold(c, s, topic, all, now);
    }

    // ----- publish

    /** Whom a published message is sent to; outside the flood mode this may choose fanout peers. */
    method SelectPeersToPublish(topic: Topic, score: PeerId -> real, now: int) returns (tosend: set<PeerId>)
      modifies this
      ensures Published(c, old(Now()), topic, score, now, Now())
      ensures c.floodPublish ==> tosend == FloodTargets(c, Now(), topic, score)
      ensures !c.floodPublish && topic !in topics ==> tosend == {}
      ensures !c.floodPublish && topic in topics && PeersIn(mesh, topic) == {} ==>
                tosend == DirectAndFloodsub(c, Now(), topic, score) + PeersIn(fanout, topic)
      ensures !c.floodPublish && topic in topics && PeersIn(mesh, topic) != {} ==>
                ToMesh(c, Now(), topic, score, tosend)
    {
      if topic !in topics {
        return {};
      }
      hide FloodTargets, DirectAndFloodsub, ToMesh, RandomPick, PublishPool;
      if c.floodPublish {
        tosend := FloodPeers(topic, score);
        return;
      }
      tosend := AlwaysPeers(topic, score);
      if PeersIn(mesh, topic) != {} {
        var extra := ExtraPeers(topic, score);
        tosend := tosend + (mesh[topic] + extra);
        ToMeshBy(c, Now(), topic, score, extra);
      } else {
        RefreshFanout(topic, score, now);
        tosend := tosend + PeersIn(fanout, topic);
      }
    }

    method FloodPeers(topic: Topic, score: PeerId -> real) returns (tosend: set<PeerId>)
      ensures tosend == FloodTargets(c, Now(), topic, score)
    {
      var direct, bar := c.direct, c.publishThreshold;
      var found := SelectFrom(PeersIn(topics, topic), (p: PeerId) => p in direct || score(p) >= bar);
      tosend := ToSet(found);
    }

    /** Direct peers, and floodsub peers above the threshold, of the topic. */
    method AlwaysPeers(topic: Topic, score: PeerId -> real) returns (tosend: set<PeerId>)
      ensures tosend == DirectAndFloodsub(c, Now(), topic, score)
    {
      var direct, floodsub, bar := c.direct, FloodsubPeers(Now()), c.publishThreshold;
      var found := SelectFrom(PeersIn(topics, topic), (p: PeerId) => p in direct || (p in floodsub && score(p) >= bar));
      tosend := ToSet(found);
    }

    /** Makes sure there are fanout peers if any are fit, and notes the time. */
    method RefreshFanout(topic: Topic, score: PeerId -> real, now: int)
      requires topic in topics && !c.floodPublish && PeersIn(mesh, topic) == {}
      modifies this
      ensures Published(c, old(Now()), topic, score, now, Now())
    {
      hide Reachable, RandomPick, PublishPool;
      if PeersIn(fanout, topic) == {} {
        var bar := c.publishThreshold;
        var good := (p: PeerId) => score(p) >= bar;
        var newFanoutPeers := GetRandomGossipPeers(topic, c.params.D, good);
        PublishPoolIs(c, Now(), topic, score, good);
        PickedSome(PublishPool(c, Now(), topic, score), c.params.D, newFanoutPeers);
        if newFanoutPeers != {} {
          fanout := fanout[topic := newFanoutPeers];
        }
      }
      fanoutLastpub := fanoutLastpub[topic := now];
    }

    /** Topic peers beside the mesh, when the mesh has fewer than `D`. */
    method ExtraPeers(topic: Topic, score: PeerId -> real) returns (extra: set<PeerId>)
      requires topic in mesh
      ensures if |mesh[topic]| < c.params.D
              then RandomPick(ExtraPool(c, Now(), topic, score), c.params.D - |mesh[topic]|, extra)
              else extra == {}
    {
      extra := {};
      if |mesh[topic]| < c.params.D {
        var meshPeers, direct, floodsub, bar := mesh[topic], c.direct, FloodsubPeers(Now()), c.publishThreshold;
        var other := (p: PeerId) => p !in meshPeers && p !in direct && p !in floodsub && score(p) >= bar;
        extra := GetRandomGossipPeers(topic, c.params.D - |meshPeers|, other);
        assert Where(Reachable(c, Now(), topic), other) == ExtraPool(c, Now(), topic, score);
      }
    }

    // ----- peers

    method AddPeer(id: PeerId, isOutbound: bool)
      modifies this
      ensures Now() == PeerAdded(old(Now()), id, isOutbound)
    {
      if id !in peers {
        peers := peers + {id};
        if id !in outbound {
          outbound := outbound[id := isOutbound];
        }
      }
    }

    method CreateOutboundStream(id: PeerId, protocol: Protocol)
      modifies this
      ensures Now() == StreamOpened(old(Now()), id, protocol)
    {
      if id !in peers || id in streamsOutbound {
        return;
      }
      streamsOutbound := streamsOutbound[id := protocol];
    }

    method HandleReceivedSubscription(id: PeerId, topic: Topic, subscribe: bool)
      modifies this
      ensures Now() == TopicAnnounced(old(Now()), id, topic, subscribe)
    {
      var topicSet := PeersIn(topics, topic);
      topics := topics[topic := if subscribe then topicSet + {id} else topicSet - {id}];
    }

    method RemovePeer(id: PeerId)
      modifies this
      ensures Now() == PeerRemoved(old(Now()), id)
    {
      if id !in peers {
        return;
      }
      peers := peers - {id};
      streamsOutbound := streamsOutbound - {id};
      topics := DeleteEverywhere(topics, id);
      mesh := DeleteEverywhere(mesh, id);
      fanout := DeleteEverywhere(fanout, id);
      outbound := outbound - {id};
    }

    method DeleteEverywhere(m: map<Topic, set<PeerId>>, id: PeerId) returns (r: map<Topic, set<PeerId>>)
      ensures r == Dropped(m, id)
    {
      r := m;
      var all := Enumerate(m.Keys);
      EnumeratedKeys(all, m);
      assert PartlyDropped(m, all[..0], id, r);
      hide PartlyDropped, ToSet, Distinct;
      for k := 0 to |all|
        invariant PartlyDropped(m, all[..k], id, r)
      {
        PartlyDroppedStep(m, all, k, id, r);
        r := r[all[k] := r[all[k]] - {id}];
      }
      assert all[..|all|] == all;
      AllDropped(m, all, id, r);
    }

    // ----- heartbeat

    /** Maintains meshes, backoffs and fanout; says whom to gossip to about each topic, whom it grafted and pruned. */
    method Heartbeat(score: PeerId -> real, now: int)
      returns (peersToGossipByTopic: map<Topic, set<PeerId>>, tograft: map<Topic, seq<PeerId>>,
               toprune: map<Topic, seq<PeerId>>, ghost passes: map<Topic, Pass>)
      requires c.params.Documented()
      modifies this
      ensures Beaten(c, old(Now()), score, passes, now, Now())
      ensures GossipsTo(c, old(Now()), score, passes, fanout, peersToGossipByTopic)
      ensures tograft == GraftedBy(passes) && toprune == PrunedBy(passes)
    {
      hide *;
      ghost var s := Now();
      CountTick(now);
      ghost var s1 := Now();
      var meshGossip;
      meshGossip, tograft, toprune, passes := MaintainMeshes(score, now);
      ghost var s2 := Now();
      var fanoutGossip := MaintainFanout(score, now);
      BeatenBy(c, s, s1, s2, score, passes, now, Now());
      peersToGossipByTopic := meshGossip + fanoutGossip;
      GossipBy(c, s, s1, s2, score, passes, now, fanout, meshGossip, fanoutGossip, tograft, toprune);
    }

    method CountTick(now: int)
      modifies this
      ensures AfterTick(c, old(Now()), now, Now())
    {
      heartbeatTicks := heartbeatTicks + 1;
      ClearExpired(now);
    }

    /** The pass over every joined topic. */
    method MaintainMeshes(score: PeerId -> real, now: int)
      returns (gossip: map<Topic, set<PeerId>>, tograft: map<Topic, seq<PeerId>>, toprune: map<Topic, seq<PeerId>>,
               ghost passes: map<Topic, Pass>)
      requires c.params.Documented()
      modifies this
      ensures AfterMeshes(c, old(Now()), score, passes, now + c.pruneBackoff, Now())
      ensures GossipLeft(passes, gossip, tograft, toprune)
    {
      ghost var s := Now();
      hide AfterMeshes, PartlyMaintained, ToSet, Distinct;
      var all := Enumerate(mesh.Keys);
      gossip, tograft, toprune, passes := MaintainAll(all, score, now);
      AllMaintained(c, s, score, all, passes, now + c.pruneBackoff, Now());
    }

    method MaintainAll(all: seq<Topic>, score: PeerId -> real, now: int)
      returns (gossip: map<Topic, set<PeerId>>, tograft: map<Topic, seq<PeerId>>, toprune: map<Topic, seq<PeerId>>,
               ghost passes: map<Topic, Pass>)
      requires c.params.Documented() && Distinct(all) && ToSet(all) == mesh.Keys
      modifies this
      ensures PartlyMaintained(c, old(Now()), score, all, passes, now + c.pruneBackoff, Now())
      ensures GossipLeft(passes, gossip, tograft, toprune)
    {
      ghost var s := Now();
      hide PartlyMaintained, MaintainedOne, ToSet, Distinct;
      gossip, tograft, toprune, passes := map[], map[], map[], map[];
      assert GossipLeft(passes, gossip, tograft, toprune);
      hide GossipLeft;
      NothingMaintained(c, s, score, all[..0], now + c.pruneBackoff);
      for k := 0 to |all|
        invariant PartlyMaintained(c, s, score, all[..k], passes, now + c.pruneBackoff, Now())
        invariant GossipLeft(passes, gossip, tograft, toprune)
      {
        PartlyMaintainedFacts(c, s, score, all, k, passes, now + c.pruneBackoff, Now());
        ghost var m, before := Now(), passes;
        var targets, grafted, pruned;
        targets, grafted, pruned, passes := MaintainMesh(all[k], score, now, passes);
        GossipLeftNext(before, gossip, tograft, toprune, all[k], passes[all[k]]);
        gossip, tograft, toprune := gossip[all[k] := targets], tograft[all[k] := grafted], toprune[all[k] := pruned];
        PartlyMaintainedStep(c, s, m, score, all, k, before, passes, now + c.pruneBackoff, Now());
      }
      assert all[..|all|] == all;
    }

    /** Maintains one mesh in place and records the backoffs of the peers pruned. */
    method MaintainMesh(topic: Topic, score: PeerId -> real, now: int, ghost before: map<Topic, Pass>)
      returns (gossip: set<PeerId>, grafted: seq<PeerId>, pruned: seq<PeerId>, ghost passes: map<Topic, Pass>)
      requires c.params.Documented() && topic in Now().mesh
      modifies this
      ensures MaintainedOne(c, old(Now()), topic, score, before, passes, now + c.pruneBackoff, Now())
      ensures topic in passes && passes == before[topic := passes[topic]] && gossip == passes[topic].outcome.gossip
      ensures grafted == passes[topic].outcome.Grafted() && pruned == passes[topic].outcome.pruned
    {
      hide Maintained, PassStarts, AddBackoff, Replaced, ToSet;
      ghost var p;
      var after;
      after, grafted, pruned, gossip, p := PassOver(topic, score);
      passes := before[topic := p];
      ReplaceMesh(topic, after, pruned, now);
    }

    method ReplaceMesh(topic: Topic, after: set<PeerId>, pruned: seq<PeerId>, now: int)
      modifies this
      ensures Replaced(old(Now()), topic, after,
                       AddBackoff(old(Now()).backoff, topic, ToSet(pruned), now + c.pruneBackoff), Now())
    {
      hide AddBackoff, ToSet;
      mesh := mesh[topic := after];
      BackOff(topic, pruned, now);
    }

    /** Runs the pass: the mesh it leaves, the peers it grafts and prunes and those to gossip to. */
    method PassOver(topic: Topic, score: PeerId -> real)
      returns (after: set<PeerId>, grafted: seq<PeerId>, pruned: seq<PeerId>, gossip: set<PeerId>, ghost p: Pass)
      requires c.params.Documented() && topic in Now().mesh
      ensures PassStarts(c, Now(), topic, score, OpportunisticTick(c, heartbeatTicks), p.inputs)
      ensures Maintained(p.inputs, p.outcome)
      ensures after == p.outcome.peers && pruned == p.outcome.pruned && gossip == p.outcome.gossip
      ensures grafted == p.outcome.Grafted()
    {
      var candidates, targets := PrepareCandidates(topic, score);
      var tick := OpportunisticTick(c, heartbeatTicks);
      var inputs := Inputs(mesh[topic], candidates.items, targets, score, Outbound(Now()), c.params, tick);
      hide Maintained, Candidates, GossipTargets, Outbound;
      InputsAreValid(c, Now(), topic, score, inputs);
      hide PassStarts, inputs.Valid;
      var pass := new TopicPass(inputs, candidates);
      ghost var o := pass.Maintain(tick);
      after, grafted, pruned, gossip, p := pass.peers, pass.grafted, pass.pruned, pass.gossip, Pass(inputs, o);
    }

    method BackOff(topic: Topic, ids: seq<PeerId>, now: int)
      modifies this
      ensures Now() == old(Now()).(backoff := AddBackoff(old(Now()).backoff, topic, ToSet(ids), now + c.pruneBackoff))
    {
      ghost var s := Now();
      NobodyBacked(s, topic, ids[..0], now + c.pruneBackoff);
      hide AddBackoff, ToSet, BackedOffs;
      for k := 0 to |ids|
        invariant Now() == BackedOffs(s, topic, ids[..k], now + c.pruneBackoff)
      {
        OneMoreBacked(s, topic, ids, k, now + c.pruneBackoff);
        DoAddBackoff(ids[k], topic, c.pruneBackoff, now);
      }
      assert ids[..|ids|] == ids;
      AllBacked(s, topic, ids, now + c.pruneBackoff);
    }

    /** Peers the mesh of a topic may take, in random order, and peers to gossip to. */
    method PrepareCandidates(topic: Topic, score: PeerId -> real)
      returns (candidates: OrderedSet<PeerId>, gossip: set<PeerId>)
      requires topic in mesh
      ensures fresh(candidates) && candidates.Valid()
      ensures ToSet(candidates.items) == Candidates(c, Now(), topic, score)
      ensures gossip == GossipTargets(c, Now(), topic, score)
    {
      var inMesh, direct, streams, codecs := mesh[topic], c.direct, streamsOutbound, c.multicodecs;
      var bo, bar := if topic in backoff then backoff[topic] else map[], c.params.gossipThreshold;
      var outside := (p: PeerId) => p in streams && streams[p] in codecs && p !in inMesh && p !in direct;
      var isCandidate := (p: PeerId) => outside(p) && p !in bo && score(p) >= 0.0;
      var isTarget := (p: PeerId) => outside(p) && score(p) >= bar;
      var listed := Enumerate(PeersIn(topics, topic));
      var shuffledPeers := ShuffledSlice(listed, 0);
      assert listed[0..] == listed;
      PermutationFacts(listed, shuffledPeers);
      ghost var s := Now();
      assert Where(PeersIn(topics, topic), isCandidate) == Candidates(c, s, topic, score);
      assert Where(PeersIn(topics, topic), isTarget) == GossipTargets(c, s, topic, score);
      hide Candidates, GossipTargets, Where, ToSet, Distinct;
      candidates, gossip := CollectCandidates(shuffledPeers, isCandidate, isTarget);
    }

    method CollectCandidates(shuffledPeers: seq<PeerId>, isCandidate: PeerId -> bool, isTarget: PeerId -> bool)
      returns (candidates: OrderedSet<PeerId>, gossip: set<PeerId>)
      ensures fresh(candidates) && candidates.Valid()
      ensures ToSet(candidates.items) == Where(ToSet(shuffledPeers), isCandidate)
      ensures gossip == Where(ToSet(shuffledPeers), isTarget)
    {
      candidates := new OrderedSet();
      gossip := {};
      for k := 0 to |shuffledPeers|
        invariant fresh(candidates) && candidates.Valid()
        invariant ToSet(candidates.items) == Where(ToSet(shuffledPeers[..k]), isCandidate)
        invariant gossip == Where(ToSet(shuffledPeers[..k]), isTarget)
      {
        var id := shuffledPeers[k];
        ToSetNext(shuffledPeers, k);
        WhereNext(ToSet(shuffledPeers[..k]), id, isCandidate);
        WhereNext(ToSet(shuffledPeers[..k]), id, isTarget);
        hide Where;
        if isCandidate(id) {
          ghost var before := candidates.items;
          candidates.Add(id);
          assert ToSet(candidates.items) == ToSet(before) + {id};
        }
        if isTarget(id) {
          gossip := gossip + {id};
        }
      }
      assert shuffledPeers[..|shuffledPeers|] == shuffledPeers;
    }

    /** Drops fanout topics not published to for long and tops the others up; says whom to gossip to about them. */
    method MaintainFanout(score: PeerId -> real, now: int) returns (gossip: map<Topic, set<PeerId>>)
      modifies this
      ensures AfterFanout(c, old(Now()), score, now, Now())
      ensures FanoutGossipLeft(c, old(Now()), score, fanout, gossip)
    {
      var expired := FanoutExpired(c, Now(), now);
      var kept;
      kept, gossip := KeepFanout(fanout.Keys - expired, score);
      hide FanoutKept, FanoutExpired, FanoutGossipLeft;
      fanout := kept;
      fanoutLastpub := fanoutLastpub - expired;
    }

    method KeepFanout(ts: set<Topic>, score: PeerId -> real)
      returns (kept: map<Topic, set<PeerId>>, gossip: map<Topic, set<PeerId>>)
      requires ts <= fanout.Keys
      ensures kept.Keys == ts && forall t :: t in kept ==> FanoutKept(c, Now(), t, score, kept[t])
      ensures FanoutGossipLeft(c, Now(), score, kept, gossip)
    {
      var all := Enumerate(ts);
      kept, gossip := map[], map[];
      hide FanoutKept, FanoutGossip;
      for k := 0 to |all|
        invariant kept.Keys == ToSet(all[..k]) <= fanout.Keys
        invariant forall t :: t in kept ==> FanoutKept(c, Now(), t, score, kept[t])
        invariant FanoutGossipLeft(c, Now(), score, kept, gossip)
      {
        ToSetNext(all, k);
        assert all[k] in ToSet(all);
        var peersNow, targets := FanoutPeers(all[k], score);
        kept := kept[all[k] := peersNow];
        gossip := gossip[all[k] := targets];
      }
      assert all[..|all|] == all;
    }

    method FanoutPeers(topic: Topic, score: PeerId -> real) returns (r: set<PeerId>, peersToGossip: set<PeerId>)
      requires topic in fanout
      ensures FanoutKept(c, Now(), topic, score, r) && peersToGossip == FanoutGossip(c, Now(), topic, score, r)
    {
      var kept := FanoutStaying(c, Now(), topic, score);
      var candidateFanoutPeers := FanoutCandidates(topic, score, kept, c.publishThreshold);
      var targets := FanoutCandidates(topic, score, kept, c.params.gossipThreshold);
      hide Choosable, FanoutStaying, FanoutKept, FanoutGossip;
      var n := if |kept| < c.params.D then Min(c.params.D - |kept|, |candidateFanoutPeers|) else 0;
      FirstFew(candidateFanoutPeers, n, kept);
      hide ToSet;
      r := kept + ToSet(candidateFanoutPeers[..n]);
      peersToGossip := ToSet(targets) - ToSet(candidateFanoutPeers[..n]);
      FanoutBy(c, Now(), topic, score, ToSet(candidateFanoutPeers), ToSet(candidateFanoutPeers[..n]), ToSet(targets));
    }

    /** Topic peers beside the fanout that score at least `bar`. */
    method FanoutCandidates(topic: Topic, score: PeerId -> real, kept: set<PeerId>, bar: real)
      returns (found: seq<PeerId>)
      ensures Distinct(found) && ToSet(found) == Choosable(c, Now(), topic, score, bar) - kept
    {
      var streams, codecs, direct := streamsOutbound, c.multicodecs, c.direct;
      var other := (p: PeerId) => p in streams && streams[p] in codecs && p !in kept && p !in direct && score(p) >= bar;
      found := SelectFrom(PeersIn(topics, topic), other);
    }
  }

  /** `id` has been deleted from the sets of the topics in `done`. */
  ghost predicate PartlyDropped(m: map<Topic, set<PeerId>>, done: seq<Topic>, id: PeerId, r: map<Topic, set<PeerId>>) {
    r.Keys == m.Keys && forall t :: t in m ==> r[t] == if t in done then m[t] - {id} else m[t]
  }

  lemma PartlyDroppedStep(m: map<Topic, set<PeerId>>, all: seq<Topic>, k: nat, id: PeerId, r: map<Topic, set<PeerId>>)
    requires k < |all| && Distinct(all) && PartlyDropped(m, all[..k], id, r) && all[k] in m
    ensures all[k] in r && PartlyDropped(m, all[..k + 1], id, r[all[k] := r[all[k]] - {id}])
  {
    assert all[..k + 1] == all[..k] + [all[k]];
  }

  lemma AllDropped(m: map<Topic, set<PeerId>>, all: seq<Topic>, id: PeerId, r: map<Topic, set<PeerId>>)
    requires PartlyDropped(m, all, id, r) && forall t :: t in all <==> t in m
    ensures r == Dropped(m, id)
  {
  }

  lemma PublishPoolIs(c: Config, s: State, t: Topic, score: PeerId -> real, good: PeerId -> bool)
    requires forall p :: good(p) <==> score(p) >= c.publishThreshold
    ensures Where(Reachable(c, s, t), good) == PublishPool(c, s, t, score)
  {
    hide Reachable;
  }

  lemma ToMeshBy(c: Config, s: State, t: Topic, score: PeerId -> real, extra: set<PeerId>)
    requires if |PeersIn(s.mesh, t)| < c.params.D
             then RandomPick(ExtraPool(c, s, t, score), c.params.D - |PeersIn(s.mesh, t)|, extra)
             else extra == {}
    ensures ToMesh(c, s, t, score, DirectAndFloodsub(c, s, t, score) + (PeersIn(s.mesh, t) + extra))
  {
    hide DirectAndFloodsub, RandomPick, ExtraPool;
  }

  lemma PickedSome(pool: set<PeerId>, count: nat, picked: set<PeerId>)
    requires RandomPick(pool, count, picked)
    ensures picked == {} <==> pool == {}
  {
  }

  lemma JoinPool(c: Config, s: State, t: Topic, score: PeerId -> real, have: set<PeerId>, keep: PeerId -> bool)
    requires forall p :: keep(p) <==> p !in have && p !in c.direct && score(p) >= 0.0 && !HasBackoff(s.backoff, t, p)
    ensures Where(Reachable(c, s, t), keep) == WithoutBackoff(s, t, Choosable(c, s, t, score, 0.0)) - have
  {
    hide Reachable;
  }

  lemma JoinBy(c: Config, s: State, t: Topic, score: PeerId -> real, picked: set<PeerId>)
    requires var fit := FanoutFit(c, s, t, score);
             && |fit| < c.params.D
             && RandomPick(WithoutBackoff(s, t, Choosable(c, s, t, score, 0.0)) - fit, c.params.D, picked)
    ensures JoinChoice(c, s, t, score, FanoutFit(c, s, t, score) + picked)
  {
    hide FanoutFit, WithoutBackoff, Choosable, RandomPick;
    PickedApart(WithoutBackoff(s, t, Choosable(c, s, t, score, 0.0)), FanoutFit(c, s, t, score), c.params.D, picked);
  }

  lemma PickedApart(pool: set<PeerId>, have: set<PeerId>, count: int, picked: set<PeerId>)
    requires RandomPick(pool - have, count, picked)
    ensures RandomPick(pool - have, count, have + picked - have)
  {
    assert have + picked - have == picked;
  }

  /** Backoffs recorded one at a time for the same moment add up. */
  lemma AddBackoffJoins(b: Backoffs, t: Topic, ids: set<PeerId>, id: PeerId, expire: int)
    ensures AddBackoff(AddBackoff(b, t, ids, expire), t, {id}, expire) == AddBackoff(b, t, ids + {id}, expire)
  {
    var was := if t in b then b[t] else map[];
    assert Backed(Backed(was, ids, expire), {id}, expire) == Backed(was, ids + {id}, expire);
    assert ids == {} ==> ids + {id} == {id};
  }

  /** The state once `done` have been prepared a PRUNE for leaving. */
  ghost function LeavePrunes(c: Config, s: State, t: Topic, done: seq<PeerId>, now: int): State {
    s.(backoff := AddBackoff(s.backoff, t, Told(s, ToSet(done)), now + c.unsubscribeBackoff))
  }

  lemma TellOne(c: Config, s: State, t: Topic, all: seq<PeerId>, k: nat, now: int)
    requires k < |all|
    ensures MakePrune(c, LeavePrunes(c, s, t, all[..k], now), all[k], t, true, now)
         == LeavePrunes(c, s, t, all[..k + 1], now)
  {
    hide Told, ToSet, AddBackoff;
    ToldMore(s, all, k);
    AddBackoffJoins(s.backoff, t, Told(s, ToSet(all[..k])), all[k], now + c.unsubscribeBackoff);
  }

  lemma ToldMore(s: State, all: seq<PeerId>, k: nat)
    requires k < |all|
    ensures var before := Told(s, ToSet(all[..k]));
            Told(s, ToSet(all[..k + 1]))
            == if all[k] in s.streams && s.streams[all[k]] == GossipsubV10 then before else before + {all[k]}
  {
    assert all[..k + 1] == all[..k] + [all[k]];
    assert ToSet(all[..k + 1]) == ToSet(all[..k]) + {all[k]};
  }

  lemma NobodyTold(c: Config, s: State, t: Topic, now: int)
    ensures forall none: seq<PeerId> :: none == [] ==> LeavePrunes(c, s, t, none, now) == s
  {
    assert Told(s, {}) == {};
  }

  lemma EverybodyTold(c: Config, s: State, t: Topic, all: seq<PeerId>, now: int)
    ensures LeavePrunes(c, s, t, all, now)
         == s.(backoff := AddBackoff(s.backoff, t, Told(s, ToSet(all)), now + c.unsubscribeBackoff))
  {
  }

  // ----- loop steps of the methods above

  lemma ToSetNext<T>(s: seq<T>, k: nat)
    requires k < |s|
    ensures ToSet(s[..k + 1]) == ToSet(s[..k]) + {s[k]}
  {
    assert s[..k + 1] == s[..k] + [s[k]];
  }

  /** One topic's mesh has been maintained, and the others are as they were. */
  ghost predicate MaintainedOne(c: Config, s: State, t: Topic, score: PeerId -> real, before: map<Topic, Pass>,
                                passes: map<Topic, Pass>, expire: int, s': State) {
    && t in s.mesh && t in passes && passes == before[t := passes[t]]
    && PassStarts(c, s, t, score, OpportunisticTick(c, s.ticks), passes[t].inputs)
    && Maintained(passes[t].inputs, passes[t].outcome)
    && Replaced(s, t, passes[t].outcome.peers, AddBackoff(s.backoff, t, ToSet(passes[t].outcome.pruned), expire), s')
  }

  /** One topic's mesh and the backoffs are new, all else is the same. */
  ghost predicate Replaced(s: State, t: Topic, peers: set<PeerId>, b: Backoffs, s': State) {
    s' == s.(mesh := s.mesh[t := peers], backoff := b)
  }

  ghost function BackedOffs(s: State, t: Topic, ids: seq<PeerId>, expire: int): State {
    s.(backoff := AddBackoff(s.backoff, t, ToSet(ids), expire))
  }

  lemma NobodyBacked(s: State, t: Topic, none: seq<PeerId>, expire: int)
    requires none == []
    ensures BackedOffs(s, t, none, expire) == s
  {
  }

  lemma AllBacked(s: State, t: Topic, ids: seq<PeerId>, expire: int)
    ensures BackedOffs(s, t, ids, expire) == s.(backoff := AddBackoff(s.backoff, t, ToSet(ids), expire))
  {
  }

  lemma OneMoreBacked(s: State, t: Topic, ids: seq<PeerId>, k: nat, expire: int)
    requires k < |ids|
    ensures var m := BackedOffs(s, t, ids[..k], expire);
            BackedOffs(s, t, ids[..k + 1], expire) == m.(backoff := AddBackoff(m.backoff, t, {ids[k]}, expire))
  {
    hide ToSet, AddBackoff;
    ToSetNext(ids, k);
    AddBackoffJoins(s.backoff, t, ToSet(ids[..k]), ids[k], expire);
  }

  /** The topics in `done` have been maintained. */
  ghost predicate PartlyMaintained(c: Config, s: State, score: PeerId -> real, done: seq<Topic>,
                                   passes: map<Topic, Pass>, expire: int, s': State) {
    && passes.Keys == ToSet(done)
    && PassesDone(c, s, score, passes, s'.mesh)
    && PrunesBacked(s.backoff, passes, expire, s'.backoff)
    && OnlyMeshAndBackoff(s, s')
  }

  ghost predicate OnlyMeshAndBackoff(s: State, s': State) { s' == s.(mesh := s'.mesh, backoff := s'.backoff) }

  /** Meshes with a pass are as it left them, the others are unchanged. */
  ghost predicate PassesDone(c: Config, s: State, score: PeerId -> real, passes: map<Topic, Pass>,
                             mesh: map<Topic, set<PeerId>>) {
    && mesh.Keys == s.mesh.Keys && passes.Keys <= s.mesh.Keys
    && (forall t :: t in passes ==> PassDone(c, s, score, t, passes[t], mesh))
    && (forall t :: t in mesh && t !in passes ==> mesh[t] == s.mesh[t])
  }

  ghost predicate PassDone(c: Config, s: State, score: PeerId -> real, t: Topic, p: Pass, mesh: map<Topic, set<PeerId>>)
    requires t in s.mesh
  {
    && PassStarts(c, s, t, score, OpportunisticTick(c, s.ticks), p.inputs)
    && Maintained(p.inputs, p.outcome)
    && t in mesh && mesh[t] == p.outcome.peers
  }

  lemma NothingMaintained(c: Config, s: State, score: PeerId -> real, none: seq<Topic>, expire: int)
    requires none == []
    ensures PartlyMaintained(c, s, score, none, map[], expire, s)
  {
  }

  lemma PartlyMaintainedFacts(c: Config, s: State, score: PeerId -> real, all: seq<Topic>, k: nat,
                              passes: map<Topic, Pass>, expire: int, s': State)
    requires k < |all| && ToSet(all) == s.mesh.Keys && PartlyMaintained(c, s, score, all[..k], passes, expire, s')
    ensures all[k] in s'.mesh && all[k] in s.mesh
  {
    assert all[k] in ToSet(all);
  }

  lemma PartlyMaintainedStep(c: Config, s: State, m: State, score: PeerId -> real, all: seq<Topic>, k: nat,
                             before: map<Topic, Pass>, passes: map<Topic, Pass>, expire: int, s': State)
    requires k < |all| && all[k] in s.mesh && Distinct(all)
    requires PartlyMaintained(c, s, score, all[..k], before, expire, m)
    requires MaintainedOne(c, m, all[k], score, before, passes, expire, s')
    ensures PartlyMaintained(c, s, score, all[..k + 1], passes, expire, s')
  {
    hide PassStarts, AddBackoff, PrunesBacked, PassesDone, OnlyMeshAndBackoff, ToSet, Maintained, Replaced;
    var t := all[k];
    KeysStep(all, k, before, passes);
    var b := AddBackoff(m.backoff, t, ToSet(passes[t].outcome.pruned), expire);
    FrameStep(s, m, t, passes[t].outcome.peers, b, s');
    hide MaintainedOne;
    PrunesBackedStep(s.backoff, m.backoff, t, before, passes, expire, b);
    PassesDoneStep(c, s, m, score, t, before, passes, s'.mesh);
  }

  lemma KeysStep(all: seq<Topic>, k: nat, before: map<Topic, Pass>, passes: map<Topic, Pass>)
    requires k < |all| && Distinct(all) && before.Keys == ToSet(all[..k])
    requires all[k] in passes && passes == before[all[k] := passes[all[k]]]
    ensures passes.Keys == ToSet(all[..k + 1]) && all[k] !in before
  {
    ToSetNext(all, k);
  }

  lemma FrameStep(s: State, m: State, t: Topic, peers: set<PeerId>, b: Backoffs, s': State)
    requires OnlyMeshAndBackoff(s, m) && Replaced(m, t, peers, b, s')
    ensures OnlyMeshAndBackoff(s, s') && s'.mesh == m.mesh[t := peers] && s'.backoff == b
  {
  }

  lemma PassesDoneStep(c: Config, s: State, m: State, score: PeerId -> real, t: Topic, before: map<Topic, Pass>,
                       passes: map<Topic, Pass>, mesh: map<Topic, set<PeerId>>)
    requires OnlyMeshAndBackoff(s, m) && SameEntry(s.backoff, m.backoff, t)
    requires t in s.mesh && t in passes && t !in before && passes == before[t := passes[t]]
    requires PassesDone(c, s, score, before, m.mesh)
    requires t in m.mesh && PassStarts(c, m, t, score, OpportunisticTick(c, m.ticks), passes[t].inputs)
    requires Maintained(passes[t].inputs, passes[t].outcome) && mesh == m.mesh[t := passes[t].outcome.peers]
    ensures PassesDone(c, s, score, passes, mesh)
  {
    hide PassStarts, Maintained;
    PassStartsFrame(c, s, m, t, score, passes[t].inputs);
  }

  lemma PrunesBackedStep(b: Backoffs, m: Backoffs, t: Topic, before: map<Topic, Pass>, passes: map<Topic, Pass>,
                         expire: int, b': Backoffs)
    requires t in passes && t !in before && passes == before[t := passes[t]] && PrunesBacked(b, before, expire, m)
    requires b' == AddBackoff(m, t, ToSet(passes[t].outcome.pruned), expire)
    ensures PrunesBacked(b, passes, expire, b') && SameEntry(b, m, t)
  {
    assert EntryBacked(b, before, expire, m, t);
    var pruned := passes[t].outcome.pruned;
    assert ToSet(pruned) == {} <==> pruned == [] by {
      if pruned != [] { assert pruned[0] in ToSet(pruned); }
    }
    hide Backed, ToSet;
    forall u ensures EntryBacked(b, passes, expire, b', u) {
      assert EntryBacked(b, before, expire, m, u);
    }
  }

  ghost predicate AfterTick(c: Config, s: State, now: int, s': State) { s' == Ticked(c, s, now) }

  ghost predicate AfterFanout(c: Config, s: State, score: PeerId -> real, now: int, s': State) {
    && FanoutMaintained(c, s, score, now, s'.fanout)
    && s' == s.(fanout := s'.fanout, fanoutLastpub := s.fanoutLastpub - FanoutExpired(c, s, now))
  }

  /** The state after every topic's pass. */
  ghost predicate AfterMeshes(c: Config, s: State, score: PeerId -> real, passes: map<Topic, Pass>, expire: int,
                              s': State) {
    && MeshesMaintained(c, s, score, passes, s'.mesh)
    && PrunesBacked(s.backoff, passes, expire, s'.backoff)
    && s' == s.(mesh := s'.mesh, backoff := s'.backoff)
  }

  lemma FanoutBy(c: Config, s: State, t: Topic, score: PeerId -> real, found: set<PeerId>, taken: set<PeerId>,
                 targets: set<PeerId>)
    requires t in s.fanout
    requires found == Choosable(c, s, t, score, c.publishThreshold) - FanoutStaying(c, s, t, score)
    requires targets == Choosable(c, s, t, score, c.params.gossipThreshold) - FanoutStaying(c, s, t, score)
    requires var kept := FanoutStaying(c, s, t, score);
             taken <= found && |taken| == if |kept| < c.params.D then Min(c.params.D - |kept|, |found|) else 0
    ensures FanoutKept(c, s, t, score, FanoutStaying(c, s, t, score) + taken)
    ensures targets - taken == FanoutGossip(c, s, t, score, FanoutStaying(c, s, t, score) + taken)
  {
    var kept := FanoutStaying(c, s, t, score);
    hide Choosable, FanoutStaying;
    assert kept + taken - kept == taken;
  }

  /** The gossip targets and the lists the passes left. */
  ghost predicate GossipLeft(passes: map<Topic, Pass>, gossip: map<Topic, set<PeerId>>,
                             tograft: map<Topic, seq<PeerId>>, toprune: map<Topic, seq<PeerId>>) {
    && gossip.Keys == passes.Keys && (forall t :: t in passes ==> gossip[t] == passes[t].outcome.gossip)
    && tograft == GraftedBy(passes) && toprune == PrunedBy(passes)
  }

  lemma GossipLeftNext(passes: map<Topic, Pass>, gossip: map<Topic, set<PeerId>>, tograft: map<Topic, seq<PeerId>>,
                       toprune: map<Topic, seq<PeerId>>, t: Topic, p: Pass)
    requires GossipLeft(passes, gossip, tograft, toprune)
    ensures GossipLeft(passes[t := p], gossip[t := p.outcome.gossip], tograft[t := p.outcome.Grafted()],
                       toprune[t := p.outcome.pruned])
  {
  }

  ghost predicate FanoutGossipLeft(c: Config, s: State, score: PeerId -> real, fanout: map<Topic, set<PeerId>>,
                                   gossip: map<Topic, set<PeerId>>) {
    gossip.Keys == fanout.Keys && forall t :: t in fanout ==> gossip[t] == FanoutGossip(c, s, t, score, fanout[t])
  }

  /** Fanout targets take the place of those of the mesh. */
  lemma GossipBy(c: Config, s: State, s1: State, s2: State, score: PeerId -> real, passes: map<Topic, Pass>, now: int,
                 fanout: map<Topic, set<PeerId>>, meshGossip: map<Topic, set<PeerId>>,
                 fanoutGossip: map<Topic, set<PeerId>>, tograft: map<Topic, seq<PeerId>>,
                 toprune: map<Topic, seq<PeerId>>)
    requires AfterTick(c, s, now, s1) && AfterMeshes(c, s1, score, passes, now + c.pruneBackoff, s2)
    requires GossipLeft(passes, meshGossip, tograft, toprune) && FanoutGossipLeft(c, s2, score, fanout, fanoutGossip)
    ensures GossipsTo(c, s, score, passes, fanout, meshGossip + fanoutGossip)
    ensures tograft == GraftedBy(passes) && toprune == PrunedBy(passes)
  {
    hide MeshesMaintained, PrunesBacked, ClearBackoff;
    forall t | t in fanout ensures FanoutGossip(c, s2, t, score, fanout[t]) == FanoutGossip(c, s, t, score, fanout[t]) {
      assert Reachable(c, s2, t) == Reachable(c, s, t);
    }
    hide FanoutGossip, AfterMeshes;
  }

  lemma FirstFew(found: seq<PeerId>, n: nat, kept: set<PeerId>)
    requires Distinct(found) && n <= |found| && ToSet(found) !! kept
    ensures |ToSet(found)| == |found| && ToSet(found[..n]) <= ToSet(found)
    ensures |kept + ToSet(found[..n]) - kept| == n && kept + ToSet(found[..n]) - kept == ToSet(found[..n])
  {
    DistinctCardinality(found);
    DistinctCardinality(found[..n]);
    assert kept + ToSet(found[..n]) - kept == ToSet(found[..n]);
  }

  lemma WhereNext(xs: set<PeerId>, x: PeerId, keep: PeerId -> bool)
    ensures Where(xs + {x}, keep) == if keep(x) then Where(xs, keep) + {x} else Where(xs, keep)
  {
  }

  lemma PassStartsFrame(c: Config, s: State, m: State, t: Topic, score: PeerId -> real, i: Inputs)
    requires t in s.mesh && t in m.mesh && s.mesh[t] == m.mesh[t] && SameEntry(s.backoff, m.backoff, t)
    requires m == s.(mesh := m.mesh, backoff := m.backoff)
    requires PassStarts(c, m, t, score, OpportunisticTick(c, m.ticks), i)
    ensures PassStarts(c, s, t, score, OpportunisticTick(c, s.ticks), i)
  {
    assert Reachable(c, s, t) == Reachable(c, m, t);
    assert Outbound(s) == Outbound(m);
  }

  lemma AllMaintained(c: Config, s: State, score: PeerId -> real, all: seq<Topic>, passes: map<Topic, Pass>,
                      expire: int, s': State)
    requires PartlyMaintained(c, s, score, all, passes, expire, s') && ToSet(all) == s.mesh.Keys
    ensures AfterMeshes(c, s, score, passes, expire, s')
  {
    hide PassStarts, Maintained, PrunesBacked, ToSet;
  }

  /** The three parts of a heartbeat make up the whole. */
  lemma BeatenBy(c: Config, s: State, s1: State, s2: State, score: PeerId -> real, passes: map<Topic, Pass>,
                 now: int, s': State)
    requires AfterTick(c, s, now, s1) && AfterMeshes(c, s1, score, passes, now + c.pruneBackoff, s2)
    requires AfterFanout(c, s2, score, now, s')
    ensures Beaten(c, s, score, passes, now, s')
  {
    hide MeshesMaintained, PrunesBacked, FanoutMaintained, ClearBackoff, FanoutExpired;
    FanoutFrame(c, s, s2.mesh, s2.backoff, s2.ticks, score, now, s'.fanout);
  }

  /** Fanout upkeep looks at nothing the mesh passes change. */
  lemma FanoutFrame(c: Config, s: State, mesh: map<Topic, set<PeerId>>, backoff: Backoffs, ticks: nat,
                    score: PeerId -> real, now: int, fanout: map<Topic, set<PeerId>>)
    requires FanoutMaintained(c, s.(mesh := mesh, backoff := backoff, ticks := ticks), score, now, fanout)
    ensures FanoutMaintained(c, s, score, now, fanout)
    ensures FanoutExpired(c, s.(mesh := mesh, backoff := backoff, ticks := ticks), now) == FanoutExpired(c, s, now)
  {
    var m := s.(mesh := mesh, backoff := backoff, ticks := ticks);
    hide FanoutKept;
    forall t | t in fanout ensures FanoutKept(c, s, t, score, fanout[t]) {
      FanoutKeptFrame(c, s, mesh, backoff, ticks, t, score, fanout[t]);
    }
  }

  lemma FanoutKeptFrame(c: Config, s: State, mesh: map<Topic, set<PeerId>>, backoff: Backoffs, ticks: nat,
                        t: Topic, score: PeerId -> real, now: set<PeerId>)
    requires t in s.fanout && FanoutKept(c, s.(mesh := mesh, backoff := backoff, ticks := ticks), t, score, now)
    ensures FanoutKept(c, s, t, score, now)
  {
    var m := s.(mesh := mesh, backoff := backoff, ticks := ticks);
    assert Reachable(c, s, t) == Reachable(c, m, t);
    assert FanoutStaying(c, s, t, score) == FanoutStaying(c, m, t, score);
    assert Choosable(c, s, t, score, c.publishThreshold) == Choosable(c, m, t, score, c.publishThreshold);
    hide Reachable, FanoutStaying, Choosable;
  }

  lemma EnumeratedKeys<K, V>(all: seq<K>, m: map<K, V>)
    requires ToSet(all) == m.Keys && Distinct(all)
    ensures forall k :: k in all <==> k in m
  {
    forall k ensures k in all <==> k in m {
      assert k in all <==> k in ToSet(all);
    }
  }

  /** The topics in `done` have been cleared, the others are as they were. */
  ghost predicate PartlyCleared(c: Config, was: Backoffs, done: seq<Topic>, now: int, b: Backoffs) {
    forall t :: && (t in b <==> t in was && (t in done ==> Live(c, was[t], now) != map[]))
                && (t in b ==> b[t] == if t in done then Live(c, was[t], now) else was[t])
  }

  lemma PartlyClearedStep(c: Config, was: Backoffs, all: seq<Topic>, k: nat, now: int, b: Backoffs)
    requires k < |all| && Distinct(all) && PartlyCleared(c, was, all[..k], now, b) && all[k] in was
    ensures all[k] in b && b[all[k]] == was[all[k]]
    ensures var live := Live(c, was[all[k]], now);
            PartlyCleared(c, was, all[..k + 1], now, if live == map[] then b - {all[k]} else b[all[k] := live])
  {
    hide Live;
    assert all[..k + 1] == all[..k] + [all[k]];
  }

  lemma GraftIsStep(c: Config, s: State, id: PeerId, score: real, graft: seq<Option<Topic>>, now: int)
    ensures var r := GraftAll(c, id, score, now, GraftEffect(s, [], c.doPX, 0), graft);
            Step(c, s, Graft(id, score, graft), now, MakePrunes(c, r.s, id, r.prune, now))
  {
  }

  lemma PruneListIsStep(c: Config, s: State, id: PeerId, prune: seq<PruneEntry>, now: int)
    ensures Step(c, s, Prune(id, prune), now, PruneList(c, s, id, prune, now))
  {
  }

  lemma PruneListNext(c: Config, s: State, id: PeerId, prune: seq<PruneEntry>, k: nat, now: int)
    requires k < |prune|
    ensures PruneList(c, s, id, prune[k..], now)
         == if PruneStops(s, prune[k]) then s
            else PruneList(c, PruneOne(c, s, id, prune[k], now), id, prune[k + 1..], now)
  {
    hide PruneOne;
    assert prune[k..][0] == prune[k] && prune[k..][1..] == prune[k + 1..];
  }

  lemma PruneListDone(c: Config, s: State, id: PeerId, prune: seq<PruneEntry>, now: int)
    ensures PruneList(c, s, id, prune[|prune|..], now) == s
  {
  }
}
