/** The peer score's fields and the methods that update them, each proved to be a step of the model. */
module PeerScoreTracker {
  import opened Types
  import opened Seqs
  import opened ScoreParams
  import opened ComputeScore
  import opened Decay
  import opened Deliveries
  import opened PeerScoreModel
  import opened PeerScoreTheorems

  class PeerScore {
    const c: Config
    var peerStats: Stats
    var peerIPs: IpIndex
    var scoreCache: map<PeerId, CacheEntry>
    const deliveryRecords: MessageDeliveries

    /** The state of the model these fields stand for. */
    ghost function Now(): State
      reads this, deliveryRecords
    {
      State(peerStats, peerIPs, scoreCache, deliveryRecords.records)
    }

    ghost predicate Valid()
      reads this, deliveryRecords
    {
      AcceptedParams(c.params) && Scorable(c.params) && deliveryRecords.Valid() && Inv(c, Now())
    }

    /** The parameters must have passed validation. */
    constructor (c: Config)
      requires AcceptedParams(c.params)
      ensures Valid() && fresh(deliveryRecords) && this.c == c && Now() == INITIAL
    {
      this.c := c;
      peerStats, peerIPs, scoreCache := map[], map[], map[];
      deliveryRecords := new MessageDeliveries();
      new;
      AcceptedIsScorable(c.params);
    }

    // ----- marks

    /** The stats of a topic, made if the topic is scored and has none yet. */
    method GetPtopicStats(pstats: PeerStats, topic: Topic) returns (pstats': PeerStats, tstats: Option<TopicStats>)
      requires GoodPeer(c.params, pstats)
      ensures tstats == if topic in c.params.topics then Some(TopicOf(pstats, topic)) else None
      ensures pstats' == if tstats.Some? then pstats.(topics := pstats.topics[topic := tstats.value]) else pstats
    {
      pstats' := pstats;
      if topic in pstats.topics {
        assert pstats.topics[topic := pstats.topics[topic]] == pstats.topics;
        return pstats, Some(pstats.topics[topic]);
      }
      if topic in c.params.topics {
        return pstats.(topics := pstats.topics[topic := NO_TOPIC_STATS]), Some(NO_TOPIC_STATS);
      }
      return pstats, None;
    }

    method MarkInvalidMessageDelivery(from: PeerId, topic: Topic)
      requires GoodStats(c.params, peerStats)
      modifies this`peerStats
      ensures peerStats == MarkAll(c.params, old(peerStats), {from}, topic, Blame(1))
    {
      if from in peerStats {
        var pstats, tstats := GetPtopicStats(peerStats[from], topic);
        if tstats.Some? {
          var t := tstats.value.(invalidMessageDeliveries := tstats.value.invalidMessageDeliveries + 1.0);
          pstats := pstats.(topics := pstats.topics[topic := t]);
        }
        OneMarked(c.params, peerStats, from, topic, Blame(1), pstats);
        peerStats := peerStats[from := pstats];
      }
    }

    method MarkFirstMessageDelivery(from: PeerId, topic: Topic)
      requires GoodStats(c.params, peerStats)
      modifies this`peerStats
      ensures peerStats == MarkAll(c.params, old(peerStats), {from}, topic, First)
    {
      if from in peerStats {
        var pstats, tstats := GetPtopicStats(peerStats[from], topic);
        if tstats.Some? {
          var t := tstats.value;
          var cap := c.params.topics[topic].firstMessageDeliveriesCap;
          t := t.(firstMessageDeliveries := Least(cap, t.firstMessageDeliveries + 1.0));
          if t.inMesh {
            cap := c.params.topics[topic].meshMessageDeliveriesCap;
            t := t.(meshMessageDeliveries := Least(cap, t.meshMessageDeliveries + 1.0));
          }
          pstats := pstats.(topics := pstats.topics[topic := t]);
        }
        OneMarked(c.params, peerStats, from, topic, First, pstats);
        peerStats := peerStats[from := pstats];
      }
    }

    method MarkDuplicateMessageDelivery(from: PeerId, topic: Topic, validatedTime: Option<int>, now: int)
      requires GoodStats(c.params, peerStats)
      modifies this`peerStats
      ensures var delay := if validatedTime.Some? then Some(now - validatedTime.value) else None;
              peerStats == MarkAll(c.params, old(peerStats), {from}, topic, Copy(delay))
    {
      ghost var m := Copy(if validatedTime.Some? then Some(now - validatedTime.value) else None);
      if from in peerStats {
        var pstats, tstats := GetPtopicStats(peerStats[from], topic);
        if tstats.Some? && tstats.value.inMesh {
          var t, tparams := tstats.value, c.params.topics[topic];
          var late := validatedTime.Some? && now - validatedTime.value > tparams.meshMessageDeliveriesWindow;
          if !late {
            t := t.(meshMessageDeliveries := Least(tparams.meshMessageDeliveriesCap, t.meshMessageDeliveries + 1.0));
            pstats := pstats.(topics := pstats.topics[topic := t]);
          }
        }
        OneMarked(c.params, peerStats, from, topic, m, pstats);
        peerStats := peerStats[from := pstats];
      }
    }

    method Graft(id: PeerId, topic: Topic, now: int)
      requires Valid()
      modifies this`peerStats
      ensures Valid() && Now() == Next(c, old(Now()), Grafted(id, topic), now)
    {
      MarkIsStep(c, Now(), Grafted(id, topic), id, topic, Mark.Graft(now), now);
      hide Next, Inv, AcceptedParams, Scorable, MarkAll;
      if id in peerStats {
        StatsGood(c, Now(), id);
        hide GoodPeer, MarkedPeer;
        var pstats := GraftedStats(peerStats[id], topic, now);
        OneMarked(c.params, peerStats, id, topic, Mark.Graft(now), pstats);
        peerStats := peerStats[id := pstats];
      }
    }

    method GraftedStats(pstats: PeerStats, topic: Topic, now: int) returns (pstats': PeerStats)
      requires GoodPeer(c.params, pstats)
      ensures pstats' == MarkedPeer(c.params, pstats, topic, Mark.Graft(now))
    {
      var tstats;
      pstats', tstats := GetPtopicStats(pstats, topic);
      if tstats.Some? {
        var t := tstats.value.(inMesh := true, graftTime := now, meshTime := 0, meshMessageDeliveriesActive := false);
        pstats' := pstats'.(topics := pstats'.topics[topic := t]);
      }
    }

    method Prune(id: PeerId, topic: Topic, now: int)
      requires Valid()
      modifies this`peerStats
      ensures Valid() && Now() == Next(c, old(Now()), Pruned(id, topic), now)
    {
      MarkIsStep(c, Now(), Pruned(id, topic), id, topic, Mark.Prune, now);
      hide Next, Inv, AcceptedParams, Scorable, MarkAll;
      if id in peerStats {
        StatsGood(c, Now(), id);
        hide GoodPeer, MarkedPeer;
        var pstats := PrunedStats(peerStats[id], topic);
        OneMarked(c.params, peerStats, id, topic, Mark.Prune, pstats);
        peerStats := peerStats[id := pstats];
      }
    }

    method PrunedStats(pstats: PeerStats, topic: Topic) returns (pstats': PeerStats)
      requires GoodPeer(c.params, pstats)
      ensures pstats' == MarkedPeer(c.params, pstats, topic, Mark.Prune)
    {
      var tstats;
      pstats', tstats := GetPtopicStats(pstats, topic);
      hide GoodPeer;
      if tstats.Some? {
        var t := WithFailure(tstats.value, c.params.topics[topic]);
        hide P3;
        t := t.(meshMessageDeliveriesActive := false, inMesh := false);
        pstats' := pstats'.(topics := pstats'.topics[topic := t]);
      }
    }

    /** The sticky penalty for a mesh delivery deficit. */
    static method WithFailure(tstats: TopicStats, tparams: TopicParams) returns (t: TopicStats)
      ensures t == tstats.(meshFailurePenalty := tstats.meshFailurePenalty + P3(tparams, tstats))
    {
      t := tstats;
      var threshold := tparams.meshMessageDeliveriesThreshold;
      if t.meshMessageDeliveriesActive && t.meshMessageDeliveries < threshold {
        var deficit := threshold - t.meshMessageDeliveries;
        t := t.(meshFailurePenalty := t.meshFailurePenalty + deficit * deficit);
      }
    }

    method AddPenalty(id: PeerId, penalty: real, now: int)
      requires Valid()
      modifies this`peerStats
      ensures Valid() && Now() == Next(c, old(Now()), Penalty(id, penalty), now)
    {
      NextInv(c, Now(), Penalty(id, penalty), now);
      hide Inv, AcceptedParams, Scorable;
      if id in peerStats {
        peerStats := peerStats[id := peerStats[id].(behaviourPenalty := peerStats[id].behaviourPenalty + penalty)];
      }
    }

    // ----- peers and their addresses

    method AddPeer(id: PeerId, now: int)
      requires Valid()
      modifies this`peerStats
      ensures Valid() && Now() == Next(c, old(Now()), PeerAdded(id), now)
    {
      NextInv(c, Now(), PeerAdded(id), now);
      hide Inv, AcceptedParams, Scorable, QueueMatches;
      peerStats := peerStats[id := PeerStats(true, 0, map[], {}, 0.0)];
    }

    method AddIP(id: PeerId, ip: IP, now: int)
      requires Valid()
      modifies this`peerStats, this`peerIPs
      ensures Valid() && Now() == Next(c, old(Now()), IpAdded(id, ip), now)
    {
      NextInv(c, Now(), IpAdded(id, ip), now);
      hide Inv, AcceptedParams, Scorable, QueueMatches;
      if id in peerStats {
        peerStats := peerStats[id := peerStats[id].(knownIPs := peerStats[id].knownIPs + {ip})];
      }
      var peersWithIP := if ip in peerIPs then peerIPs[ip] else {};
      peerIPs := peerIPs[ip := peersWithIP + {id}];
    }

    method RemoveIP(id: PeerId, ip: IP, now: int)
      requires Valid()
      modifies this`peerStats, this`peerIPs
      ensures Valid() && Now() == Next(c, old(Now()), IpRemoved(id, ip), now)
    {
      NextInv(c, Now(), IpRemoved(id, ip), now);
      hide AcceptedParams, Scorable, QueueMatches, GoodStats, Listed, Unlist;
      RemoveFromAddress(id, ip);
      hide Inv;
      if id in peerStats {
        peerStats := peerStats[id := peerStats[id].(knownIPs := peerStats[id].knownIPs - {ip})];
      }
    }

    method RemoveFromAddress(id: PeerId, ip: IP)
      requires NoEmptyAddress(peerIPs)
      modifies this`peerIPs
      ensures peerIPs == Unlist(old(peerIPs), map[id := {ip}])
    {
      UnlistOne(peerIPs, id, ip);
      hide Unlist;
      if ip in peerIPs {
        var peersWithIP := peerIPs[ip] - {id};
        if peersWithIP == {} {
          peerIPs := peerIPs - {ip};
        } else {
          peerIPs := peerIPs[ip := peersWithIP];
        }
      }
    }

    method RemoveIPsForPeer(id: PeerId, ipsToRemove: set<IP>)
      requires NoEmptyAddress(peerIPs)
      modifies this`peerIPs
      ensures peerIPs == Unlist(old(peerIPs), map[id := ipsToRemove])
    {
      ghost var was := peerIPs;
      UnlistNothing(was, map[id := {}]);
      UnlistedNotEmpty(was);
      hide Unlist, NoEmptyAddress;
      var todo := ipsToRemove;
      assert ipsToRemove - todo == {};
      while todo != {}
        invariant todo <= ipsToRemove
        invariant peerIPs == Unlist(was, map[id := ipsToRemove - todo])
        decreases todo
      {
        var ip :| ip in todo;
        ghost var done := ipsToRemove - todo;
        todo := todo - {ip};
        RemoveFromAddress(id, ip);
        UnlistMore(was, id, done, ip);
        assert ipsToRemove - todo == done + {ip};
      }
      assert ipsToRemove - {} == ipsToRemove;
    }

    /** The score, computed at most once per validity period. */
    method Score(id: PeerId, now: int) returns (score: real)
      requires Valid()
      modifies this`scoreCache
      ensures Valid() && Now() == Next(c, old(Now()), ReadScore(id), now)
      ensures score == ScoreRead(c, old(Now()), id, now)
    {
      NextInv(c, Now(), ReadScore(id), now);
      hide Inv, AcceptedParams, QueueMatches, ScoreOf;
      if id !in peerStats {
        return 0.0;
      }
      if id in scoreCache && scoreCache[id].cacheUntil > now {
        return scoreCache[id].score;
      }
      score := Compute(id, peerStats[id], c.params, peerIPs);
      scoreCache := scoreCache[id := CacheEntry(score, now + c.cacheValidityMs)];
    }

    method RemovePeer(id: PeerId, now: int)
      requires Valid()
      modifies this`peerStats, this`peerIPs, this`scoreCache
      ensures Valid() && Now() == Next(c, old(Now()), PeerRemoved(id), now)
    {
      ghost var was := Now();
      NextInv(c, was, PeerRemoved(id), now);
      if id !in peerStats {
        return;
      }
      var pstats := peerStats[id];
      StatsGood(c, was, id);
      assert NoEmptyAddress(peerIPs);
      hide Inv, AcceptedParams, Scorable, QueueMatches, CacheFresh, ScoreNow, ScoreRead, NoEmptyAddress, GoodPeer;
      hide Unlist;
      var score := Score(id, now);
      if score > 0.0 {
        RemoveIPsForPeer(id, pstats.knownIPs);
        peerStats := peerStats - {id};
        return;
      }
      var topics := DepartTopics(pstats);
      assert DepartedPeer(c.params, pstats, now) == pstats.(
               topics := topics, connected := false, expire := now + c.params.retainScore);
      hide DepartedPeer;
      peerStats := peerStats[id := pstats.(topics := topics, connected := false, expire := now + c.params.retainScore)];
    }

    /** Resets and penalties of a peer whose score is retained, topic by topic. */
    method DepartTopics(pstats: PeerStats) returns (topics: map<Topic, TopicStats>)
      requires GoodPeer(c.params, pstats)
      ensures topics == DepartedPeer(c.params, pstats, 0).topics
    {
      topics := pstats.topics;
      var todo := topics.Keys;
      hide DepartedTopic, GoodCounters;
      while todo != {}
        invariant todo <= pstats.topics.Keys
        invariant topics == map t | t in pstats.topics ::
                    if t in todo then pstats.topics[t] else DepartedTopic(c.params.topics[t], pstats.topics[t])
        decreases todo
      {
        var topic :| topic in todo;
        todo := todo - {topic};
        var tstats := DepartTopic(topics[topic], c.params.topics[topic]);
        topics := topics[topic := tstats];
      }
    }

    static method DepartTopic(tstats: TopicStats, tparams: TopicParams) returns (t: TopicStats)
      ensures t == DepartedTopic(tparams, tstats)
    {
      t := tstats.(firstMessageDeliveries := 0.0);
      if t.inMesh {
        t := WithFailure(t, tparams);
      }
      hide Square;
      t := t.(inMesh := false, meshMessageDeliveriesActive := false);
    }

    // ----- periodic maintenance

    method Background(now: int)
      requires Valid()
      modifies this, deliveryRecords
      ensures Valid() && Now() == Next(c, Next(c, old(Now()), Refresh, now), Collect, now)
    {
      RefreshScores(now);
      NextInv(c, Now(), Collect, now);
      hide Inv, AcceptedParams, Scorable, QueueMatches;
      deliveryRecords.Gc(now);
    }

    method RefreshScores(now: int)
      requires Valid()
      modifies this`peerStats, this`peerIPs, this`scoreCache
      ensures Valid() && Now() == Next(c, old(Now()), Refresh, now)
    {
      ghost var was := Now();
      NextInv(c, was, Refresh, now);
      RefreshStarts(c, was, now);
      AllRefreshed(c, was, now);
      hide Inv, AcceptedParams, Scorable, QueueMatches, RefreshedSome, Next;
      var todo := peerStats.Keys;
      assert peerStats.Keys - todo == {};
      while todo != {}
        invariant todo <= was.peerStats.Keys
        invariant Now() == RefreshedSome(c.params, was, was.peerStats.Keys - todo, now)
        decreases todo
      {
        var id :| id in todo;
        ghost var done := was.peerStats.Keys - todo;
        RefreshNext(c, was, done, id, now);
        RefreshPeer(id, now);
        todo := todo - {id};
        assert was.peerStats.Keys - todo == done + {id};
      }
      assert was.peerStats.Keys - {} == was.peerStats.Keys;
    }

    /** One peer's turn: forgotten when its retention is over, else decayed if connected. */
    method RefreshPeer(id: PeerId, now: int)
      requires id in peerStats && NoEmptyAddress(peerIPs)
      modifies this`peerStats, this`peerIPs, this`scoreCache
      ensures Now() == RefreshedOne(c.params, old(Now()), id, now)
    {
      var pstats := peerStats[id];
      RefreshCases(c.params, Now(), id, now);
      hide RefreshedOne, RefreshedPeer, Unlist, NoEmptyAddress;
      if !pstats.connected {
        if now > pstats.expire {
          RemoveIPsForPeer(id, pstats.knownIPs);
          peerStats := peerStats - {id};
          scoreCache := scoreCache - {id};
        }
        return;
      }
      var refreshed := RefreshStats(pstats, now);
      peerStats := peerStats[id := refreshed];
    }

    method RefreshStats(pstats: PeerStats, now: int) returns (refreshed: PeerStats)
      requires pstats.connected
      ensures refreshed == RefreshedPeer(c.params, pstats, now)
    {
      var topics := RefreshTopics(pstats, now);
      hide RefreshedTopic;
      var penalty := pstats.behaviourPenalty * c.params.behaviourPenaltyDecay;
      if penalty < c.params.decayToZero {
        penalty := 0.0;
      }
      refreshed := pstats.(topics := topics, behaviourPenalty := penalty);
    }

    method RefreshTopics(pstats: PeerStats, now: int) returns (topics: map<Topic, TopicStats>)
      requires pstats.connected
      ensures topics == RefreshedPeer(c.params, pstats, now).topics
    {
      topics := pstats.topics;
      var todo := topics.Keys;
      hide RefreshedTopic, Decayed;
      while todo != {}
        invariant todo <= pstats.topics.Keys
        invariant topics == map t | t in pstats.topics ::
                    if t in todo || t !in c.params.topics then pstats.topics[t]
                    else RefreshedTopic(c.params.topics[t], c.params.decayToZero, pstats.topics[t], now)
        decreases todo
      {
        var topic :| topic in todo;
        todo := todo - {topic};
        if topic in c.params.topics {
          var tstats := RefreshTopic(topics[topic], c.params.topics[topic], c.params.decayToZero, now);
          topics := topics[topic := tstats];
        }
      }
    }

    static method RefreshTopic(tstats: TopicStats, tparams: TopicParams, decayToZero: real,
                               now: int) returns (t: TopicStats)
      ensures t == RefreshedTopic(tparams, decayToZero, tstats, now)
    {
      var first := tstats.firstMessageDeliveries * tparams.firstMessageDeliveriesDecay;
      if first < decayToZero {
        first := 0.0;
      }
      assert first == Decayed(tstats.firstMessageDeliveries, tparams.firstMessageDeliveriesDecay, decayToZero);
      var mesh := tstats.meshMessageDeliveries * tparams.meshMessageDeliveriesDecay;
      if mesh < decayToZero {
        mesh := 0.0;
      }
      assert mesh == Decayed(tstats.meshMessageDeliveries, tparams.meshMessageDeliveriesDecay, decayToZero);
      var failure := tstats.meshFailurePenalty * tparams.meshFailurePenaltyDecay;
      if failure < decayToZero {
        failure := 0.0;
      }
      assert failure == Decayed(tstats.meshFailurePenalty, tparams.meshFailurePenaltyDecay, decayToZero);
      var invalid := tstats.invalidMessageDeliveries * tparams.invalidMessageDeliveriesDecay;
      if invalid < decayToZero {
        invalid := 0.0;
      }
      assert invalid == Decayed(tstats.invalidMessageDeliveries, tparams.invalidMessageDeliveriesDecay, decayToZero);
      hide Decayed;
      t := tstats.(firstMessageDeliveries := first, meshMessageDeliveries := mesh,
                   meshFailurePenalty := failure, invalidMessageDeliveries := invalid);
      if t.inMesh {
        t := t.(meshTime := now - t.graftTime);
        if t.meshTime > tparams.meshMessageDeliveriesActivation {
          t := t.(meshMessageDeliveriesActive := true);
        }
      }
    }

    // ----- messages

    method ValidateMessage(msg: MsgId, now: int)
      requires Valid() && SeenBy(deliveryRecords.records, now)
      modifies this, deliveryRecords
      ensures Valid() && Now() == Next(c, old(Now()), Event.ValidateMessage(msg), now)
    {
      NextInv(c, Now(), Event.ValidateMessage(msg), now);
      hide Inv, AcceptedParams, Scorable;
      var _ := deliveryRecords.EnsureRecord(msg, now);
    }

    method DeliverMessage(from: PeerId, msg: MsgId, topic: Topic, now: int)
      requires Valid() && SeenBy(deliveryRecords.records, now)
      modifies this, deliveryRecords
      ensures Valid() && Now() == Next(c, old(Now()), Event.DeliverMessage(from, msg, topic), now)
    {
      ghost var was := Now();
      NextInv(c, was, Event.DeliverMessage(from, msg, topic), now);
      DeliverIsStep(c, was, from, msg, topic, now);
      MarkFirstMessageDelivery(from, topic);
      MarkAllGood(c.params, was.peerStats, {from}, topic, First);
      hide QueueMatches, SeenBy, Next, MessageStats, Inv, AcceptedParams, Scorable, MarkAll, GoodStats, After;
      var drec := deliveryRecords.EnsureRecord(msg, now);
      hide Ensured;
      RecordDelivery(drec, from, msg, topic, now);
    }

    method RecordDelivery(drec: Record, from: PeerId, msg: MsgId, topic: Topic, now: int)
      requires AcceptedParams(c.params) && GoodStats(c.params, peerStats)
      requires deliveryRecords.Valid() && msg in deliveryRecords.records && drec == deliveryRecords.records[msg]
      modifies this`peerStats, deliveryRecords
      ensures peerStats == MessageStats(c.params, old(peerStats), drec, topic, Deliver(from, now), now)
      ensures deliveryRecords.Valid()
      ensures deliveryRecords.records == old(deliveryRecords.records)[msg := After(drec, Deliver(from, now))]
    {
      DeliveredStats(c.params, peerStats, drec, from, topic, now);
      SameRecord(deliveryRecords.records, msg);
      hide MessageStats, QueueMatches, MarkAll, GoodStats, AcceptedParams;
      if drec.status != Unknown {
        return;
      }
      deliveryRecords.Update(msg, drec.(status := Status.Valid, validated := now));
      CreditCopies(from, drec.peers, topic, now);
    }

    /** Credits those who forwarded the message before it was delivered, except the deliverer. */
    method CreditCopies(from: PeerId, peers: set<PeerId>, topic: Topic, now: int)
      requires AcceptedParams(c.params) && GoodStats(c.params, peerStats)
      modifies this`peerStats
      ensures peerStats == MarkAll(c.params, old(peerStats), peers - {from}, topic, Copy(None))
    {
      ghost var was := peerStats;
      NobodyMarked(c.params, was, topic, Copy(None));
      hide MarkAll, GoodStats, AcceptedParams;
      var todo := peers;
      assert peers - todo - {from} == {};
      while todo != {}
        invariant todo <= peers && GoodStats(c.params, peerStats)
        invariant peerStats == MarkAll(c.params, was, peers - todo - {from}, topic, Copy(None))
        decreases todo
      {
        var p :| p in todo;
        ghost var marked := peers - todo - {from};
        todo := todo - {p};
        if p != from {
          ghost var before := peerStats;
          MarkDuplicateMessageDelivery(p, topic, None, now);
          MarkAllGood(c.params, before, {p}, topic, Copy(None));
          MarkedAfter(c.params, was, marked, p, topic, Copy(None));
          assert peers - todo - {from} == marked + {p};
        } else {
          assert peers - todo - {from} == marked;
        }
      }
      assert peers - {} - {from} == peers - {from};
    }

    method RejectInvalidMessage(from: PeerId, topic: Topic, now: int)
      requires Valid()
      modifies this`peerStats
      ensures Valid() && Now() == Next(c, old(Now()), RejectInvalid(from, topic), now)
    {
      MarkIsStep(c, Now(), RejectInvalid(from, topic), from, topic, Blame(1), now);
      assert GoodStats(c.params, peerStats);
      hide Next, Inv, AcceptedParams, Scorable, MarkAll, GoodStats;
      MarkInvalidMessageDelivery(from, topic);
    }

    method RejectMessage(from: PeerId, msg: MsgId, topic: Topic, reason: RejectReason, now: int)
      requires Valid() && SeenBy(deliveryRecords.records, now)
      modifies this, deliveryRecords
      ensures Valid() && Now() == Next(c, old(Now()), Event.RejectMessage(from, msg, topic, reason), now)
    {
      ghost var was := Now();
      NextInv(c, was, Event.RejectMessage(from, msg, topic, reason), now);
      RejectIsStep(c, was, from, msg, topic, reason, now);
      assert GoodStats(c.params, peerStats);
      hide QueueMatches, SeenBy, Next, MessageStats, Inv, AcceptedParams, Scorable, MarkAll, GoodStats, After;
      match reason {
        case Error => MarkInvalidMessageDelivery(from, topic);
        case Blacklisted =>
        case _ =>
          var drec := deliveryRecords.EnsureRecord(msg, now);
          hide Ensured;
          RecordRejection(drec, from, msg, topic, reason, now);
      }
    }

    method RecordRejection(drec: Record, from: PeerId, msg: MsgId, topic: Topic, reason: RejectReason, now: int)
      requires AcceptedParams(c.params) && GoodStats(c.params, peerStats) && (reason == Ignore || reason == Reject)
      requires deliveryRecords.Valid() && msg in deliveryRecords.records && drec == deliveryRecords.records[msg]
      modifies this`peerStats, deliveryRecords
      ensures peerStats == MessageStats(c.params, old(peerStats), drec, topic, RecordEvent.Rejected(from, reason), now)
      ensures deliveryRecords.Valid()
      ensures deliveryRecords.records
           == old(deliveryRecords.records)[msg := After(drec, RecordEvent.Rejected(from, reason))]
    {
      RejectedStats(c.params, peerStats, drec, from, reason, topic, now);
      SameRecord(deliveryRecords.records, msg);
      hide MessageStats, QueueMatches, BlameAll, GoodStats, AcceptedParams;
      if drec.status != Unknown {
        return;
      }
      if reason == Ignore {
        deliveryRecords.Update(msg, drec.(status := Ignored, peers := {}));
        return;
      }
      deliveryRecords.Update(msg, drec.(status := Invalid, peers := {}));
      BlameSenders(from, drec.peers, topic);
    }

    /** Penalises the sender, and everyone who forwarded the message. */
    method BlameSenders(from: PeerId, peers: set<PeerId>, topic: Topic)
      requires AcceptedParams(c.params) && GoodStats(c.params, peerStats)
      modifies this`peerStats
      ensures peerStats == BlameAll(c.params, old(peerStats), multiset{from} + multiset(peers), topic)
    {
      ghost var was := peerStats;
      MarkInvalidMessageDelivery(from, topic);
      MarkAllGood(c.params, was, {from}, topic, Blame(1));
      NothingBlamed(c.params, was, topic);
      BlamedAfter(c.params, was, multiset{}, from, topic);
      hide MarkAll, BlameAll, GoodStats, AcceptedParams;
      assert multiset{} + multiset{from} == multiset{from} + multiset(peers - peers);
      var todo := peers;
      while todo != {}
        invariant todo <= peers && GoodStats(c.params, peerStats)
        invariant peerStats == BlameAll(c.params, was, multiset{from} + multiset(peers - todo), topic)
        decreases todo
      {
        var p :| p in todo;
        ghost var blamed := multiset{from} + multiset(peers - todo);
        ghost var before := peerStats;
        MarkInvalidMessageDelivery(p, topic);
        MarkAllGood(c.params, before, {p}, topic, Blame(1));
        BlamedAfter(c.params, was, blamed, p, topic);
        assert peers - (todo - {p}) == (peers - todo) + {p};
        todo := todo - {p};
        assert multiset{from} + multiset(peers - todo) == blamed + multiset{p};
      }
      assert peers - {} == peers;
    }

    method DuplicateMessage(from: PeerId, msg: MsgId, topic: Topic, now: int)
      requires Valid() && SeenBy(deliveryRecords.records, now)
      modifies this, deliveryRecords
      ensures Valid() && Now() == Next(c, old(Now()), Event.DuplicateMessage(from, msg, topic), now)
    {
      ghost var was := Now();
      NextInv(c, was, Event.DuplicateMessage(from, msg, topic), now);
      DuplicateIsStep(c, was, from, msg, topic, now);
      assert GoodStats(c.params, peerStats);
      hide QueueMatches, SeenBy, Next, MessageStats, Inv, AcceptedParams, Scorable, GoodStats, After;
      var drec := deliveryRecords.EnsureRecord(msg, now);
      hide Ensured;
      RecordDuplicate(drec, from, msg, topic, now);
    }

    method RecordDuplicate(drec: Record, from: PeerId, msg: MsgId, topic: Topic, now: int)
      requires GoodStats(c.params, peerStats)
      requires deliveryRecords.Valid() && msg in deliveryRecords.records && drec == deliveryRecords.records[msg]
      modifies this`peerStats, deliveryRecords
      ensures peerStats == MessageStats(c.params, old(peerStats), drec, topic, Duplicate(from), now)
      ensures deliveryRecords.Valid()
      ensures deliveryRecords.records == old(deliveryRecords.records)[msg := After(drec, Duplicate(from))]
    {
      DuplicateStats(c.params, peerStats, drec, from, topic, now);
      SameRecord(deliveryRecords.records, msg);
      hide MessageStats, QueueMatches, MarkAll, After, GoodStats;
      if from in drec.peers {
        assert drec.peers + {from} == drec.peers;
        return;
      }
      match drec.status {
        case Unknown => deliveryRecords.Update(msg, drec.(peers := drec.peers + {from}));
        case Valid =>
          deliveryRecords.Update(msg, drec.(peers := drec.peers + {from}));
          MarkDuplicateMessageDelivery(from, topic, Some(drec.validated), now);
        case Invalid => MarkInvalidMessageDelivery(from, topic);
        case Ignored =>
      }
    }
  }

  // ----- what the steps come to

  /** Events that mark one peer. */
  lemma MarkIsStep(c: Config, s: State, e: Event, p: PeerId, topic: Topic, m: Mark, now: int)
    requires AcceptedParams(c.params) && Scorable(c.params) && Inv(c, s)
    requires (e == Grafted(p, topic) && m == Mark.Graft(now)) || (e == Pruned(p, topic) && m == Mark.Prune)
             || (e == RejectInvalid(p, topic) && m == Blame(1))
    ensures Next(c, s, e, now) == s.(peerStats := MarkAll(c.params, s.peerStats, {p}, topic, m))
    ensures Inv(c, Next(c, s, e, now))
    ensures p !in s.peerStats ==> MarkAll(c.params, s.peerStats, {p}, topic, m) == s.peerStats
  {
    NextInv(c, s, e, now);
    hide Inv, AcceptedParams, Scorable, MarkedPeer;
  }

  lemma DeliverIsStep(c: Config, s: State, from: PeerId, msg: MsgId, topic: Topic, now: int)
    requires Scorable(c.params)
    ensures Next(c, s, Event.DeliverMessage(from, msg, topic), now)
         == AfterMessage(c.params, s.(peerStats := MarkAll(c.params, s.peerStats, {from}, topic, First)),
                         msg, topic, Deliver(from, now), now)
  {
  }

  lemma RejectIsStep(c: Config, s: State, from: PeerId, msg: MsgId, topic: Topic, reason: RejectReason, now: int)
    requires Scorable(c.params)
    ensures Next(c, s, Event.RejectMessage(from, msg, topic, reason), now)
         == match reason
            case Blacklisted => s
            case Error => s.(peerStats := MarkAll(c.params, s.peerStats, {from}, topic, Blame(1)))
            case _ => AfterMessage(c.params, s, msg, topic, RecordEvent.Rejected(from, reason), now)
  {
  }

  lemma DuplicateIsStep(c: Config, s: State, from: PeerId, msg: MsgId, topic: Topic, now: int)
    requires Scorable(c.params)
    ensures Next(c, s, Event.DuplicateMessage(from, msg, topic), now)
         == AfterMessage(c.params, s, msg, topic, Duplicate(from), now)
  {
  }

  lemma SameRecord(records: Records, msg: MsgId)
    requires msg in records
    ensures records[msg := records[msg]] == records
  {
  }

  lemma DeliveredStats(params: Params, stats: Stats, r: Record, from: PeerId, topic: Topic, now: int)
    ensures MessageStats(params, stats, r, topic, Deliver(from, now), now)
         == if r.status == Unknown then MarkAll(params, stats, r.peers - {from}, topic, Copy(None)) else stats
  {
    NobodyMarked(params, stats, topic, Copy(None));
    NothingBlamed(params, stats, topic);
    NothingBlamed(params, MarkAll(params, stats, r.peers - {from}, topic, Copy(None)), topic);
    hide MarkAll, BlameAll;
  }

  lemma RejectedStats(params: Params, stats: Stats, r: Record, from: PeerId, reason: RejectReason, topic: Topic,
                      now: int)
    requires reason != Error
    ensures MessageStats(params, stats, r, topic, RecordEvent.Rejected(from, reason), now)
         == if r.status == Unknown && reason == Reject
            then BlameAll(params, stats, multiset{from} + multiset(r.peers), topic)
            else stats
  {
    NobodyMarked(params, stats, topic, Copy(None));
    NothingBlamed(params, stats, topic);
    hide MarkAll, BlameAll;
  }

  lemma DuplicateStats(params: Params, stats: Stats, r: Record, from: PeerId, topic: Topic, now: int)
    ensures After(r, Duplicate(from))
         == if r.status == Unknown || r.status == Status.Valid then r.(peers := r.peers + {from}) else r
    ensures MessageStats(params, stats, r, topic, Duplicate(from), now)
         == if from in r.peers then stats
            else if r.status == Status.Valid then MarkAll(params, stats, {from}, topic, Copy(Some(now - r.validated)))
            else if r.status == Invalid then MarkAll(params, stats, {from}, topic, Blame(1))
            else stats
  {
    var m := Copy(Some(now - r.validated));
    NobodyMarked(params, stats, topic, m);
    NothingBlamed(params, stats, topic);
    NothingBlamed(params, MarkAll(params, stats, {from}, topic, m), topic);
    BlamedOnce(params, stats, from, topic);
    hide MarkAll, BlameAll;
  }

  // ----- addresses

  lemma UnlistNothing(index: IpIndex, gone: map<PeerId, set<IP>>)
    requires NoEmptyAddress(index) && forall p :: p in gone ==> gone[p] == {}
    ensures Unlist(index, gone) == index
  {
    forall ip | ip in index ensures Left(index, gone, ip) == index[ip] {
    }
  }

  lemma UnlistedNotEmpty(index: IpIndex)
    ensures forall gone :: NoEmptyAddress(Unlist(index, gone))
  {
  }

  lemma UnlistOne(index: IpIndex, id: PeerId, ip: IP)
    requires NoEmptyAddress(index)
    ensures Unlist(index, map[id := {ip}])
         == if ip !in index then index
            else if index[ip] - {id} == {} then index - {ip} else index[ip := index[ip] - {id}]
  {
    forall i | i in index ensures Left(index, map[id := {ip}], i) == if i == ip then index[i] - {id} else index[i] {
    }
    hide Left;
  }

  lemma UnlistMore(index: IpIndex, id: PeerId, ips: set<IP>, ip: IP)
    ensures Unlist(Unlist(index, map[id := ips]), map[id := {ip}]) == Unlist(index, map[id := ips + {ip}])
  {
    UnlistTwice(index, map[id := ips], map[id := {ip}], map[id := ips + {ip}]);
  }

  /** Taking peers off their addresses in two goes. */
  lemma UnlistTwice(index: IpIndex, a: map<PeerId, set<IP>>, b: map<PeerId, set<IP>>, both: map<PeerId, set<IP>>)
    requires forall p, ip :: (p in both && ip in both[p]) <==> (p in a && ip in a[p]) || (p in b && ip in b[p])
    ensures Unlist(Unlist(index, a), b) == Unlist(index, both)
  {
    forall ip ensures Left(Unlist(index, a), b, ip) == Left(index, both, ip) {
      forall p ensures p in Left(Unlist(index, a), b, ip) <==> p in Left(index, both, ip) {
        assert p in Left(index, a, ip) <==> p in PeersOf(index, ip) && !(p in a && ip in a[p]);
      }
    }
    forall ip ensures ip in Unlist(Unlist(index, a), b) <==> ip in Unlist(index, both) {
      if ip in Unlist(index, both) {
        var p :| p in Left(index, both, ip);
        assert p in Left(index, a, ip);
      }
    }
  }

  // ----- refreshing one peer after the other

  function RefreshedOne(params: Params, s: State, id: PeerId, now: int): State
    requires id in s.peerStats
  {
    if Forgotten(s.peerStats[id], now)
    then
      var ips := Unlist(s.peerIPs, map[id := s.peerStats[id].knownIPs]);
      State(s.peerStats - {id}, ips, s.scoreCache - {id}, s.records)
    else s.(peerStats := s.peerStats[id := RefreshedPeer(params, s.peerStats[id], now)])
  }

  lemma RefreshCases(params: Params, s: State, id: PeerId, now: int)
    requires id in s.peerStats
    ensures var p := s.peerStats[id];
            RefreshedOne(params, s, id, now)
            == if p.connected then s.(peerStats := s.peerStats[id := RefreshedPeer(params, p, now)])
               else if now <= p.expire then s
               else State(s.peerStats - {id}, Unlist(s.peerIPs, map[id := p.knownIPs]), s.scoreCache - {id}, s.records)
  {
    assert s.peerStats[id := s.peerStats[id]] == s.peerStats;
    hide Unlist;
  }

  function ForgottenOf(stats: Stats, done: set<PeerId>, now: int): map<PeerId, set<IP>> {
    map p | p in stats && p in done && Forgotten(stats[p], now) :: stats[p].knownIPs
  }

  function RefreshedStatsOf(params: Params, stats: Stats, done: set<PeerId>, now: int): Stats {
    map p | p in stats && !(p in done && Forgotten(stats[p], now)) ::
      if p in done then RefreshedPeer(params, stats[p], now) else stats[p]
  }

  /** The state when those in `done` have had their turn. */
  function RefreshedSome(params: Params, s: State, done: set<PeerId>, now: int): State {
    var gone := ForgottenOf(s.peerStats, done, now);
    State(RefreshedStatsOf(params, s.peerStats, done, now), Unlist(s.peerIPs, gone),
          CacheWithout(s.scoreCache, gone.Keys), s.records)
  }

  lemma RefreshStarts(c: Config, s: State, now: int)
    requires Inv(c, s)
    ensures RefreshedSome(c.params, s, {}, now) == s
  {
    assert ForgottenOf(s.peerStats, {}, now) == map[];
    UnlistNothing(s.peerIPs, map[]);
    assert RefreshedStatsOf(c.params, s.peerStats, {}, now) == s.peerStats;
    assert CacheWithout(s.scoreCache, {}) == s.scoreCache;
    hide *;
  }

  lemma AllRefreshed(c: Config, s: State, now: int)
    requires Scorable(c.params)
    ensures RefreshedSome(c.params, s, s.peerStats.Keys, now) == Next(c, s, Refresh, now)
  {
    assert ForgottenOf(s.peerStats, s.peerStats.Keys, now) == ForgottenIPs(s.peerStats, now);
    assert RefreshedStatsOf(c.params, s.peerStats, s.peerStats.Keys, now) == RefreshedStats(c.params, s.peerStats, now);
    hide ForgottenOf, ForgottenIPs, RefreshedStatsOf, RefreshedStats, Unlist, CacheWithout, Scorable;
  }

  lemma RefreshNext(c: Config, s: State, done: set<PeerId>, id: PeerId, now: int)
    requires id in s.peerStats && id !in done
    ensures var s' := RefreshedSome(c.params, s, done, now);
            && NoEmptyAddress(s'.peerIPs) && id in s'.peerStats
            && RefreshedOne(c.params, s', id, now) == RefreshedSome(c.params, s, done + {id}, now)
  {
    var stats := s.peerStats;
    var gone, gone' := ForgottenOf(stats, done, now), ForgottenOf(stats, done + {id}, now);
    RefreshStatsNext(c.params, stats, done, id, now);
    hide RefreshedPeer;
    UnlistedNotEmpty(s.peerIPs);
    if Forgotten(stats[id], now) {
      UnlistTwice(s.peerIPs, gone, map[id := stats[id].knownIPs], gone');
      assert CacheWithout(s.scoreCache, gone.Keys) - {id} == CacheWithout(s.scoreCache, gone'.Keys);
    } else {
      assert gone == gone';
    }
    hide Unlist, CacheWithout, ForgottenOf, RefreshedStatsOf, NoEmptyAddress;
  }

  lemma RefreshStatsNext(params: Params, stats: Stats, done: set<PeerId>, id: PeerId, now: int)
    requires id in stats && id !in done
    ensures var was := RefreshedStatsOf(params, stats, done, now);
            && id in was && was[id] == stats[id]
            && RefreshedStatsOf(params, stats, done + {id}, now)
               == if Forgotten(stats[id], now) then was - {id}
                  else was[id := RefreshedPeer(params, stats[id], now)]
  {
    hide RefreshedPeer;
  }

  // ----- steps of the marks

  lemma StatsGood(c: Config, s: State, p: PeerId)
    requires Inv(c, s) && p in s.peerStats
    ensures GoodPeer(c.params, s.peerStats[p])
  {
  }

  lemma OneMarked(params: Params, stats: Stats, p: PeerId, topic: Topic, m: Mark, marked: PeerStats)
    requires p in stats
    ensures marked == MarkedPeer(params, stats[p], topic, m)
            ==> stats[p := marked] == MarkAll(params, stats, {p}, topic, m)
  {
    hide MarkedPeer;
  }

  lemma NobodyMarked(params: Params, stats: Stats, topic: Topic, m: Mark)
    ensures MarkAll(params, stats, {}, topic, m) == stats
  {
  }

  lemma NothingBlamed(params: Params, stats: Stats, topic: Topic)
    ensures BlameAll(params, stats, multiset{}, topic) == stats
  {
  }

  lemma BlamedOnce(params: Params, stats: Stats, p: PeerId, topic: Topic)
    ensures BlameAll(params, stats, multiset{p}, topic) == MarkAll(params, stats, {p}, topic, Blame(1))
  {
    hide MarkedPeer;
  }

  lemma MarkAllGood(params: Params, stats: Stats, who: set<PeerId>, topic: Topic, m: Mark)
    requires AcceptedParams(params) && GoodStats(params, stats)
    ensures GoodStats(params, MarkAll(params, stats, who, topic, m))
  {
    MarkAllKeeps(params, stats, who, topic, m);
    hide MarkAll, GoodPeer;
  }

  lemma MarkedAfter(params: Params, stats: Stats, who: set<PeerId>, p: PeerId, topic: Topic, m: Mark)
    requires p !in who
    ensures MarkAll(params, MarkAll(params, stats, who, topic, m), {p}, topic, m)
         == MarkAll(params, stats, who + {p}, topic, m)
  {
    hide MarkedPeer;
  }

  lemma BlamedAfter(params: Params, stats: Stats, blames: multiset<PeerId>, p: PeerId, topic: Topic)
    ensures MarkAll(params, BlameAll(params, stats, blames, topic), {p}, topic, Blame(1))
         == BlameAll(params, stats, blames + multiset{p}, topic)
  {
    if p in stats && p in blames {
      BlamedAgain(params, stats[p], topic, blames[p]);
    }
    hide MarkedPeer;
    assert forall q :: q != p ==> (blames + multiset{p})[q] == blames[q];
    assert (blames + multiset{p})[p] == blames[p] + 1;
  }

  lemma BlamedAgain(params: Params, s: PeerStats, topic: Topic, n: nat)
    ensures MarkedPeer(params, MarkedPeer(params, s, topic, Blame(n)), topic, Blame(1))
         == MarkedPeer(params, s, topic, Blame(n + 1))
  {
    if topic in params.topics {
      var t := TopicOf(s, topic);
      assert MarkedTopic(params.topics[topic], MarkedTopic(params.topics[topic], t, Blame(n)), Blame(1))
          == MarkedTopic(params.topics[topic], t, Blame(n + 1));
    }
  }
}
