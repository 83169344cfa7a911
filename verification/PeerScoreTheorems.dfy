/** Properties of every run of the peer score. */
module PeerScoreTheorems {
  import opened Types
  import opened Seqs
  import opened ScoreParams
  import opened ComputeScore
  import opened Deliveries
  import opened Decay
  import opened Products
  import opened PeerScoreModel

  // ----- what holds in every reachable state

  /** Counters stay within their caps where the cap matters, and penalties never drop below zero. */
  ghost predicate GoodCounters(p: TopicParams, t: TopicStats) {
    && t.meshFailurePenalty >= 0.0 && t.invalidMessageDeliveries >= 0.0
    && (p.firstMessageDeliveriesWeight != 0.0 ==> 0.0 <= t.firstMessageDeliveries <= p.firstMessageDeliveriesCap)
    && (p.meshMessageDeliveriesWeight != 0.0 ==> 0.0 <= t.meshMessageDeliveries <= p.meshMessageDeliveriesCap)
  }

  ghost predicate GoodPeer(params: Params, s: PeerStats) {
    forall t :: t in s.topics ==> t in params.topics && GoodCounters(params.topics[t], s.topics[t])
  }

  ghost predicate GoodStats(params: Params, stats: Stats) {
    forall p :: p in stats ==> GoodPeer(params, stats[p])
  }

  /** Every known address of a peer lists that peer. */
  ghost predicate Listed(stats: Stats, index: IpIndex) {
    forall p, ip :: p in stats && ip in stats[p].knownIPs ==> ip in index && p in index[ip]
  }

  ghost predicate NoEmptyAddress(index: IpIndex) { forall ip :: ip in index ==> index[ip] != {} }

  ghost predicate Inv(c: Config, s: State) {
    GoodStats(c.params, s.peerStats) && Listed(s.peerStats, s.peerIPs) && NoEmptyAddress(s.peerIPs)
  }

  // ----- counters

  lemma MarkKeepsCounters(p: TopicParams, t: TopicStats, m: Mark)
    requires ValidateTopicScoreParams(p).Accepted? && GoodCounters(p, t)
    ensures GoodCounters(p, MarkedTopic(p, t, m))
  {
    CapsMatter(p);
    hide ValidateTopicScoreParams, Square;
  }

  lemma CapsMatter(p: TopicParams)
    requires ValidateTopicScoreParams(p).Accepted?
    ensures p.firstMessageDeliveriesWeight != 0.0 ==>
      p.firstMessageDeliveriesCap > 0.0 && 0.0 < p.firstMessageDeliveriesDecay < 1.0
    ensures p.meshMessageDeliveriesWeight != 0.0 ==>
      p.meshMessageDeliveriesCap > 0.0 && 0.0 < p.meshMessageDeliveriesDecay < 1.0
  {
  }

  lemma NewTopicGood(p: TopicParams)
    requires ValidateTopicScoreParams(p).Accepted?
    ensures GoodCounters(p, NO_TOPIC_STATS)
  {
    CapsMatter(p);
    hide ValidateTopicScoreParams;
  }

  lemma RefreshKeepsCounters(p: TopicParams, z: real, t: TopicStats, now: int)
    requires ValidateTopicScoreParams(p).Accepted? && GoodCounters(p, t) && z > 0.0
    ensures GoodCounters(p, RefreshedTopic(p, z, t, now))
  {
    CapsMatter(p);
    hide ValidateTopicScoreParams;
    DecayKeepsBounds(t.firstMessageDeliveries, p.firstMessageDeliveriesDecay, z);
    DecayKeepsBounds(t.meshMessageDeliveries, p.meshMessageDeliveriesDecay, z);
    DecayKeepsBounds(t.meshFailurePenalty, p.meshFailurePenaltyDecay, z);
    DecayKeepsBounds(t.invalidMessageDeliveries, p.invalidMessageDeliveriesDecay, z);
    hide Decayed;
  }

  lemma DepartureKeepsCounters(p: TopicParams, t: TopicStats)
    requires ValidateTopicScoreParams(p).Accepted? && GoodCounters(p, t)
    ensures GoodCounters(p, DepartedTopic(p, t))
  {
    CapsMatter(p);
    hide ValidateTopicScoreParams, Square;
  }

  lemma MarkKeepsPeer(params: Params, s: PeerStats, topic: Topic, m: Mark)
    requires AcceptedParams(params) && GoodPeer(params, s)
    ensures GoodPeer(params, MarkedPeer(params, s, topic, m)) && MarkedPeer(params, s, topic, m).knownIPs == s.knownIPs
  {
    hide MarkedTopic, GoodCounters, ValidateTopicScoreParams;
    if topic in params.topics {
      if topic !in s.topics {
        NewTopicGood(params.topics[topic]);
      }
      MarkKeepsCounters(params.topics[topic], TopicOf(s, topic), m);
    }
  }

  lemma RefreshKeepsPeer(params: Params, s: PeerStats, now: int)
    requires AcceptedParams(params) && GoodPeer(params, s)
    ensures GoodPeer(params, RefreshedPeer(params, s, now)) && RefreshedPeer(params, s, now).knownIPs == s.knownIPs
  {
    forall t | t in s.topics
      ensures GoodCounters(params.topics[t], RefreshedTopic(params.topics[t], params.decayToZero, s.topics[t], now))
    {
      RefreshKeepsCounters(params.topics[t], params.decayToZero, s.topics[t], now);
    }
    hide RefreshedTopic, GoodCounters, ValidateTopicScoreParams;
  }

  lemma DepartureKeepsPeer(params: Params, s: PeerStats, now: int)
    requires AcceptedParams(params) && GoodPeer(params, s)
    ensures GoodPeer(params, DepartedPeer(params, s, now)) && DepartedPeer(params, s, now).knownIPs == s.knownIPs
  {
    forall t | t in s.topics ensures GoodCounters(params.topics[t], DepartedTopic(params.topics[t], s.topics[t])) {
      DepartureKeepsCounters(params.topics[t], s.topics[t]);
    }
    hide DepartedTopic, GoodCounters, ValidateTopicScoreParams;
  }

  /** The same peers, each still good, at the same addresses. */
  ghost predicate KeepsGood(params: Params, a: Stats, b: Stats) {
    a.Keys == b.Keys && forall p :: p in b ==> GoodPeer(params, b[p]) && b[p].knownIPs == a[p].knownIPs
  }

  lemma MarkAllKeeps(params: Params, stats: Stats, who: set<PeerId>, topic: Topic, m: Mark)
    requires AcceptedParams(params) && GoodStats(params, stats)
    ensures KeepsGood(params, stats, MarkAll(params, stats, who, topic, m))
  {
    hide GoodPeer, MarkedPeer, AcceptedParams;
    forall p | p in stats && p in who
      ensures GoodPeer(params, MarkedPeer(params, stats[p], topic, m))
      ensures MarkedPeer(params, stats[p], topic, m).knownIPs == stats[p].knownIPs
    {
      MarkKeepsPeer(params, stats[p], topic, m);
    }
  }

  lemma BlameAllKeeps(params: Params, stats: Stats, blames: multiset<PeerId>, topic: Topic)
    requires AcceptedParams(params) && GoodStats(params, stats)
    ensures KeepsGood(params, stats, BlameAll(params, stats, blames, topic))
  {
    hide GoodPeer, MarkedPeer, AcceptedParams;
    forall p | p in stats && p in blames
      ensures GoodPeer(params, MarkedPeer(params, stats[p], topic, Blame(blames[p])))
      ensures MarkedPeer(params, stats[p], topic, Blame(blames[p])).knownIPs == stats[p].knownIPs
    {
      MarkKeepsPeer(params, stats[p], topic, Blame(blames[p]));
    }
  }

  lemma KeepsInv(c: Config, s: State, stats: Stats)
    requires Inv(c, s) && KeepsGood(c.params, s.peerStats, stats)
    ensures GoodStats(c.params, stats) && Listed(stats, s.peerIPs)
  {
    hide GoodPeer;
  }

  lemma MessageInv(c: Config, s: State, msg: MsgId, topic: Topic, e: RecordEvent, now: int)
    requires AcceptedParams(c.params) && Inv(c, s)
    ensures Inv(c, AfterMessage(c.params, s, msg, topic, e, now))
  {
    var r := Ensured(s.records, msg, now)[msg];
    MessageStatsGood(c, s, r, topic, e, now);
    hide MessageStats, Ensured, After, GoodStats, Listed, NoEmptyAddress;
  }

  lemma MessageStatsGood(c: Config, s: State, r: Record, topic: Topic, e: RecordEvent, now: int)
    requires AcceptedParams(c.params) && Inv(c, s)
    ensures var stats := MessageStats(c.params, s.peerStats, r, topic, e, now);
            GoodStats(c.params, stats) && Listed(stats, s.peerIPs)
  {
    hide MarkAll, BlameAll, KeepsGood, GoodStats, Listed, NoEmptyAddress, AcceptedParams, Credits, Blames;
    var m := Copy(if e.Duplicate? then Some(now - r.validated) else None);
    var credited := MarkAll(c.params, s.peerStats, Credits(r, e), topic, m);
    var blamed := BlameAll(c.params, credited, Blames(r, e), topic);
    MarkAllKeeps(c.params, s.peerStats, Credits(r, e), topic, m);
    KeepsInv(c, s, credited);
    BlameAllKeeps(c.params, credited, Blames(r, e), topic);
    KeepsGoodTwice(c.params, s.peerStats, credited, blamed);
    KeepsInv(c, s, blamed);
  }

  lemma KeepsGoodTwice(params: Params, x: Stats, y: Stats, z: Stats)
    requires KeepsGood(params, x, y) && KeepsGood(params, y, z)
    ensures KeepsGood(params, x, z)
  {
    hide GoodPeer;
  }

  lemma RefreshInv(c: Config, s: State, now: int)
    requires AcceptedParams(c.params) && Scorable(c.params) && Inv(c, s)
    ensures Inv(c, Next(c, s, Refresh, now))
  {
    var gone := ForgottenIPs(s.peerStats, now);
    var stats := RefreshedStats(c.params, s.peerStats, now);
    forall p | p in stats ensures GoodPeer(c.params, stats[p]) && stats[p].knownIPs == s.peerStats[p].knownIPs {
      RefreshKeepsPeer(c.params, s.peerStats[p], now);
    }
    hide GoodPeer, RefreshedPeer, AcceptedParams;
    forall p, ip | p in stats && ip in stats[p].knownIPs
      ensures ip in Unlist(s.peerIPs, gone) && p in Unlist(s.peerIPs, gone)[ip]
    {
      assert p in Left(s.peerIPs, gone, ip);
    }
  }

  lemma RemovalInv(c: Config, s: State, id: PeerId, now: int)
    requires AcceptedParams(c.params) && Scorable(c.params) && Inv(c, s)
    ensures Inv(c, AfterRemoval(c, s, id, now))
  {
    hide ScoreRead, ScoreNow, CacheFresh, GoodCounters;
    if id in s.peerStats {
      if ScoreRead(c, s, id, now) > 0.0 {
        UnlistInv(c, s, id, s.peerStats[id].knownIPs, s.peerStats - {id});
      } else {
        DepartureKeepsPeer(c.params, s.peerStats[id], now);
        hide DepartedPeer, GoodPeer, AcceptedParams;
      }
    }
  }

  lemma UnlistInv(c: Config, s: State, id: PeerId, ips: set<IP>, stats: Stats)
    requires Inv(c, s) && stats.Keys <= s.peerStats.Keys
    requires forall p :: p in stats ==> GoodPeer(c.params, stats[p]) && stats[p].knownIPs <= s.peerStats[p].knownIPs
    requires id in stats ==> stats[id].knownIPs !! ips
    ensures Inv(c, s.(peerStats := stats, peerIPs := Unlist(s.peerIPs, map[id := ips])))
  {
    hide GoodPeer;
    forall p, ip | p in stats && ip in stats[p].knownIPs
      ensures ip in Unlist(s.peerIPs, map[id := ips]) && p in Unlist(s.peerIPs, map[id := ips])[ip]
    {
      assert p in Left(s.peerIPs, map[id := ips], ip);
    }
  }

  lemma NextInv(c: Config, s: State, e: Event, now: int)
    requires AcceptedParams(c.params) && Scorable(c.params) && Inv(c, s)
    ensures Inv(c, Next(c, s, e, now))
  {
    match e
    case Refresh => RefreshInv(c, s, now);
    case PeerRemoved(id) => RemovalInv(c, s, id, now);
    case IpRemoved(id, ip) =>
      hide AcceptedParams, Scorable, GoodCounters, Unlist;
      var stats := if id !in s.peerStats then s.peerStats
                   else s.peerStats[id := s.peerStats[id].(knownIPs := s.peerStats[id].knownIPs - {ip})];
      UnlistInv(c, s, id, {ip}, stats);
    case Penalty(_, _) => PeerUpdatedInv(c, s, e, now);
    case PeerAdded(_) => PeerUpdatedInv(c, s, e, now);
    case IpAdded(_, _) => PeerUpdatedInv(c, s, e, now);
    case _ => MarkingInv(c, s, e, now);
  }

  lemma PeerUpdatedInv(c: Config, s: State, e: Event, now: int)
    requires Scorable(c.params) && Inv(c, s) && (e.Penalty? || e.PeerAdded? || e.IpAdded?)
    ensures Inv(c, Next(c, s, e, now))
  {
    hide Scorable, GoodCounters;
  }

  /** The stats after marking a few peers are as good as before. */
  lemma MarkingInv(c: Config, s: State, e: Event, now: int)
    requires AcceptedParams(c.params) && Scorable(c.params) && Inv(c, s)
    requires !e.Refresh? && !e.PeerRemoved? && !e.IpRemoved? && !e.Penalty? && !e.PeerAdded? && !e.IpAdded?
    ensures Inv(c, Next(c, s, e, now))
  {
    hide AfterMessage, MarkAll, AcceptedParams, Scorable, GoodStats, Listed, NoEmptyAddress, ScoreNow, KeepsGood;
    match e
    case Grafted(id, topic) => MarkedInv(c, s, id, topic, Graft(now));
    case Pruned(id, topic) => MarkedInv(c, s, id, topic, Prune);
    case DeliverMessage(from, msg, topic) =>
      MarkedInv(c, s, from, topic, First);
      var first := s.(peerStats := MarkAll(c.params, s.peerStats, {from}, topic, First));
      MessageInv(c, first, msg, topic, Deliver(from, now), now);
    case RejectMessage(from, msg, topic, reason) =>
      MarkedInv(c, s, from, topic, Blame(1));
      MessageInv(c, s, msg, topic, RecordEvent.Rejected(from, reason), now);
    case RejectInvalid(from, topic) => MarkedInv(c, s, from, topic, Blame(1));
    case DuplicateMessage(from, msg, topic) => MessageInv(c, s, msg, topic, Duplicate(from), now);
    case _ =>
  }

  lemma MarkedInv(c: Config, s: State, id: PeerId, topic: Topic, m: Mark)
    requires AcceptedParams(c.params) && Inv(c, s)
    ensures Inv(c, s.(peerStats := MarkAll(c.params, s.peerStats, {id}, topic, m)))
  {
    MarkAllKeeps(c.params, s.peerStats, {id}, topic, m);
    KeepsInv(c, s, MarkAll(c.params, s.peerStats, {id}, topic, m));
    hide MarkAll, KeepsGood, GoodStats, Listed, AcceptedParams;
  }

  lemma {:induction false} RunInv(c: Config, steps: seq<Timed>)
    requires AcceptedParams(c.params) && Scorable(c.params)
    ensures Inv(c, Run(c, steps))
  {
    if steps != [] {
      var last := steps[|steps| - 1];
      RunInv(c, steps[..|steps| - 1]);
      NextInv(c, Run(c, steps[..|steps| - 1]), last.e, last.now);
    }
  }

  // ----- the score stays bounded

  /** No run lets a peer's score exceed the cap, or what the scored topics can give, plus the application's share. */
  lemma ReachableScoreBounded(c: Config, steps: seq<Timed>, p: PeerId)
    requires AcceptedParams(c.params)
    ensures Scorable(c.params)
    ensures var s, app := Run(c, steps), Times(c.params.appSpecificScore(p), c.params.appSpecificWeight);
            p in s.peerStats ==>
              && (c.params.topicScoreCap > 0.0 ==> ScoreNow(c, s, p) <= c.params.topicScoreCap + app)
              && ScoreNow(c, s, p) <= Sum(s.peerStats[p].topics.Keys, TopicMostTerm(c.params)) + app
  {
    AcceptedIsScorable(c.params);
    RunInv(c, steps);
    var s := Run(c, steps);
    hide Run, AcceptedParams, Scorable;
    if p in s.peerStats {
      assert NoNegativeFailures(s.peerStats[p]) by { assert GoodPeer(c.params, s.peerStats[p]); }
      hide Inv, NoNegativeFailures;
      ScoreBounded(p, s.peerStats[p], c.params, s.peerIPs);
      hide ScoreOf, TopicMostTerm, Times;
    }
  }

  // ----- the address index

  /** An address lists a peer exactly when the peer's stats know the address. */
  ghost predicate Exact(s: State) {
    forall p, ip :: p in PeersOf(s.peerIPs, ip) <==> p in s.peerStats && ip in s.peerStats[p].knownIPs
  }

  /** The two ways of leaving an address behind: forgetting the known addresses, and listing a peer without stats. */
  ghost predicate Desyncs(s: State, e: Event) {
    || (e.PeerAdded? && e.id in s.peerStats && s.peerStats[e.id].knownIPs != {})
    || (e.IpAdded? && e.id !in s.peerStats)
  }

  ghost predicate SameAddresses(a: Stats, b: Stats) {
    a.Keys == b.Keys && forall p :: p in a ==> a[p].knownIPs == b[p].knownIPs
  }

  lemma SameAddressesExact(s: State, s': State)
    requires Exact(s) && SameAddresses(s.peerStats, s'.peerStats) && s'.peerIPs == s.peerIPs
    ensures Exact(s')
  {
    hide PeersOf;
    forall p, ip ensures p in PeersOf(s'.peerIPs, ip) <==> p in s'.peerStats && ip in s'.peerStats[p].knownIPs {
      assert p in PeersOf(s.peerIPs, ip) <==> p in s.peerStats && ip in s.peerStats[p].knownIPs;
    }
  }

  lemma UnlistedPeers(index: IpIndex, gone: map<PeerId, set<IP>>, p: PeerId, ip: IP)
    ensures p in PeersOf(Unlist(index, gone), ip) <==> p in PeersOf(index, ip) && !(p in gone && ip in gone[p])
  {
    assert p in Left(index, gone, ip) <==> p in PeersOf(index, ip) && !(p in gone && ip in gone[p]);
  }

  lemma UnlistExact(s: State, gone: map<PeerId, set<IP>>, stats: Stats, s': State)
    requires Exact(s) && s'.peerStats == stats && s'.peerIPs == Unlist(s.peerIPs, gone)
    requires forall p, ip :: (p in stats && ip in stats[p].knownIPs)
               <==> (p in s.peerStats && ip in s.peerStats[p].knownIPs && !(p in gone && ip in gone[p]))
    ensures Exact(s')
  {
    hide PeersOf, Unlist;
    forall p, ip ensures p in PeersOf(s'.peerIPs, ip) <==> p in s'.peerStats && ip in s'.peerStats[p].knownIPs {
      UnlistedPeers(s.peerIPs, gone, p, ip);
      assert p in PeersOf(s.peerIPs, ip) <==> p in s.peerStats && ip in s.peerStats[p].knownIPs;
    }
  }

  /** An exact index stays exact under every event but those two, and loses exactness under each of them. */
  lemma ExactKeptIff(c: Config, s: State, e: Event, now: int)
    requires AcceptedParams(c.params) && Scorable(c.params) && Inv(c, s) && Exact(s)
    ensures Exact(Next(c, s, e, now)) <==> !Desyncs(s, e)
  {
    var s' := Next(c, s, e, now);
    match e
    case Refresh => RefreshExact(c, s, now);
    case PeerRemoved(id) => RemovalExact(c, s, id, now);
    case IpRemoved(id, ip) =>
      hide Inv, AcceptedParams, Scorable, Exact, Unlist;
      UnlistExact(s, map[id := {ip}], s'.peerStats, s');
    case PeerAdded(id) => AddPeerExact(c, s, id, now);
    case IpAdded(id, ip) => AddIpExact(c, s, id, ip, now);
    case _ =>
      NextSameAddresses(c, s, e, now);
      hide Inv, Next, AcceptedParams, Scorable, Exact, SameAddresses;
      SameAddressesExact(s, s');
  }

  lemma NextSameAddresses(c: Config, s: State, e: Event, now: int)
    requires AcceptedParams(c.params) && Scorable(c.params) && Inv(c, s)
    requires !e.Refresh? && !e.PeerRemoved? && !e.IpRemoved? && !e.PeerAdded? && !e.IpAdded?
    ensures SameAddresses(s.peerStats, Next(c, s, e, now).peerStats) && Next(c, s, e, now).peerIPs == s.peerIPs
  {
    hide Inv, AcceptedParams, Scorable, MarkAll, MessageStats, SameAddresses, ScoreNow, CacheFresh, Exact, Unlist;
    MarkedAddresses(c.params, s.peerStats);
    match e
    case Penalty(id, penalty) => PenaltyAddresses(s.peerStats, id, penalty);
    case DeliverMessage(from, msg, topic) =>
      var first := MarkAll(c.params, s.peerStats, {from}, topic, First);
      MarkedAddresses(c.params, first);
      var after := AfterMessage(c.params, s.(peerStats := first), msg, topic, Deliver(from, now), now);
      AddressesTwice(s.peerStats, first, after.peerStats);
    case _ =>
  }

  lemma PenaltyAddresses(stats: Stats, id: PeerId, penalty: real)
    ensures SameAddresses(stats, stats)
    ensures id in stats ==>
      SameAddresses(stats, stats[id := stats[id].(behaviourPenalty := stats[id].behaviourPenalty + penalty)])
  {
  }

  lemma AddressesTwice(x: Stats, y: Stats, z: Stats)
    requires SameAddresses(x, y) && SameAddresses(y, z)
    ensures SameAddresses(x, z)
  {
  }

  /** No mark touches an address. */
  lemma MarkedAddresses(params: Params, stats: Stats)
    ensures SameAddresses(stats, stats)
    ensures forall who, topic, m :: SameAddresses(stats, MarkAll(params, stats, who, topic, m))
    ensures forall r, topic, e, now :: SameAddresses(stats, MessageStats(params, stats, r, topic, e, now))
  {
    hide MarkedTopic, Credits, Blames;
  }

  lemma RefreshExact(c: Config, s: State, now: int)
    requires Scorable(c.params) && Exact(s)
    ensures Exact(Next(c, s, Refresh, now))
  {
    var s' := Next(c, s, Refresh, now);
    hide Exact, Unlist, RefreshedTopic, Scorable;
    UnlistExact(s, ForgottenIPs(s.peerStats, now), s'.peerStats, s');
  }

  lemma RemovalExact(c: Config, s: State, id: PeerId, now: int)
    requires Scorable(c.params) && Exact(s)
    ensures Exact(AfterRemoval(c, s, id, now))
  {
    hide Exact, Unlist, DepartedTopic, Scorable, ScoreRead, ScoreNow, CacheFresh;
    var s' := AfterRemoval(c, s, id, now);
    if id in s.peerStats {
      if ScoreRead(c, s, id, now) > 0.0 {
        UnlistExact(s, map[id := s.peerStats[id].knownIPs], s'.peerStats, s');
      } else {
        SameAddressesExact(s, s');
      }
    }
  }

  lemma AddPeerExact(c: Config, s: State, id: PeerId, now: int)
    requires Scorable(c.params) && Exact(s)
    ensures Exact(Next(c, s, PeerAdded(id), now)) <==> !Desyncs(s, PeerAdded(id))
  {
    hide Scorable, PeersOf;
    var s' := Next(c, s, PeerAdded(id), now);
    if Desyncs(s, PeerAdded(id)) {
      var ip :| ip in s.peerStats[id].knownIPs;
      assert id in PeersOf(s'.peerIPs, ip) && ip !in s'.peerStats[id].knownIPs;
    } else {
      forall p, ip ensures p in PeersOf(s'.peerIPs, ip) <==> p in s'.peerStats && ip in s'.peerStats[p].knownIPs {
        assert p in PeersOf(s.peerIPs, ip) <==> p in s.peerStats && ip in s.peerStats[p].knownIPs;
      }
    }
  }

  lemma AddIpExact(c: Config, s: State, id: PeerId, ip: IP, now: int)
    requires Scorable(c.params) && Exact(s)
    ensures Exact(Next(c, s, IpAdded(id, ip), now)) <==> !Desyncs(s, IpAdded(id, ip))
  {
    hide Scorable;
    var s' := Next(c, s, IpAdded(id, ip), now);
    if id !in s.peerStats {
      assert id in PeersOf(s'.peerIPs, ip);
    } else {
      forall p, i ensures p in PeersOf(s'.peerIPs, i) <==> p in s'.peerStats && i in s'.peerStats[p].knownIPs {
        assert p in PeersOf(s.peerIPs, i) <==> p in s.peerStats && i in s.peerStats[p].knownIPs;
      }
    }
  }

  /** A peer that comes back from another address stays listed at the old one, if its score was retained. */
  lemma AddressLeftBehind(c: Config, p: PeerId, before: IP, after: IP, now: int)
    requires AcceptedParams(c.params) && Scorable(c.params) && before != after
    requires Times(c.params.appSpecificScore(p), c.params.appSpecificWeight) <= 0.0
    ensures !Exact(Run(c, ReturnFrom(p, before, after, now)))
  {
    RunOfReturn(c, p, before, after, now);
    VisitRetained(c, p, before, now);
    hide Next, Scorable, Exact, AcceptedParams, Run, PeersOf;
    var visit := Next(c, Next(c, INITIAL, PeerAdded(p), now), IpAdded(p, before), now);
    ReturnedElsewhere(c, Next(c, visit, PeerRemoved(p), now), p, before, after, now);
  }

  function ReturnFrom(p: PeerId, before: IP, after: IP, now: int): seq<Timed> {
    [Timed(PeerAdded(p), now), Timed(IpAdded(p, before), now), Timed(PeerRemoved(p), now), Timed(PeerAdded(p), now),
     Timed(IpAdded(p, after), now)]
  }

  lemma RunOfReturn(c: Config, p: PeerId, before: IP, after: IP, now: int)
    requires Scorable(c.params)
    ensures var visit := Next(c, Next(c, INITIAL, PeerAdded(p), now), IpAdded(p, before), now);
            var gone := Next(c, visit, PeerRemoved(p), now);
            Run(c, ReturnFrom(p, before, after, now))
            == Next(c, Next(c, gone, PeerAdded(p), now), IpAdded(p, after), now)
  {
    var steps := ReturnFrom(p, before, after, now);
    assert steps[..4][..3] == steps[..3] && steps[..3][..2] == steps[..2] && steps[..2][..1] == steps[..1];
    assert steps[..1][..0] == [];
    hide Next, Scorable;
    assert RunOn(c, INITIAL, steps[..1]) == Next(c, INITIAL, PeerAdded(p), now);
    assert RunOn(c, INITIAL, steps[..2]) == Next(c, RunOn(c, INITIAL, steps[..1]), IpAdded(p, before), now);
    assert RunOn(c, INITIAL, steps[..3]) == Next(c, RunOn(c, INITIAL, steps[..2]), PeerRemoved(p), now);
    assert RunOn(c, INITIAL, steps[..4]) == Next(c, RunOn(c, INITIAL, steps[..3]), PeerAdded(p), now);
  }

  /** A peer that did nothing has no positive score, so its address is kept when it leaves. */
  lemma VisitRetained(c: Config, p: PeerId, before: IP, now: int)
    requires AcceptedParams(c.params) && Scorable(c.params)
    requires Times(c.params.appSpecificScore(p), c.params.appSpecificWeight) <= 0.0
    ensures var visit := Next(c, Next(c, INITIAL, PeerAdded(p), now), IpAdded(p, before), now);
            p in PeersOf(Next(c, visit, PeerRemoved(p), now).peerIPs, before)
  {
    var visit := Next(c, Next(c, INITIAL, PeerAdded(p), now), IpAdded(p, before), now);
    assert visit.peerStats[p] == NEW_PEER.(knownIPs := {before}) && visit.scoreCache == map[];
    assert p in PeersOf(visit.peerIPs, before);
    VisitorScore(c, p, visit);
    hide ScoreNow, DepartedPeer, Unlist, Scorable;
  }

  lemma VisitorScore(c: Config, p: PeerId, s: State)
    requires AcceptedParams(c.params) && Scorable(c.params) && p in s.peerStats && s.peerStats[p].topics == map[]
    requires s.peerStats[p].behaviourPenalty == 0.0
    requires Times(c.params.appSpecificScore(p), c.params.appSpecificWeight) <= 0.0
    ensures ScoreNow(c, s, p) <= 0.0
  {
    var stats := s.peerStats[p];
    assert TopicsShare(c.params, stats) == 0.0;
    assert P7(c.params, stats) >= 0.0;
    IpsOnlyPenalise(stats, c.params, s.peerIPs);
    hide TopicsShare, P7, Sum, IpTerm, Times;
    TimesNotPositive(P7(c.params, stats), c.params.behaviourPenaltyWeight);
  }

  lemma ReturnedElsewhere(c: Config, s: State, p: PeerId, before: IP, after: IP, now: int)
    requires Scorable(c.params) && p in PeersOf(s.peerIPs, before) && before != after
    ensures !Exact(Next(c, Next(c, s, PeerAdded(p), now), IpAdded(p, after), now))
  {
    var s' := Next(c, Next(c, s, PeerAdded(p), now), IpAdded(p, after), now);
    assert p in PeersOf(s'.peerIPs, before) && s'.peerStats[p].knownIPs == {after};
  }

  // ----- decay

  /** `s'` is `s` after `n` refreshes: every counter decayed that often. */
  ghost predicate CountersDecayed(params: Params, s: PeerStats, s': PeerStats, n: nat) {
    && s'.connected == s.connected && s'.topics.Keys == s.topics.Keys
    && s'.behaviourPenalty == DecayedTimes(s.behaviourPenalty, params.behaviourPenaltyDecay, params.decayToZero, n)
    && forall t :: t in s.topics && t in params.topics ==>
         TopicDecayed(params.topics[t], params.decayToZero, s.topics[t], s'.topics[t], n)
  }

  ghost predicate TopicDecayed(p: TopicParams, z: real, t: TopicStats, t': TopicStats, n: nat) {
    && t'.firstMessageDeliveries == DecayedTimes(t.firstMessageDeliveries, p.firstMessageDeliveriesDecay, z, n)
    && t'.meshMessageDeliveries == DecayedTimes(t.meshMessageDeliveries, p.meshMessageDeliveriesDecay, z, n)
    && t'.meshFailurePenalty == DecayedTimes(t.meshFailurePenalty, p.meshFailurePenaltyDecay, z, n)
    && t'.invalidMessageDeliveries == DecayedTimes(t.invalidMessageDeliveries, p.invalidMessageDeliveriesDecay, z, n)
  }

  ghost predicate OnlyRefreshes(steps: seq<Timed>) { forall k :: 0 <= k < |steps| ==> steps[k].e.Refresh? }

  /** With nothing else going on, each counter of a connected peer decays once per refresh. */
  lemma {:induction false} RefreshesDecay(c: Config, s: State, steps: seq<Timed>, p: PeerId)
    requires Scorable(c.params) && OnlyRefreshes(steps) && p in s.peerStats && s.peerStats[p].connected
    ensures p in RunOn(c, s, steps).peerStats
    ensures CountersDecayed(c.params, s.peerStats[p], RunOn(c, s, steps).peerStats[p], |steps|)
  {
    if steps != [] {
      var before, last := steps[..|steps| - 1], steps[|steps| - 1];
      RefreshesDecay(c, s, before, p);
      var was := RunOn(c, s, before);
      assert RunOn(c, s, steps) == Next(c, was, Refresh, last.now);
      hide RunOn, Scorable, Unlist, OnlyRefreshes, CountersDecayed;
      assert RunOn(c, s, steps).peerStats == RefreshedStats(c.params, was.peerStats, last.now);
      OneMoreRefresh(c.params, s.peerStats[p], was.peerStats[p], |before|, last.now);
    }
  }

  lemma OneMoreRefresh(params: Params, s: PeerStats, was: PeerStats, n: nat, now: int)
    requires s.connected && CountersDecayed(params, s, was, n)
    ensures CountersDecayed(params, s, RefreshedPeer(params, was, now), n + 1)
  {
    hide Decayed;
  }

  /** Retained stats do not decay: refreshes keep them untouched up to the expiry and drop them after it. */
  lemma {:induction false} RetainedUntilExpiry(c: Config, s: State, steps: seq<Timed>, p: PeerId)
    requires Scorable(c.params) && OnlyRefreshes(steps) && Chronological(steps) && steps != []
    requires p in s.peerStats && !s.peerStats[p].connected
    ensures p in RunOn(c, s, steps).peerStats <==> steps[|steps| - 1].now <= s.peerStats[p].expire
    ensures p in RunOn(c, s, steps).peerStats ==> RunOn(c, s, steps).peerStats[p] == s.peerStats[p]
  {
    var before, last := steps[..|steps| - 1], steps[|steps| - 1];
    if before != [] {
      RetainedUntilExpiry(c, s, before, p);
      assert before[|before| - 1].now <= last.now;
    } else {
      assert RunOn(c, s, before) == s;
    }
    var was := RunOn(c, s, before);
    assert RunOn(c, s, steps) == Next(c, was, Refresh, last.now);
    hide RunOn, Scorable, Unlist, OnlyRefreshes;
    assert RunOn(c, s, steps).peerStats == RefreshedStats(c.params, was.peerStats, last.now);
  }

  /** `x` is `c` after `n` intervals of decay: exponential above the threshold, zero below it, and zero in the end. */
  ghost predicate Faded(c: real, d: real, z: real, n: nat, x: real)
    requires z > 0.0
  {
    c >= 0.0 && 0.0 <= d < 1.0 ==>
      && x == (if Times(c, Pow(d, n)) >= z then Times(c, Pow(d, n)) else 0.0)
      && (n >= ZeroAfter(c, d, z) ==> x == 0.0)
  }

  lemma FadedIsDecay(c: real, d: real, z: real, n: nat)
    requires z > 0.0 && n >= 1
    ensures Faded(c, d, z, n, DecayedTimes(c, d, z, n))
  {
    if c >= 0.0 && 0.0 <= d < 1.0 {
      DecayClosedForm(c, d, z, n);
      if n >= ZeroAfter(c, d, z) {
        DecaysToZero(c, d, z, n);
      }
    }
  }

  /** What `n` refreshes and nothing else make of a connected peer's behaviour penalty, whatever topics it is in. */
  lemma PenaltyFades(c: Config, s: State, steps: seq<Timed>, p: PeerId)
    requires Scorable(c.params) && c.params.decayToZero > 0.0 && OnlyRefreshes(steps) && steps != []
    requires p in s.peerStats && s.peerStats[p].connected
    ensures p in RunOn(c, s, steps).peerStats
    ensures Faded(s.peerStats[p].behaviourPenalty, c.params.behaviourPenaltyDecay, c.params.decayToZero, |steps|,
                  RunOn(c, s, steps).peerStats[p].behaviourPenalty)
  {
    RefreshesDecay(c, s, steps, p);
    hide RunOn, Faded, Scorable, OnlyRefreshes, DecayedTimes;
    FadedIsDecay(s.peerStats[p].behaviourPenalty, c.params.behaviourPenaltyDecay, c.params.decayToZero, |steps|);
  }

  /** And of its counters in a topic. */
  lemma RefreshesFade(c: Config, s: State, steps: seq<Timed>, p: PeerId, topic: Topic)
    requires AcceptedParams(c.params) && Scorable(c.params) && OnlyRefreshes(steps) && steps != []
    requires p in s.peerStats && s.peerStats[p].connected
    requires topic in s.peerStats[p].topics && topic in c.params.topics
    ensures p in RunOn(c, s, steps).peerStats && topic in RunOn(c, s, steps).peerStats[p].topics
    ensures var params, n := c.params, |steps|;
            var tp, z := params.topics[topic], params.decayToZero;
            var was, now := s.peerStats[p], RunOn(c, s, steps).peerStats[p];
            var t, t' := was.topics[topic], now.topics[topic];
            && Faded(was.behaviourPenalty, params.behaviourPenaltyDecay, z, n, now.behaviourPenalty)
            && Faded(t.firstMessageDeliveries, tp.firstMessageDeliveriesDecay, z, n, t'.firstMessageDeliveries)
            && Faded(t.meshMessageDeliveries, tp.meshMessageDeliveriesDecay, z, n, t'.meshMessageDeliveries)
            && Faded(t.meshFailurePenalty, tp.meshFailurePenaltyDecay, z, n, t'.meshFailurePenalty)
            && Faded(t.invalidMessageDeliveries, tp.invalidMessageDeliveriesDecay, z, n, t'.invalidMessageDeliveries)
  {
    RefreshesDecay(c, s, steps, p);
    var params, n := c.params, |steps|;
    var tp, z := params.topics[topic], params.decayToZero;
    var was, now := s.peerStats[p], RunOn(c, s, steps).peerStats[p];
    var t, t' := was.topics[topic], now.topics[topic];
    assert TopicDecayed(tp, z, t, t', n);
    assert z > 0.0;
    hide RunOn, Faded, AcceptedParams, Scorable, OnlyRefreshes, DecayedTimes;
    FadedIsDecay(was.behaviourPenalty, params.behaviourPenaltyDecay, z, n);
    FadedIsDecay(t.firstMessageDeliveries, tp.firstMessageDeliveriesDecay, z, n);
    FadedIsDecay(t.meshMessageDeliveries, tp.meshMessageDeliveriesDecay, z, n);
    FadedIsDecay(t.meshFailurePenalty, tp.meshFailurePenaltyDecay, z, n);
    FadedIsDecay(t.invalidMessageDeliveries, tp.invalidMessageDeliveriesDecay, z, n);
  }

  // ----- reconnecting

  /**
   * The score of a peer that has just connected: the application's share, and a penalty if its threshold is
   * negative.
   */
  ghost function NewcomerScore(c: Config, p: PeerId): real
    requires Scorable(c.params)
  {
    TopicsShare(c.params, NEW_PEER) + Times(c.params.appSpecificScore(p), c.params.appSpecificWeight)
    + Times(P7(c.params, NEW_PEER), c.params.behaviourPenaltyWeight)
  }

  lemma NewcomersHaveTheApplicationShare(c: Config, p: PeerId)
    requires AcceptedParams(c.params) && Scorable(c.params) && c.params.behaviourPenaltyThreshold >= 0.0
    ensures NewcomerScore(c, p) == Times(c.params.appSpecificScore(p), c.params.appSpecificWeight)
  {
    assert TopicsShare(c.params, NEW_PEER) == 0.0;
    assert P7(c.params, NEW_PEER) == 0.0 && Times(0.0, c.params.behaviourPenaltyWeight) == 0.0;
    hide TopicsShare, P7, Times;
  }

  /** Connecting anew replaces whatever was retained: computed anew, the score is a newcomer's. */
  lemma ReconnectForgets(c: Config, s: State, p: PeerId, now: int)
    requires Scorable(c.params)
    ensures var s' := Next(c, s, PeerAdded(p), now);
            p in s'.peerStats && ScoreNow(c, s', p) == NewcomerScore(c, p)
  {
    assert Sum(NEW_PEER.knownIPs, IpTerm(c.params, s.peerIPs)) == 0.0;
    hide Times, TopicsShare, P7, IpTerm;
  }

  /** But a score still remembered is read instead, whatever became of the stats it was computed from. */
  lemma ReconnectReads(c: Config, s: State, p: PeerId, now: int, t: int)
    requires Scorable(c.params)
    ensures ScoreRead(c, Next(c, s, PeerAdded(p), now), p, t)
         == if CacheFresh(s, p, t) then s.scoreCache[p].score else NewcomerScore(c, p)
  {
    ReconnectForgets(c, s, p, now);
    hide ScoreNow, NewcomerScore;
  }

  /** How long the score read at a removal stays remembered. */
  function RememberedUntil(c: Config, s: State, p: PeerId, left: int): int {
    if CacheFresh(s, p, left) then s.scoreCache[p].cacheUntil else left + c.cacheValidityMs
  }

  /** A removal reads the score, and so leaves it remembered, whether the stats are retained or not. */
  lemma RemovalRemembers(c: Config, s: State, p: PeerId, left: int)
    requires Scorable(c.params) && p in s.peerStats
    ensures var gone := Next(c, s, PeerRemoved(p), left);
            && p in gone.scoreCache
            && gone.scoreCache[p] == CacheEntry(ScoreRead(c, s, p, left), RememberedUntil(c, s, p, left))
            && (p in gone.peerStats <==> ScoreRead(c, s, p, left) <= 0.0)
  {
    hide ScoreNow, Unlist, DepartedPeer;
  }

  /**
   * A peer that reconnects, whatever its score was, is read with the score it left with as long as that is remembered,
   * and as a newcomer from then on. So the reconnect shows at time `t` exactly when the remembered score has run out,
   * or was a newcomer's anyway.
   */
  lemma RetentionDoesNotSurviveReconnect(c: Config, s: State, p: PeerId, left: int, back: int, t: int)
    requires Scorable(c.params) && p in s.peerStats
    ensures var again := Next(c, Next(c, s, PeerRemoved(p), left), PeerAdded(p), back);
            var was, until := ScoreRead(c, s, p, left), RememberedUntil(c, s, p, left);
            && ScoreRead(c, again, p, t) == (if t < until then was else NewcomerScore(c, p))
            && (ScoreRead(c, again, p, t) == NewcomerScore(c, p) <==> t >= until || was == NewcomerScore(c, p))
  {
    RemovalRemembers(c, s, p, left);
    ReconnectReads(c, Next(c, s, PeerRemoved(p), left), p, back, t);
    hide Next, ScoreRead, NewcomerScore, RememberedUntil;
  }

  /** No later event before that replaces a remembered score, short of the peer being forgotten altogether. */
  lemma {:induction false} RememberedScoreStands(c: Config, s: State, steps: seq<Timed>, p: PeerId)
    requires Scorable(c.params) && p in s.scoreCache
    requires forall k :: 0 <= k < |steps| ==> steps[k].now < s.scoreCache[p].cacheUntil
    requires forall k :: 0 <= k < |steps| && steps[k].e.Refresh? ==>
               p !in ForgottenIPs(RunOn(c, s, steps[..k]).peerStats, steps[k].now)
    ensures p in RunOn(c, s, steps).scoreCache && RunOn(c, s, steps).scoreCache[p] == s.scoreCache[p]
  {
    if steps != [] {
      var before, last := steps[..|steps| - 1], steps[|steps| - 1];
      forall k | 0 <= k < |before| && before[k].e.Refresh?
        ensures p !in ForgottenIPs(RunOn(c, s, before[..k]).peerStats, before[k].now)
      {
        assert before[..k] == steps[..k];
      }
      RememberedScoreStands(c, s, before, p);
      FreshEntryStays(c, RunOn(c, s, before), last.e, last.now, p);
      hide Next, ForgottenIPs, Scorable;
    }
  }

  lemma FreshEntryStays(c: Config, s: State, e: Event, now: int, p: PeerId)
    requires Scorable(c.params) && CacheFresh(s, p, now)
    requires e.Refresh? ==> p !in ForgottenIPs(s.peerStats, now)
    ensures p in Next(c, s, e, now).scoreCache && Next(c, s, e, now).scoreCache[p] == s.scoreCache[p]
  {
    hide Scorable, MessageStats, MarkAll, Unlist, ScoreRead, ScoreNow, RefreshedStats, ForgottenIPs, DepartedPeer;
  }

  // ----- records of messages

  /** What happens to one message's record. */
  function RecordEvents(msg: MsgId, steps: seq<Timed>): seq<RecordEvent> {
    if steps == [] then []
    else
      var last := steps[|steps| - 1];
      RecordEvents(msg, steps[..|steps| - 1]) + RecordEventOf(msg, last.e, last.now)
  }

  function RecordEventOf(msg: MsgId, e: Event, now: int): seq<RecordEvent> {
    match e
    case ValidateMessage(m) => if m == msg then [Validate] else []
    case DeliverMessage(from, m, _) => if m == msg then [Deliver(from, now)] else []
    case RejectMessage(from, m, _, reason) => if m == msg then [RecordEvent.Rejected(from, reason)] else []
    case DuplicateMessage(from, m, _) => if m == msg then [Duplicate(from)] else []
    case _ => []
  }

  ghost predicate AliveThroughout(c: Config, s: State, steps: seq<Timed>, msg: MsgId)
    requires Scorable(c.params)
  {
    forall k :: 0 <= k <= |steps| ==> msg in RunOn(c, s, steps[..k]).records
  }

  /** While a record is alive it goes through its own events, in order, and no others. */
  lemma {:induction false} RecordLifetime(c: Config, s: State, steps: seq<Timed>, msg: MsgId)
    requires Scorable(c.params) && AliveThroughout(c, s, steps, msg)
    ensures msg in s.records && msg in RunOn(c, s, steps).records
    ensures RunOn(c, s, steps).records[msg] == RunRecord(s.records[msg], RecordEvents(msg, steps))
  {
    AliveAtEnds(c, s, steps, msg);
    if steps != [] {
      var before, last := steps[..|steps| - 1], steps[|steps| - 1];
      assert RecordEvents(msg, steps) == RecordEvents(msg, before) + RecordEventOf(msg, last.e, last.now);
      hide *;
      AliveBefore(c, s, steps, msg);
      RecordLifetime(c, s, before, msg);
      LastRecord(c, s, steps, msg);
      RunRecordNext(s.records[msg], RecordEvents(msg, before), msg, last);
    }
  }

  lemma AliveAtEnds(c: Config, s: State, steps: seq<Timed>, msg: MsgId)
    requires Scorable(c.params) && AliveThroughout(c, s, steps, msg)
    ensures msg in s.records && msg in RunOn(c, s, steps).records
  {
    hide Next, Scorable;
    assert steps[..0] == [] && steps[..|steps|] == steps;
    assert msg in RunOn(c, s, steps[..0]).records && msg in RunOn(c, s, steps[..|steps|]).records;
  }

  lemma AliveBefore(c: Config, s: State, steps: seq<Timed>, msg: MsgId)
    requires Scorable(c.params) && AliveThroughout(c, s, steps, msg) && steps != []
    ensures AliveThroughout(c, s, steps[..|steps| - 1], msg)
  {
    hide RunOn, Scorable;
    var before := steps[..|steps| - 1];
    forall k | 0 <= k <= |before| ensures msg in RunOn(c, s, before[..k]).records {
      assert before[..k] == steps[..k];
    }
  }

  lemma LastRecord(c: Config, s: State, steps: seq<Timed>, msg: MsgId)
    requires Scorable(c.params) && steps != []
    requires msg in RunOn(c, s, steps[..|steps| - 1]).records && msg in RunOn(c, s, steps).records
    ensures var last := steps[|steps| - 1];
            var was, es := RunOn(c, s, steps[..|steps| - 1]), RecordEventOf(msg, last.e, last.now);
            RunOn(c, s, steps).records[msg] == if es == [] then was.records[msg] else After(was.records[msg], es[0])
  {
    var last := steps[|steps| - 1];
    hide Next, Scorable, After;
    NextRecord(c, RunOn(c, s, steps[..|steps| - 1]), last.e, last.now, msg);
  }

  lemma RunRecordNext(r: Record, events: seq<RecordEvent>, msg: MsgId, last: Timed)
    ensures var es := RecordEventOf(msg, last.e, last.now);
            RunRecord(r, events + es) == if es == [] then RunRecord(r, events) else After(RunRecord(r, events), es[0])
  {
    var es := RecordEventOf(msg, last.e, last.now);
    if es == [] {
      assert events + es == events;
    } else {
      assert (events + es)[..|events|] == events;
    }
  }

  lemma NextRecord(c: Config, s: State, e: Event, now: int, msg: MsgId)
    requires Scorable(c.params) && msg in s.records && msg in Next(c, s, e, now).records
    ensures var es := RecordEventOf(msg, e, now);
            Next(c, s, e, now).records[msg] == if es == [] then s.records[msg] else After(s.records[msg], es[0])
  {
    hide Scorable, MessageStats, MarkAll, Unlist, ScoreRead, ScoreNow, RefreshedStats;
  }

  // ----- remembered scores

  /** The score was the peer's at some moment of the run, `c.cacheValidityMs` before the entry runs out. */
  ghost predicate Recent(c: Config, steps: seq<Timed>, id: PeerId, entry: CacheEntry)
    requires Scorable(c.params)
  {
    exists k :: 0 <= k < |steps| && WasScore(c, steps, id, entry, k)
  }

  ghost predicate WasScore(c: Config, steps: seq<Timed>, id: PeerId, entry: CacheEntry, k: nat)
    requires Scorable(c.params) && k < |steps|
  {
    var s := Run(c, steps[..k]);
    id in s.peerStats && entry == CacheEntry(ScoreNow(c, s, id), steps[k].now + c.cacheValidityMs)
  }

  /** Every remembered score was computed from the peer's stats of that moment. */
  lemma {:induction false} RememberedScores(c: Config, steps: seq<Timed>, id: PeerId)
    requires Scorable(c.params) && id in Run(c, steps).scoreCache
    ensures Recent(c, steps, id, Run(c, steps).scoreCache[id])
  {
    if steps != [] {
      var before, last := steps[..|steps| - 1], steps[|steps| - 1];
      var was, entry := Run(c, before), Run(c, steps).scoreCache[id];
      NextCache(c, was, last.e, last.now, id);
      hide Next, ScoreNow;
      if id in was.scoreCache && entry == was.scoreCache[id] {
        RememberedScores(c, before, id);
        var k :| 0 <= k < |before| && WasScore(c, before, id, entry, k);
        assert before[..k] == steps[..k];
        assert WasScore(c, steps, id, entry, k);
      } else {
        assert WasScore(c, steps, id, entry, |steps| - 1);
      }
    }
  }

  lemma NextCache(c: Config, s: State, e: Event, now: int, id: PeerId)
    requires Scorable(c.params) && id in Next(c, s, e, now).scoreCache
    ensures var entry := Next(c, s, e, now).scoreCache[id];
            || (id in s.scoreCache && entry == s.scoreCache[id])
            || (id in s.peerStats && entry == CacheEntry(ScoreNow(c, s, id), now + c.cacheValidityMs))
  {
    hide Scorable, MessageStats, MarkAll, Unlist, ScoreRead, ScoreNow, RefreshedStats;
  }

  /** The score that others read is at most `c.cacheValidityMs` old. */
  lemma ScoreReadIsRecent(c: Config, steps: seq<Timed>, id: PeerId, now: int)
    requires Scorable(c.params)
    ensures var s, score := Run(c, steps), ScoreRead(c, Run(c, steps), id, now);
            || (id !in s.peerStats && score == 0.0)
            || (id in s.peerStats && score == ScoreNow(c, s, id))
            || exists k :: 0 <= k < |steps| && steps[k].now + c.cacheValidityMs > now
                 && id in Run(c, steps[..k]).peerStats && score == ScoreNow(c, Run(c, steps[..k]), id)
  {
    var s := Run(c, steps);
    if id in s.peerStats && CacheFresh(s, id, now) {
      RememberedScores(c, steps, id);
      var k :| 0 <= k < |steps| && WasScore(c, steps, id, s.scoreCache[id], k);
    }
  }

  /** So the score that others read is bounded too, remembered or not: by the cap, and by what all topics can give. */
  lemma ScoreReadBounded(c: Config, steps: seq<Timed>, p: PeerId, now: int)
    requires AcceptedParams(c.params)
    ensures Scorable(c.params)
    ensures p in Run(c, steps).peerStats ==> WithinBounds(c.params, p, ScoreRead(c, Run(c, steps), p, now))
  {
    AcceptedIsScorable(c.params);
    hide ScoreRead, WithinBounds, AcceptedParams, Scorable, ScoreNow;
    if p in Run(c, steps).peerStats {
      ScoreReadIsRecent(c, steps, p, now);
      ComputedWithinBounds(c, steps, p);
      if ScoreRead(c, Run(c, steps), p, now) != ScoreNow(c, Run(c, steps), p) {
        var k :| 0 <= k < |steps| && p in Run(c, steps[..k]).peerStats
                 && ScoreRead(c, Run(c, steps), p, now) == ScoreNow(c, Run(c, steps[..k]), p);
        ComputedWithinBounds(c, steps[..k], p);
      }
    }
  }

  ghost predicate WithinBounds(params: Params, p: PeerId, score: real) {
    var app := Times(params.appSpecificScore(p), params.appSpecificWeight);
    && (params.topicScoreCap > 0.0 ==> score <= params.topicScoreCap + app)
    && score <= Sum(params.topics.Keys, TopicMostTerm(params)) + app
  }

  lemma ComputedWithinBounds(c: Config, steps: seq<Timed>, p: PeerId)
    requires AcceptedParams(c.params) && Scorable(c.params)
    ensures p in Run(c, steps).peerStats ==> WithinBounds(c.params, p, ScoreNow(c, Run(c, steps), p))
  {
    ReachableScoreBounded(c, steps, p);
    RunInv(c, steps);
    var s := Run(c, steps);
    hide Run, Scorable, ScoreNow, Times;
    if p in s.peerStats {
      assert s.peerStats[p].topics.Keys <= c.params.topics.Keys by { assert GoodPeer(c.params, s.peerStats[p]); }
      MostNotNegative(c.params);
      hide Inv, AcceptedParams, TopicMostTerm;
      SumWithin(s.peerStats[p].topics.Keys, c.params.topics.Keys, TopicMostTerm(c.params));
    }
  }

  // ----- credits over whole runs

  lemma {:induction false} RunOnSplit(c: Config, s: State, steps: seq<Timed>, i: nat)
    requires Scorable(c.params) && i <= |steps|
    ensures RunOn(c, s, steps) == RunOn(c, RunOn(c, s, steps[..i]), steps[i..])
  {
    var n := |steps| - 1;
    hide Next, Scorable;
    if i == |steps| {
      assert steps[..i] == steps;
    } else {
      RunOnSplit(c, s, steps[..n], i);
      assert steps[..n][..i] == steps[..i] && steps[i..][..|steps[i..]| - 1] == steps[..n][i..];
    }
  }

  /** Whatever else the run holds, as long as the record lives no peer is credited twice for the message. */
  lemma CreditedOnceInRun(c: Config, s: State, steps: seq<Timed>, msg: MsgId, i: nat, j: nat, p: PeerId,
                          first: RecordEvent, second: RecordEvent)
    requires Scorable(c.params) && AliveThroughout(c, s, steps, msg) && i < j < |steps|
    requires RecordEventOf(msg, steps[i].e, steps[i].now) == [first]
    requires msg in RunOn(c, s, steps[..i]).records && p in Credits(RunOn(c, s, steps[..i]).records[msg], first)
    ensures msg in RunOn(c, s, steps[..j]).records && p !in Credits(RunOn(c, s, steps[..j]).records[msg], second)
  {
    hide *;
    var next, rest := RunOn(c, s, steps[..i + 1]), steps[i + 1..j];
    AliveBetween(c, s, steps, msg, i + 1, j);
    CreditIsLast(c, s, steps, msg, i, p, first);
    RecordLifetime(c, next, rest, msg);
    StaysUncredited(next.records[msg], RecordEvents(msg, rest), p);
    CreditedOnce(RunOn(c, next, rest).records[msg], second, p);
  }

  lemma AliveBetween(c: Config, s: State, steps: seq<Timed>, msg: MsgId, i: nat, j: nat)
    requires Scorable(c.params) && AliveThroughout(c, s, steps, msg) && i <= j <= |steps|
    ensures AliveThroughout(c, RunOn(c, s, steps[..i]), steps[i..j], msg)
    ensures RunOn(c, s, steps[..j]) == RunOn(c, RunOn(c, s, steps[..i]), steps[i..j])
  {
    hide RunOn, Scorable;
    var rest := steps[i..j];
    forall k | 0 <= k <= |rest| ensures RunOn(c, RunOn(c, s, steps[..i]), rest[..k]) == RunOn(c, s, steps[..i + k]) {
      RunOnSplit(c, s, steps[..i + k], i);
      assert steps[..i + k][..i] == steps[..i] && steps[..i + k][i..] == rest[..k];
    }
    assert rest[..|rest|] == rest && i + |rest| == j;
  }

  lemma CreditIsLast(c: Config, s: State, steps: seq<Timed>, msg: MsgId, i: nat, p: PeerId, first: RecordEvent)
    requires Scorable(c.params) && AliveThroughout(c, s, steps, msg) && i < |steps|
    requires RecordEventOf(msg, steps[i].e, steps[i].now) == [first]
    requires msg in RunOn(c, s, steps[..i]).records && p in Credits(RunOn(c, s, steps[..i]).records[msg], first)
    ensures msg in RunOn(c, s, steps[..i + 1]).records
    ensures CannotBeCredited(RunOn(c, s, steps[..i + 1]).records[msg], p)
  {
    assert msg in RunOn(c, s, steps[..i + 1]).records;
    assert steps[..i + 1][..i] == steps[..i];
    hide *;
    LastRecord(c, s, steps[..i + 1], msg);
    CreditedOnce(RunOn(c, s, steps[..i]).records[msg], first, p);
  }
}
