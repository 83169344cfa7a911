/** The score of a peer: a weighted sum of capped rewards and squared penalties. */
module ComputeScore {
  import opened Types
  import opened Products
  import opened ScoreParams

  datatype TopicStats = TopicStats(
    inMesh: bool, graftTime: int, meshTime: int, firstMessageDeliveries: real, meshMessageDeliveries: real,
    meshMessageDeliveriesActive: bool, meshFailurePenalty: real, invalidMessageDeliveries: real)

  datatype PeerStats = PeerStats(
    connected: bool, expire: int, topics: map<Topic, TopicStats>, knownIPs: set<IP>, behaviourPenalty: real)

  // ----- sums over sets

  ghost function Sum<K>(xs: set<K>, f: K -> real): real {
    if xs == {} then 0.0 else var x :| x in xs; f(x) + Sum(xs - {x}, f)
  }

  /** A sum does not depend on the order of its terms. */
  lemma {:induction false} SumTakeOut<K>(xs: set<K>, f: K -> real, y: K)
    requires y in xs
    ensures Sum(xs, f) == f(y) + Sum(xs - {y}, f)
  {
    var x :| x in xs && Sum(xs, f) == f(x) + Sum(xs - {x}, f);
    if x != y {
      SumTakeOut(xs - {x}, f, y);
      SumTakeOut(xs - {y}, f, x);
      assert xs - {x} - {y} == xs - {y} - {x};
    }
  }

  lemma {:induction false} SumBound<K>(xs: set<K>, f: K -> real, g: K -> real)
    requires forall x :: x in xs ==> f(x) <= g(x)
    ensures Sum(xs, f) <= Sum(xs, g)
  {
    if xs != {} {
      var x :| x in xs;
      SumTakeOut(xs, f, x);
      SumTakeOut(xs, g, x);
      SumBound(xs - {x}, f, g);
    }
  }

  lemma {:induction false} SumNotPositive<K>(xs: set<K>, f: K -> real)
    requires forall x :: x in xs ==> f(x) <= 0.0
    ensures Sum(xs, f) <= 0.0
  {
    if xs != {} {
      var x :| x in xs;
      SumTakeOut(xs, f, x);
      SumNotPositive(xs - {x}, f);
    }
  }

  lemma {:induction false} SumWithin<K>(xs: set<K>, ys: set<K>, f: K -> real)
    requires xs <= ys && forall y :: y in ys ==> f(y) >= 0.0
    ensures Sum(xs, f) <= Sum(ys, f)
  {
    if ys != {} {
      var y :| y in ys;
      SumTakeOut(ys, f, y);
      if y in xs {
        SumTakeOut(xs, f, y);
      } else {
        assert xs - {y} == xs;
      }
      SumWithin(xs - {y}, ys - {y}, f);
    }
  }

  // ----- what the score is

  function Capped(x: real, cap: real): real { if x > cap then cap else x }

  function Square(x: real): (r: real)
    ensures r >= 0.0
  {
    x * x
  }

  /** Reward for the time in the mesh. */
  function P1(p: TopicParams, s: TopicStats): real
    requires p.timeInMeshQuantum != 0.0
  {
    if s.inMesh then Capped(s.meshTime as real / p.timeInMeshQuantum, p.timeInMeshCap) else 0.0
  }

  /** Reward for first deliveries. */
  function P2(p: TopicParams, s: TopicStats): real { Capped(s.firstMessageDeliveries, p.firstMessageDeliveriesCap) }

  /** Penalty for delivering too little while in the mesh. */
  function P3(p: TopicParams, s: TopicStats): real {
    if s.meshMessageDeliveriesActive && s.meshMessageDeliveries < p.meshMessageDeliveriesThreshold
    then Square(p.meshMessageDeliveriesThreshold - s.meshMessageDeliveries) else 0.0
  }

  function TopicScore(p: TopicParams, s: TopicStats): real
    requires p.timeInMeshQuantum != 0.0
  {
    Times(Times(P1(p, s), p.timeInMeshWeight) + Times(P2(p, s), p.firstMessageDeliveriesWeight)
             + Times(P3(p, s), p.meshMessageDeliveriesWeight)
             + Times(s.meshFailurePenalty, p.meshFailurePenaltyWeight)
             + Times(Square(s.invalidMessageDeliveries), p.invalidMessageDeliveriesWeight), p.topicWeight)
  }

  /** No division by zero: what parameter validation guarantees of every scored topic. */
  ghost predicate Scorable(params: Params) {
    forall t :: t in params.topics ==> params.topics[t].timeInMeshQuantum != 0.0
  }

  /** The contribution of a topic; unscored topics contribute nothing. */
  ghost function TopicTerm(params: Params, stats: PeerStats): Topic -> real
    requires Scorable(params)
  {
    t => if t in stats.topics && t in params.topics then TopicScore(params.topics[t], stats.topics[t]) else 0.0
  }

  function PeersAt(peerIPs: map<IP, set<PeerId>>, ip: IP): nat { if ip in peerIPs then |peerIPs[ip]| else 0 }

  /** Penalty for an address shared by too many peers. */
  function P6(params: Params, peerIPs: map<IP, set<PeerId>>, ip: IP): real {
    var n := PeersAt(peerIPs, ip) as real;
    if ip !in params.ipColocationFactorWhitelist && n > params.ipColocationFactorThreshold
    then Square(n - params.ipColocationFactorThreshold) else 0.0
  }

  ghost function IpTerm(params: Params, peerIPs: map<IP, set<PeerId>>): IP -> real {
    ip => Times(P6(params, peerIPs, ip), params.ipColocationFactorWeight)
  }

  function P7(params: Params, stats: PeerStats): real {
    if stats.behaviourPenalty > params.behaviourPenaltyThreshold
    then Square(stats.behaviourPenalty - params.behaviourPenaltyThreshold) else 0.0
  }

  /** The topics' share, cut at the cap if there is one. */
  ghost function TopicsShare(params: Params, stats: PeerStats): real
    requires Scorable(params)
  {
    var sum := Sum(stats.topics.Keys, TopicTerm(params, stats));
    if params.topicScoreCap > 0.0 then Capped(sum, params.topicScoreCap) else sum
  }

  ghost function ScoreOf(peer: PeerId, stats: PeerStats, params: Params, peerIPs: map<IP, set<PeerId>>): real
    requires Scorable(params)
  {
    TopicsShare(params, stats)
    + Times(params.appSpecificScore(peer), params.appSpecificWeight)
    + Sum(stats.knownIPs, IpTerm(params, peerIPs))
    + Times(P7(params, stats), params.behaviourPenaltyWeight)
  }

  // ----- the loops that compute it

  method Compute(peer: PeerId, pstats: PeerStats, params: Params, peerIPs: map<IP, set<PeerId>>) returns (score: real)
    requires Scorable(params)
    ensures score == ScoreOf(peer, pstats, params, peerIPs)
  {
    hide TopicTerm, IpTerm, P7, Sum, Scorable;
    score := AddTopics(pstats, params);
    if params.topicScoreCap > 0.0 && score > params.topicScoreCap {
      score := params.topicScoreCap;
    }
    assert score == TopicsShare(params, pstats);
    hide TopicsShare;
    var p5 := params.appSpecificScore(peer);
    score := score + p5 * params.appSpecificWeight;
    hide Times;
    score := AddIPs(score, pstats, params, peerIPs);
    score := AddBehaviour(score, pstats, params);
  }

  method AddBehaviour(before: real, pstats: PeerStats, params: Params) returns (score: real)
    ensures score == before + Times(P7(params, pstats), params.behaviourPenaltyWeight)
  {
    score := before;
    if pstats.behaviourPenalty > params.behaviourPenaltyThreshold {
      var excess := pstats.behaviourPenalty - params.behaviourPenaltyThreshold;
      var p7 := excess * excess;
      score := score + p7 * params.behaviourPenaltyWeight;
    }
  }

  method AddTopics(pstats: PeerStats, params: Params) returns (score: real)
    requires Scorable(params)
    ensures score == Sum(pstats.topics.Keys, TopicTerm(params, pstats))
  {
    score := 0.0;
    var todo := pstats.topics.Keys;
    ghost var term := TopicTerm(params, pstats);
    while todo != {}
      invariant todo <= pstats.topics.Keys
      invariant score + Sum(todo, term) == Sum(pstats.topics.Keys, term)
      decreases todo
    {
      var topic :| topic in todo;
      SumTakeOut(todo, term, topic);
      todo := todo - {topic};
      if topic in params.topics {
        var added := ScoreTopic(params.topics[topic], pstats.topics[topic]);
        score := score + added;
      }
    }
  }

  method ScoreTopic(topicParams: TopicParams, tstats: TopicStats) returns (added: real)
    requires topicParams.timeInMeshQuantum != 0.0
    ensures added == TopicScore(topicParams, tstats)
  {
    var topicScore := 0.0;
    if tstats.inMesh {
      var p1 := tstats.meshTime as real / topicParams.timeInMeshQuantum;
      if p1 > topicParams.timeInMeshCap {
        p1 := topicParams.timeInMeshCap;
      }
      topicScore := topicScore + p1 * topicParams.timeInMeshWeight;
    }
    var p2 := tstats.firstMessageDeliveries;
    if p2 > topicParams.firstMessageDeliveriesCap {
      p2 := topicParams.firstMessageDeliveriesCap;
    }
    topicScore := topicScore + p2 * topicParams.firstMessageDeliveriesWeight;
    if tstats.meshMessageDeliveriesActive && tstats.meshMessageDeliveries < topicParams.meshMessageDeliveriesThreshold {
      var deficit := topicParams.meshMessageDeliveriesThreshold - tstats.meshMessageDeliveries;
      var p3 := deficit * deficit;
      topicScore := topicScore + p3 * topicParams.meshMessageDeliveriesWeight;
    }
    var p3b := tstats.meshFailurePenalty;
    topicScore := topicScore + p3b * topicParams.meshFailurePenaltyWeight;
    var p4 := tstats.invalidMessageDeliveries * tstats.invalidMessageDeliveries;
    topicScore := topicScore + p4 * topicParams.invalidMessageDeliveriesWeight;
    added := topicScore * topicParams.topicWeight;
  }

  method AddIPs(before: real, pstats: PeerStats, params: Params, peerIPs: map<IP, set<PeerId>>) returns (score: real)
    ensures score == before + Sum(pstats.knownIPs, IpTerm(params, peerIPs))
  {
    hide P6, Times;
    score := before;
    var todo := pstats.knownIPs;
    ghost var term := IpTerm(params, peerIPs);
    while todo != {}
      invariant score + Sum(todo, term) == before + Sum(pstats.knownIPs, term)
      decreases todo
    {
      var ip :| ip in todo;
      SumTakeOut(todo, term, ip);
      todo := todo - {ip};
      score := AddIP(score, params, peerIPs, ip);
    }
  }

  method AddIP(before: real, params: Params, peerIPs: map<IP, set<PeerId>>, ip: IP) returns (score: real)
    ensures score == before + Times(P6(params, peerIPs, ip), params.ipColocationFactorWeight)
  {
    score := before;
    if ip !in params.ipColocationFactorWhitelist {
      var numPeersInIP := if ip in peerIPs then |peerIPs[ip]| else 0;
      if numPeersInIP as real > params.ipColocationFactorThreshold {
        var surplus := numPeersInIP as real - params.ipColocationFactorThreshold;
        var p6 := surplus * surplus;
        score := score + p6 * params.ipColocationFactorWeight;
      }
    }
  }

  // ----- how high it can get

  /** The most a topic can contribute. */
  function TopicMost(p: TopicParams): real {
    Times(Times(p.timeInMeshCap, p.timeInMeshWeight)
             + Times(p.firstMessageDeliveriesCap, p.firstMessageDeliveriesWeight), p.topicWeight)
  }

  ghost function TopicMostTerm(params: Params): Topic -> real {
    t => if t in params.topics then TopicMost(params.topics[t]) else 0.0
  }

  /** What validation says about the weights and the caps they make matter. */
  lemma TopicWeights(p: TopicParams)
    requires ValidateTopicScoreParams(p).Accepted?
    ensures p.timeInMeshQuantum != 0.0 && p.topicWeight >= 0.0
    ensures p.timeInMeshWeight == 0.0 || (p.timeInMeshWeight > 0.0 && p.timeInMeshCap > 0.0)
    ensures p.firstMessageDeliveriesWeight >= 0.0
    ensures p.meshMessageDeliveriesWeight <= 0.0 && p.meshFailurePenaltyWeight <= 0.0
    ensures p.invalidMessageDeliveriesWeight <= 0.0
  {
  }

  lemma TimeRewardCapped(p: TopicParams, s: TopicStats)
    requires p.timeInMeshQuantum != 0.0
    requires p.timeInMeshWeight == 0.0 || (p.timeInMeshWeight > 0.0 && p.timeInMeshCap > 0.0)
    ensures Times(P1(p, s), p.timeInMeshWeight) <= Times(p.timeInMeshCap, p.timeInMeshWeight)
  {
    if p.timeInMeshWeight != 0.0 {
      assert P1(p, s) <= p.timeInMeshCap;
      hide P1, Times;
      TimesMono(P1(p, s), p.timeInMeshCap, p.timeInMeshWeight);
    }
  }

  lemma MostNotNegative(params: Params)
    requires AcceptedParams(params)
    ensures forall t :: TopicMostTerm(params)(t) >= 0.0
  {
    forall t | t in params.topics ensures TopicMost(params.topics[t]) >= 0.0 {
      MostOfTopic(params.topics[t]);
    }
  }

  lemma MostOfTopic(p: TopicParams)
    requires ValidateTopicScoreParams(p).Accepted?
    ensures TopicMost(p) >= 0.0
  {
    TopicWeights(p);
    assert p.firstMessageDeliveriesWeight != 0.0 ==> p.firstMessageDeliveriesCap > 0.0;
    hide ValidateTopicScoreParams, Times;
    RewardNotNegative(p.timeInMeshCap, p.timeInMeshWeight);
    RewardNotNegative(p.firstMessageDeliveriesCap, p.firstMessageDeliveriesWeight);
    var most := Times(p.timeInMeshCap, p.timeInMeshWeight)
                + Times(p.firstMessageDeliveriesCap, p.firstMessageDeliveriesWeight);
    TimesMono(0.0, most, p.topicWeight);
    TimesUnit(p.topicWeight);
  }

  lemma RewardNotNegative(cap: real, weight: real)
    requires weight >= 0.0 && (weight != 0.0 ==> cap > 0.0)
    ensures Times(cap, weight) >= 0.0
  {
    hide Times;
    TimesUnit(cap);
    TimesUnit(weight);
    if weight != 0.0 {
      TimesMono(0.0, cap, weight);
    }
  }

  /** Penalties only take away, and the two rewards are capped. */
  lemma TopicScoreBounded(p: TopicParams, s: TopicStats)
    requires ValidateTopicScoreParams(p).Accepted? && s.meshFailurePenalty >= 0.0
    ensures p.timeInMeshQuantum != 0.0 && TopicScore(p, s) <= TopicMost(p)
  {
    TopicWeights(p);
    hide ValidateTopicScoreParams;
    TimeRewardCapped(p, s);
    hide P1;
    assert P2(p, s) <= p.firstMessageDeliveriesCap;
    assert P3(p, s) >= 0.0;
    hide P2, P3, Square;
    TimesMono(P2(p, s), p.firstMessageDeliveriesCap, p.firstMessageDeliveriesWeight);
    TimesNotPositive(P3(p, s), p.meshMessageDeliveriesWeight);
    TimesNotPositive(s.meshFailurePenalty, p.meshFailurePenaltyWeight);
    TimesNotPositive(Square(s.invalidMessageDeliveries), p.invalidMessageDeliveriesWeight);
    hide Times;
    var sum := Times(P1(p, s), p.timeInMeshWeight) + Times(P2(p, s), p.firstMessageDeliveriesWeight)
               + Times(P3(p, s), p.meshMessageDeliveriesWeight)
               + Times(s.meshFailurePenalty, p.meshFailurePenaltyWeight)
               + Times(Square(s.invalidMessageDeliveries), p.invalidMessageDeliveriesWeight);
    var most := Times(p.timeInMeshCap, p.timeInMeshWeight)
                + Times(p.firstMessageDeliveriesCap, p.firstMessageDeliveriesWeight);
    TimesMono(sum, most, p.topicWeight);
  }

  lemma AcceptedIsScorable(params: Params)
    requires AcceptedParams(params)
    ensures Scorable(params)
  {
    forall t | t in params.topics ensures params.topics[t].timeInMeshQuantum != 0.0 {
      TopicWeights(params.topics[t]);
    }
  }

  /** Mesh failure counters never go below zero: kept by every scoring event (see PeerScore). */
  ghost predicate NoNegativeFailures(stats: PeerStats) {
    forall t :: t in stats.topics ==> stats.topics[t].meshFailurePenalty >= 0.0
  }

  lemma TopicsBounded(stats: PeerStats, params: Params)
    requires AcceptedParams(params) && Scorable(params) && NoNegativeFailures(stats)
    ensures TopicsShare(params, stats) <= Sum(stats.topics.Keys, TopicMostTerm(params))
    ensures params.topicScoreCap > 0.0 ==> TopicsShare(params, stats) <= params.topicScoreCap
  {
    var f, g := TopicTerm(params, stats), TopicMostTerm(params);
    forall t | t in stats.topics.Keys ensures f(t) <= g(t) {
      hide ValidateTopicScoreParams, TopicScore, TopicMost;
      if t in params.topics {
        TopicScoreBounded(params.topics[t], stats.topics[t]);
      }
    }
    SumBound(stats.topics.Keys, f, g);
  }

  lemma IpsOnlyPenalise(stats: PeerStats, params: Params, peerIPs: map<IP, set<PeerId>>)
    requires params.ipColocationFactorWeight <= 0.0
    ensures Sum(stats.knownIPs, IpTerm(params, peerIPs)) <= 0.0
  {
    var h := IpTerm(params, peerIPs);
    forall ip | ip in stats.knownIPs ensures h(ip) <= 0.0 {
      assert P6(params, peerIPs, ip) >= 0.0;
      hide P6, Times;
      TimesNotPositive(P6(params, peerIPs, ip), params.ipColocationFactorWeight);
    }
    SumNotPositive(stats.knownIPs, h);
  }

  /** What a peer can reach by good behaviour: the cap, or every scored topic's best, plus the application's share. */
  lemma ScoreBounded(peer: PeerId, stats: PeerStats, params: Params, peerIPs: map<IP, set<PeerId>>)
    requires AcceptedParams(params) && NoNegativeFailures(stats)
    ensures Scorable(params)
    ensures var app := Times(params.appSpecificScore(peer), params.appSpecificWeight);
            && (params.topicScoreCap > 0.0 ==> ScoreOf(peer, stats, params, peerIPs) <= params.topicScoreCap + app)
            && ScoreOf(peer, stats, params, peerIPs) <= Sum(stats.topics.Keys, TopicMostTerm(params)) + app
  {
    AcceptedIsScorable(params);
    TopicsBounded(stats, params);
    IpsOnlyPenalise(stats, params, peerIPs);
    assert P7(params, stats) >= 0.0;
    hide TopicsShare, Sum, P7, TopicMostTerm, IpTerm, Times;
    TimesNotPositive(P7(params, stats), params.behaviourPenaltyWeight);
  }

  /**
   * The bound is tight, cap or no cap: a peer long in every scored mesh, with enough deliveries and no penalty,
   * reaches it.
   */
  lemma {:induction false} BoundReached(peer: PeerId, stats: PeerStats, params: Params, peerIPs: map<IP, set<PeerId>>)
    requires AcceptedParams(params) && stats.knownIPs == {}
    requires stats.behaviourPenalty <= params.behaviourPenaltyThreshold
    requires forall t :: t in stats.topics && t in params.topics ==> AtBest(params.topics[t], stats.topics[t])
    ensures Scorable(params)
    ensures var sum, cap := Sum(stats.topics.Keys, TopicMostTerm(params)), params.topicScoreCap;
            ScoreOf(peer, stats, params, peerIPs) == (if cap > 0.0 then Capped(sum, cap) else sum)
              + Times(params.appSpecificScore(peer), params.appSpecificWeight)
  {
    AcceptedIsScorable(params);
    var f, g := TopicTerm(params, stats), TopicMostTerm(params);
    forall t | t in stats.topics.Keys ensures f(t) == g(t) {
      hide TopicScore, TopicMost, ValidateTopicScoreParams;
      if t in params.topics {
        TopicAtBest(params.topics[t], stats.topics[t]);
      }
    }
    SumBound(stats.topics.Keys, f, g);
    SumBound(stats.topics.Keys, g, f);
    assert P7(params, stats) == 0.0;
    assert Sum(stats.knownIPs, IpTerm(params, peerIPs)) == 0.0;
    TimesUnit(params.behaviourPenaltyWeight);
    hide P7, TopicTerm, TopicMostTerm, IpTerm, Sum, Times, Capped, Scorable;
  }

  ghost predicate AtBest(p: TopicParams, s: TopicStats) {
    && p.timeInMeshQuantum != 0.0
    && s.inMesh && s.meshTime as real / p.timeInMeshQuantum >= p.timeInMeshCap
    && s.firstMessageDeliveries >= p.firstMessageDeliveriesCap
    && !s.meshMessageDeliveriesActive && s.meshFailurePenalty == 0.0 && s.invalidMessageDeliveries == 0.0
  }

  lemma TopicAtBest(p: TopicParams, s: TopicStats)
    requires AtBest(p, s)
    ensures TopicScore(p, s) == TopicMost(p)
  {
    assert P1(p, s) == p.timeInMeshCap;
    assert P2(p, s) == p.firstMessageDeliveriesCap;
    assert P3(p, s) == 0.0;
    assert Square(s.invalidMessageDeliveries) == 0.0;
    hide P1, P2, P3, Square;
  }
}
