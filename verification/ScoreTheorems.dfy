/** Behaving better never costs a peer score. */
module ScoreTheorems {
  import opened Types
  import opened ScoreParams
  import opened ComputeScore
  import opened Products

  /** In a topic, `b` is at least as well-behaved as `a`: longer in the mesh, more deliveries, fewer failures. */
  ghost predicate TopicBetter(a: TopicStats, b: TopicStats) {
    && a.inMesh == b.inMesh && a.meshTime <= b.meshTime
    && a.firstMessageDeliveries <= b.firstMessageDeliveries
    && a.meshMessageDeliveriesActive == b.meshMessageDeliveriesActive
    && a.meshMessageDeliveries <= b.meshMessageDeliveries
    && b.meshFailurePenalty <= a.meshFailurePenalty
    && 0.0 <= b.invalidMessageDeliveries <= a.invalidMessageDeliveries
  }

  ghost predicate Better(a: PeerStats, b: PeerStats) {
    && a.topics.Keys == b.topics.Keys && (forall t :: t in a.topics ==> TopicBetter(a.topics[t], b.topics[t]))
    && b.knownIPs <= a.knownIPs && b.behaviourPenalty <= a.behaviourPenalty
  }

  lemma SquareMono(x: real, y: real)
    requires 0.0 <= x <= y
    ensures Square(x) <= Square(y)
  {
    TimesMono(x, y, x);
    TimesMono(x, y, y);
  }

  lemma QuotientMono(x: real, y: real, q: real)
    requires x <= y && q > 0.0
    ensures x / q <= y / q
  {
  }

  lemma TimeRewardMono(p: TopicParams, a: TopicStats, b: TopicStats)
    requires ValidateTopicScoreParams(p).Accepted? && a.inMesh == b.inMesh && a.meshTime <= b.meshTime
    ensures p.timeInMeshQuantum != 0.0
    ensures Times(P1(p, a), p.timeInMeshWeight) <= Times(P1(p, b), p.timeInMeshWeight)
  {
    TopicWeights(p);
    if p.timeInMeshWeight > 0.0 {
      assert p.timeInMeshQuantum > 0.0;
      hide ValidateTopicScoreParams, Times;
      QuotientMono(a.meshTime as real, b.meshTime as real, p.timeInMeshQuantum);
      TimesMono(P1(p, a), P1(p, b), p.timeInMeshWeight);
    }
  }

  lemma DeficitMono(p: TopicParams, a: TopicStats, b: TopicStats)
    requires a.meshMessageDeliveriesActive == b.meshMessageDeliveriesActive
    requires a.meshMessageDeliveries <= b.meshMessageDeliveries
    ensures P3(p, b) <= P3(p, a)
  {
    var threshold := p.meshMessageDeliveriesThreshold;
    if b.meshMessageDeliveries < threshold {
      SquareMono(threshold - b.meshMessageDeliveries, threshold - a.meshMessageDeliveries);
    }
    hide Square;
  }

  lemma TopicScoreMono(p: TopicParams, a: TopicStats, b: TopicStats)
    requires ValidateTopicScoreParams(p).Accepted? && TopicBetter(a, b)
    ensures p.timeInMeshQuantum != 0.0 && TopicScore(p, a) <= TopicScore(p, b)
  {
    TopicWeights(p);
    TimeRewardMono(p, a, b);
    DeficitMono(p, a, b);
    SquareMono(b.invalidMessageDeliveries, a.invalidMessageDeliveries);
    assert P2(p, a) <= P2(p, b);
    hide ValidateTopicScoreParams, Times, P1, P2, P3, Square;
    TimesMono(P2(p, a), P2(p, b), p.firstMessageDeliveriesWeight);
    TimesFlips(P3(p, b), P3(p, a), p.meshMessageDeliveriesWeight);
    TimesFlips(b.meshFailurePenalty, a.meshFailurePenalty, p.meshFailurePenaltyWeight);
    TimesFlips(
      Square(b.invalidMessageDeliveries), Square(a.invalidMessageDeliveries), p.invalidMessageDeliveriesWeight);
    TimesMono(
      Times(P1(p, a), p.timeInMeshWeight) + Times(P2(p, a), p.firstMessageDeliveriesWeight)
      + Times(P3(p, a), p.meshMessageDeliveriesWeight) + Times(a.meshFailurePenalty, p.meshFailurePenaltyWeight)
      + Times(Square(a.invalidMessageDeliveries), p.invalidMessageDeliveriesWeight),
      Times(P1(p, b), p.timeInMeshWeight) + Times(P2(p, b), p.firstMessageDeliveriesWeight)
      + Times(P3(p, b), p.meshMessageDeliveriesWeight) + Times(b.meshFailurePenalty, p.meshFailurePenaltyWeight)
      + Times(Square(b.invalidMessageDeliveries), p.invalidMessageDeliveriesWeight),
      p.topicWeight);
  }

  lemma TopicsShareMono(params: Params, a: PeerStats, b: PeerStats)
    requires AcceptedParams(params) && Scorable(params) && Better(a, b)
    ensures TopicsShare(params, a) <= TopicsShare(params, b)
  {
    var f, g := TopicTerm(params, a), TopicTerm(params, b);
    forall t | t in a.topics.Keys ensures f(t) <= g(t) {
      hide ValidateTopicScoreParams, TopicScore, TopicBetter;
      if t in params.topics {
        TopicScoreMono(params.topics[t], a.topics[t], b.topics[t]);
      }
    }
    SumBound(a.topics.Keys, f, g);
  }

  /** Dropping terms that are not positive does not lower a sum. */
  lemma {:induction false} SumFewer<K>(xs: set<K>, ys: set<K>, f: K -> real)
    requires ys <= xs && forall x :: x in xs ==> f(x) <= 0.0
    ensures Sum(xs, f) <= Sum(ys, f)
  {
    if x :| x in xs && x !in ys {
      SumTakeOut(xs, f, x);
      SumFewer(xs - {x}, ys, f);
    } else {
      assert xs == ys;
    }
  }

  lemma IpsMono(params: Params, peerIPs: map<IP, set<PeerId>>, a: PeerStats, b: PeerStats)
    requires params.ipColocationFactorWeight <= 0.0 && b.knownIPs <= a.knownIPs
    ensures Sum(a.knownIPs, IpTerm(params, peerIPs)) <= Sum(b.knownIPs, IpTerm(params, peerIPs))
  {
    var h := IpTerm(params, peerIPs);
    forall ip | ip in a.knownIPs ensures h(ip) <= 0.0 {
      assert P6(params, peerIPs, ip) >= 0.0;
      hide P6, Times;
      TimesNotPositive(P6(params, peerIPs, ip), params.ipColocationFactorWeight);
    }
    SumFewer(a.knownIPs, b.knownIPs, h);
  }

  lemma BehaviourMono(params: Params, a: PeerStats, b: PeerStats)
    requires b.behaviourPenalty <= a.behaviourPenalty
    ensures P7(params, b) <= P7(params, a)
  {
    var threshold := params.behaviourPenaltyThreshold;
    if b.behaviourPenalty > threshold {
      SquareMono(b.behaviourPenalty - threshold, a.behaviourPenalty - threshold);
    }
    hide Square;
  }

  /** Under accepted parameters a peer that did better in some respects and worse in none has no lower score. */
  lemma ScoreMonotone(peer: PeerId, a: PeerStats, b: PeerStats, params: Params, peerIPs: map<IP, set<PeerId>>)
    requires AcceptedParams(params) && Better(a, b)
    ensures Scorable(params)
    ensures ScoreOf(peer, a, params, peerIPs) <= ScoreOf(peer, b, params, peerIPs)
  {
    AcceptedIsScorable(params);
    TopicsShareMono(params, a, b);
    IpsMono(params, peerIPs, a, b);
    BehaviourMono(params, a, b);
    hide TopicsShare, Sum, P7, IpTerm, Times;
    TimesFlips(P7(params, b), P7(params, a), params.behaviourPenaltyWeight);
  }
}
