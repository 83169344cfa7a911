/** What each component of the score adds or costs, as products of the counters, weights and caps. */
module ScoreCharges {
  import opened Types
  import opened Seqs
  import opened Products
  import opened ScoreParams
  import opened ComputeScore

  // ----- what does not depend on topics

  /** A peer with nothing to its name has the application's share. */
  lemma BlankScore(peer: PeerId, stats: PeerStats, params: Params, peerIPs: map<IP, set<PeerId>>)
    requires Scorable(params) && stats.topics == map[] && stats.knownIPs == {} && params.topicScoreCap >= 0.0
    requires stats.behaviourPenalty <= params.behaviourPenaltyThreshold
    ensures ScoreOf(peer, stats, params, peerIPs) == params.appSpecificScore(peer) * params.appSpecificWeight
  {
    assert Sum(stats.topics.Keys, TopicTerm(params, stats)) == 0.0;
    assert Sum(stats.knownIPs, IpTerm(params, peerIPs)) == 0.0;
    assert Times(0.0, params.behaviourPenaltyWeight) == 0.0;
    hide Sum, TopicTerm, IpTerm;
  }

  /** Behaviour costs the square of what it exceeds its threshold by; below that nothing. */
  lemma BehaviourCharge(peer: PeerId, stats: PeerStats, params: Params, peerIPs: map<IP, set<PeerId>>, x: real)
    requires Scorable(params)
    ensures var threshold := params.behaviourPenaltyThreshold;
            ScoreOf(peer, stats.(behaviourPenalty := threshold + x), params, peerIPs)
            == ScoreOf(peer, stats.(behaviourPenalty := threshold), params, peerIPs)
               + if x > 0.0 then x * x * params.behaviourPenaltyWeight else 0.0
  {
    var at := stats.(behaviourPenalty := params.behaviourPenaltyThreshold);
    var over := stats.(behaviourPenalty := params.behaviourPenaltyThreshold + x);
    SameTopics(at, over, params);
    assert P7(params, over) == if x > 0.0 then x * x else 0.0;
    assert P7(params, at) == 0.0;
    assert Times(P7(params, at), params.behaviourPenaltyWeight) == 0.0;
    hide TopicsShare, Sum, IpTerm, P7;
  }

  lemma SameTopics(a: PeerStats, b: PeerStats, params: Params)
    requires Scorable(params) && a.topics == b.topics
    ensures TopicsShare(params, a) == TopicsShare(params, b)
  {
    var f, g := TopicTerm(params, a), TopicTerm(params, b);
    forall t | t in a.topics.Keys ensures f(t) == g(t) {
    }
    SameSum(a.topics.Keys, f, g);
    hide TopicTerm, Sum;
  }

  lemma SameSum<K>(xs: set<K>, f: K -> real, g: K -> real)
    requires forall x :: x in xs ==> f(x) == g(x)
    ensures Sum(xs, f) == Sum(xs, g)
  {
    SumBound(xs, f, g);
    SumBound(xs, g, f);
  }

  /**
   * An address costs the square of what the number of peers there exceeds the threshold by; a whitelisted one
   * nothing.
   */
  lemma AddressCharge(peer: PeerId, stats: PeerStats, params: Params, peerIPs: map<IP, set<PeerId>>, ip: IP)
    requires Scorable(params) && ip !in stats.knownIPs
    ensures var over := (if ip in peerIPs then |peerIPs[ip]| as real else 0.0) - params.ipColocationFactorThreshold;
            ScoreOf(peer, stats.(knownIPs := stats.knownIPs + {ip}), params, peerIPs)
            == ScoreOf(peer, stats, params, peerIPs)
               + if ip !in params.ipColocationFactorWhitelist && over > 0.0
                 then over * over * params.ipColocationFactorWeight else 0.0
  {
    var more := stats.(knownIPs := stats.knownIPs + {ip});
    SameTopics(stats, more, params);
    AddressTerm(params, peerIPs, ip);
    assert P7(params, more) == P7(params, stats);
    assert more.knownIPs - {ip} == stats.knownIPs;
    hide TopicsShare, Sum, IpTerm, P7, Times;
    SumTakeOut(more.knownIPs, IpTerm(params, peerIPs), ip);
  }

  lemma AddressTerm(params: Params, peerIPs: map<IP, set<PeerId>>, ip: IP)
    ensures var over := (if ip in peerIPs then |peerIPs[ip]| as real else 0.0) - params.ipColocationFactorThreshold;
            IpTerm(params, peerIPs)(ip) == if ip !in params.ipColocationFactorWhitelist && over > 0.0
                                           then over * over * params.ipColocationFactorWeight else 0.0
  {
  }

  // ----- topics

  /** The cap cuts what the topics give, and nothing else. */
  lemma CapRule(peer: PeerId, stats: PeerStats, params: Params, peerIPs: map<IP, set<PeerId>>)
    requires Scorable(params) && params.topicScoreCap >= 0.0
    ensures Scorable(params.(topicScoreCap := 0.0))
    ensures var free, none := params.(topicScoreCap := 0.0), stats.(topics := map[]);
            var given := ScoreOf(peer, stats, free, peerIPs) - ScoreOf(peer, none, free, peerIPs);
            ScoreOf(peer, stats, params, peerIPs)
            == ScoreOf(peer, none, params, peerIPs)
               + if params.topicScoreCap > 0.0 && given > params.topicScoreCap then params.topicScoreCap else given
  {
    var free, none := params.(topicScoreCap := 0.0), stats.(topics := map[]);
    Uncapped(stats, params, free);
    NoTopics(none, params);
    NoTopics(none, free);
    SameAddresses(stats, params, free, peerIPs);
    assert P7(params, none) == P7(params, stats) == P7(free, stats) == P7(free, none);
    hide TopicsShare, Sum, IpTerm, P7, Times;
  }

  lemma NoTopics(none: PeerStats, params: Params)
    requires Scorable(params) && none.topics == map[] && params.topicScoreCap >= 0.0
    ensures TopicsShare(params, none) == 0.0
  {
    assert Sum(none.topics.Keys, TopicTerm(params, none)) == 0.0;
  }

  lemma Uncapped(stats: PeerStats, params: Params, free: Params)
    requires Scorable(params) && Scorable(free) && free == params.(topicScoreCap := 0.0)
    ensures var all := TopicsShare(free, stats);
            TopicsShare(params, stats)
            == if params.topicScoreCap > 0.0 && all > params.topicScoreCap then params.topicScoreCap else all
  {
    var f, g := TopicTerm(params, stats), TopicTerm(free, stats);
    forall t | t in stats.topics.Keys ensures f(t) == g(t) {
    }
    SameSum(stats.topics.Keys, f, g);
    hide TopicTerm, Sum;
  }

  lemma SameAddresses(stats: PeerStats, params: Params, free: Params, peerIPs: map<IP, set<PeerId>>)
    requires free == params.(topicScoreCap := 0.0)
    ensures Sum(stats.knownIPs, IpTerm(params, peerIPs)) == Sum(stats.knownIPs, IpTerm(free, peerIPs))
  {
    var f, g := IpTerm(params, peerIPs), IpTerm(free, peerIPs);
    forall ip | ip in stats.knownIPs ensures f(ip) == g(ip) {
    }
    SameSum(stats.knownIPs, f, g);
  }

  /** Without a cap, other stats for a topic change the score by what they change the topic's own score. */
  lemma TopicShift(peer: PeerId, stats: PeerStats, params: Params, peerIPs: map<IP, set<PeerId>>, t: Topic,
                   s: TopicStats)
    requires Scorable(params) && params.topicScoreCap == 0.0 && t in stats.topics && t in params.topics
    ensures ScoreOf(peer, stats.(topics := stats.topics[t := s]), params, peerIPs)
         == ScoreOf(peer, stats, params, peerIPs)
            + TopicScore(params.topics[t], s) - TopicScore(params.topics[t], stats.topics[t])
  {
    var other := stats.(topics := stats.topics[t := s]);
    var f, g := TopicTerm(params, stats), TopicTerm(params, other);
    SumTakeOut(stats.topics.Keys, f, t);
    SumTakeOut(other.topics.Keys, g, t);
    assert other.topics.Keys == stats.topics.Keys;
    forall u | u in stats.topics.Keys - {t} ensures f(u) == g(u) {
    }
    SameSum(stats.topics.Keys - {t}, f, g);
    assert f(t) == TopicScore(params.topics[t], stats.topics[t]) && g(t) == TopicScore(params.topics[t], s);
    assert P7(params, other) == P7(params, stats);
    hide TopicTerm, TopicScore, Sum, IpTerm, P7, Times;
  }

  /** A topic that is not scored does not count. */
  lemma UnscoredTopic(peer: PeerId, stats: PeerStats, params: Params, peerIPs: map<IP, set<PeerId>>, t: Topic,
                      s: TopicStats)
    requires Scorable(params) && t !in params.topics && t !in stats.topics
    ensures ScoreOf(peer, stats.(topics := stats.topics[t := s]), params, peerIPs)
         == ScoreOf(peer, stats, params, peerIPs)
  {
    var other := stats.(topics := stats.topics[t := s]);
    var f, g := TopicTerm(params, stats), TopicTerm(params, other);
    SumTakeOut(other.topics.Keys, g, t);
    assert other.topics.Keys - {t} == stats.topics.Keys;
    forall u | u in stats.topics.Keys ensures f(u) == g(u) {
    }
    SameSum(stats.topics.Keys, f, g);
    assert g(t) == 0.0;
    assert P7(params, other) == P7(params, stats);
    hide TopicTerm, Sum, IpTerm, P7, Times;
  }

  /** A topic of which nothing is known yet adds nothing. */
  lemma BlankTopic(peer: PeerId, stats: PeerStats, params: Params, peerIPs: map<IP, set<PeerId>>, t: Topic,
                   s: TopicStats)
    requires Scorable(params) && params.topicScoreCap == 0.0 && t in params.topics && t !in stats.topics
    requires !s.inMesh && s.firstMessageDeliveries == 0.0 && params.topics[t].firstMessageDeliveriesCap >= 0.0
    requires !s.meshMessageDeliveriesActive && s.meshFailurePenalty == 0.0 && s.invalidMessageDeliveries == 0.0
    ensures ScoreOf(peer, stats.(topics := stats.topics[t := s]), params, peerIPs)
         == ScoreOf(peer, stats, params, peerIPs)
  {
    BlankTerms(params.topics[t], s);
    hide *;
    TopicAdded(peer, stats, params, peerIPs, t, s);
  }

  lemma BlankTerms(p: TopicParams, s: TopicStats)
    requires p.timeInMeshQuantum != 0.0 && p.firstMessageDeliveriesCap >= 0.0
    requires !s.inMesh && s.firstMessageDeliveries == 0.0
    requires !s.meshMessageDeliveriesActive && s.meshFailurePenalty == 0.0 && s.invalidMessageDeliveries == 0.0
    ensures TopicScore(p, s) == 0.0
  {
    assert P1(p, s) == 0.0 && P2(p, s) == 0.0 && P3(p, s) == 0.0;
    Squares(0.0);
    hide *;
    FiveTerms(p, s);
    NoneOf(p.timeInMeshWeight);
    NoneOf(p.firstMessageDeliveriesWeight);
    NoneOf(p.meshMessageDeliveriesWeight);
    NoneOf(p.meshFailurePenaltyWeight);
    NoneOf(p.invalidMessageDeliveriesWeight);
    NoneOf(p.topicWeight);
  }

  lemma NoneOf(w: real)
    ensures Times(0.0, w) == 0.0
  {
  }

  lemma TopicAdded(peer: PeerId, stats: PeerStats, params: Params, peerIPs: map<IP, set<PeerId>>, t: Topic,
                   s: TopicStats)
    requires Scorable(params) && params.topicScoreCap == 0.0 && t in params.topics && t !in stats.topics
    ensures ScoreOf(peer, stats.(topics := stats.topics[t := s]), params, peerIPs)
         == ScoreOf(peer, stats, params, peerIPs) + TopicScore(params.topics[t], s)
  {
    var other := stats.(topics := stats.topics[t := s]);
    var f, g := TopicTerm(params, stats), TopicTerm(params, other);
    SumTakeOut(other.topics.Keys, g, t);
    assert other.topics.Keys - {t} == stats.topics.Keys;
    hide TopicScore, Sum, IpTerm, Times;
    forall u | u in stats.topics.Keys ensures f(u) == g(u) {
    }
    SameSum(stats.topics.Keys, f, g);
    assert g(t) == TopicScore(params.topics[t], s);
    assert P7(params, other) == P7(params, stats);
    hide TopicTerm, P7;
  }

  /** Replacing one of a topic's terms `v * w`. */
  lemma TermShift(rest: real, v: real, v': real, w: real, k: real)
    ensures Times(rest + Times(v', w), k) - Times(rest + Times(v, w), k)
         == Times(Times(v', w), k) - Times(Times(v, w), k)
  {
    hide Times;
    TimesPlus(k, rest, Times(v, w));
    TimesPlus(k, rest, Times(v', w));
  }

  /** Setting one topic's stats to `s` or to `s'`, which agree in all terms but one: none for `s`, `v * w` for `s'`. */
  lemma OneTerm(peer: PeerId, stats: PeerStats, params: Params, peerIPs: map<IP, set<PeerId>>, t: Topic, s: TopicStats,
                s': TopicStats, rest: real, v: real, w: real)
    requires Scorable(params) && params.topicScoreCap == 0.0 && t in stats.topics && t in params.topics
    requires TopicScore(params.topics[t], s) == Times(rest + Times(0.0, w), params.topics[t].topicWeight)
    requires TopicScore(params.topics[t], s') == Times(rest + Times(v, w), params.topics[t].topicWeight)
    ensures Gain(peer, stats, params, peerIPs, t, s, s') == Times(Times(v, w), params.topics[t].topicWeight)
  {
    hide TopicScore, ScoreOf, Times, Scorable;
    TopicShift(peer, stats, params, peerIPs, t, s);
    TopicShift(peer, stats, params, peerIPs, t, s');
    TermShift(rest, 0.0, v, w, params.topics[t].topicWeight);
    NothingTimes(w, params.topics[t].topicWeight);
  }

  /** What the score gains when a topic's stats are `s'` and not `s`. */
  ghost function Gain(peer: PeerId, stats: PeerStats, params: Params, peerIPs: map<IP, set<PeerId>>, t: Topic,
                      s: TopicStats, s': TopicStats): real
    requires Scorable(params)
  {
    ScoreOf(peer, stats.(topics := stats.topics[t := s']), params, peerIPs)
    - ScoreOf(peer, stats.(topics := stats.topics[t := s]), params, peerIPs)
  }

  lemma FiveTerms(p: TopicParams, s: TopicStats)
    requires p.timeInMeshQuantum != 0.0
    ensures TopicScore(p, s)
         == Times(Times(P1(p, s), p.timeInMeshWeight) + Times(P2(p, s), p.firstMessageDeliveriesWeight)
                  + Times(P3(p, s), p.meshMessageDeliveriesWeight)
                  + Times(s.meshFailurePenalty, p.meshFailurePenaltyWeight)
                  + Times(Square(s.invalidMessageDeliveries), p.invalidMessageDeliveriesWeight), p.topicWeight)
  {
    hide P1, P2, P3, Square, Times;
  }

  lemma QuantumOf(params: Params, t: Topic)
    requires Scorable(params) && t in params.topics
    ensures params.topics[t].timeInMeshQuantum != 0.0
  {
  }

  lemma TimeTerm(p: TopicParams, s: TopicStats)
    requires p.timeInMeshQuantum != 0.0
    ensures var time := s.meshTime as real / p.timeInMeshQuantum;
            P1(p, s) == if !s.inMesh then 0.0 else if time <= p.timeInMeshCap then time else p.timeInMeshCap
  {
  }

  lemma TimeOnly(p: TopicParams, s: TopicStats, inMesh: bool)
    ensures P2(p, s.(inMesh := inMesh)) == P2(p, s) && P3(p, s.(inMesh := inMesh)) == P3(p, s)
  {
  }

  lemma FirstOnly(p: TopicParams, s: TopicStats, n: real)
    requires p.timeInMeshQuantum != 0.0
    ensures var s' := s.(firstMessageDeliveries := n);
            && P1(p, s') == P1(p, s) && P3(p, s') == P3(p, s)
            && P2(p, s') == if n <= p.firstMessageDeliveriesCap then n else p.firstMessageDeliveriesCap
  {
  }

  /** Being in the mesh earns the time spent there, in quanta and up to the cap. */
  lemma MeshTimeReward(peer: PeerId, stats: PeerStats, params: Params, peerIPs: map<IP, set<PeerId>>, t: Topic,
                       s: TopicStats)
    requires Scorable(params) && params.topicScoreCap == 0.0 && t in stats.topics && t in params.topics
    ensures var p := params.topics[t];
            var time := s.meshTime as real / p.timeInMeshQuantum;
            Gain(peer, stats, params, peerIPs, t, s.(inMesh := false), s.(inMesh := true))
            == (if time <= p.timeInMeshCap then time else p.timeInMeshCap) * p.timeInMeshWeight * p.topicWeight
  {
    QuantumOf(params, t);
    hide *;
    TimeTerm(params.topics[t], s.(inMesh := true));
    RewardFor(peer, stats, params, peerIPs, t, s, s.meshTime as real / params.topics[t].timeInMeshQuantum);
  }

  lemma RewardFor(peer: PeerId, stats: PeerStats, params: Params, peerIPs: map<IP, set<PeerId>>, t: Topic,
                  s: TopicStats, time: real)
    requires Scorable(params) && params.topicScoreCap == 0.0 && t in stats.topics && t in params.topics
    requires var p := params.topics[t];
             && p.timeInMeshQuantum != 0.0
             && P1(p, s.(inMesh := true)) == if time <= p.timeInMeshCap then time else p.timeInMeshCap
    ensures var p := params.topics[t];
            Gain(peer, stats, params, peerIPs, t, s.(inMesh := false), s.(inMesh := true))
            == (if time <= p.timeInMeshCap then time else p.timeInMeshCap) * p.timeInMeshWeight * p.topicWeight
  {
    hide *;
    var p := params.topics[t];
    TimeGain(peer, stats, params, peerIPs, t, s, if time <= p.timeInMeshCap then time else p.timeInMeshCap);
    TimesTwice(if time <= p.timeInMeshCap then time else p.timeInMeshCap, p.timeInMeshWeight, p.topicWeight);
  }

  lemma TimeGain(peer: PeerId, stats: PeerStats, params: Params, peerIPs: map<IP, set<PeerId>>, t: Topic, s: TopicStats,
                 reward: real)
    requires Scorable(params) && params.topicScoreCap == 0.0 && t in stats.topics && t in params.topics
    requires P1(params.topics[t], s.(inMesh := true)) == reward
    ensures Gain(peer, stats, params, peerIPs, t, s.(inMesh := false), s.(inMesh := true))
         == Times(Times(reward, params.topics[t].timeInMeshWeight), params.topics[t].topicWeight)
  {
    QuantumOf(params, t);
    var p, out, inside := params.topics[t], s.(inMesh := false), s.(inMesh := true);
    assert P1(p, out) == 0.0;
    hide *;
    TimeOnly(p, s, false);
    TimeOnly(p, s, true);
    FiveTerms(p, out);
    FiveTerms(p, inside);
    var rest := Times(P2(p, s), p.firstMessageDeliveriesWeight) + Times(P3(p, s), p.meshMessageDeliveriesWeight)
                + Times(s.meshFailurePenalty, p.meshFailurePenaltyWeight)
                + Times(Square(s.invalidMessageDeliveries), p.invalidMessageDeliveriesWeight);
    OneTerm(peer, stats, params, peerIPs, t, out, inside, rest, reward, p.timeInMeshWeight);
  }

  lemma NothingTimes(w: real, k: real)
    ensures Times(Times(0.0, w), k) == 0.0
  {
  }

  lemma TimesTwice(v: real, w: real, k: real)
    ensures Times(Times(v, w), k) == v * w * k
  {
  }

  /** First deliveries earn their number, up to the cap. */
  lemma FirstDeliveryReward(peer: PeerId, stats: PeerStats, params: Params, peerIPs: map<IP, set<PeerId>>, t: Topic,
                            s: TopicStats, n: real)
    requires Scorable(params) && params.topicScoreCap == 0.0 && t in stats.topics && t in params.topics
    requires n >= 0.0 && params.topics[t].firstMessageDeliveriesCap >= 0.0
    ensures var p := params.topics[t];
            Gain(peer, stats, params, peerIPs, t, s.(firstMessageDeliveries := 0.0), s.(firstMessageDeliveries := n))
            == (if n <= p.firstMessageDeliveriesCap then n else p.firstMessageDeliveriesCap)
               * p.firstMessageDeliveriesWeight * p.topicWeight
  {
    hide *;
    var p := params.topics[t];
    FirstGain(peer, stats, params, peerIPs, t, s, n);
    TimesTwice(if n <= p.firstMessageDeliveriesCap then n else p.firstMessageDeliveriesCap,
               p.firstMessageDeliveriesWeight, p.topicWeight);
  }

  lemma FirstGain(peer: PeerId, stats: PeerStats, params: Params, peerIPs: map<IP, set<PeerId>>, t: Topic,
                  s: TopicStats, n: real)
    requires Scorable(params) && params.topicScoreCap == 0.0 && t in stats.topics && t in params.topics
    requires n >= 0.0 && params.topics[t].firstMessageDeliveriesCap >= 0.0
    ensures var p := params.topics[t];
            Gain(peer, stats, params, peerIPs, t, s.(firstMessageDeliveries := 0.0), s.(firstMessageDeliveries := n))
            == Times(Times(if n <= p.firstMessageDeliveriesCap then n else p.firstMessageDeliveriesCap,
                           p.firstMessageDeliveriesWeight), p.topicWeight)
  {
    QuantumOf(params, t);
    hide *;
    var p, a, b := params.topics[t], s.(firstMessageDeliveries := 0.0), s.(firstMessageDeliveries := n);
    var reward := if n <= p.firstMessageDeliveriesCap then n else p.firstMessageDeliveriesCap;
    FirstOnly(p, s, 0.0);
    FirstOnly(p, s, n);
    FiveTerms(p, a);
    FiveTerms(p, b);
    var rest := Times(P1(p, s), p.timeInMeshWeight) + Times(P3(p, s), p.meshMessageDeliveriesWeight)
                + Times(s.meshFailurePenalty, p.meshFailurePenaltyWeight)
                + Times(Square(s.invalidMessageDeliveries), p.invalidMessageDeliveriesWeight);
    OneTerm(peer, stats, params, peerIPs, t, a, b, rest, reward, p.firstMessageDeliveriesWeight);
  }

  /** Too few deliveries in the mesh cost the square of what is missing, once they are counted at all. */
  lemma DeficitCharge(peer: PeerId, stats: PeerStats, params: Params, peerIPs: map<IP, set<PeerId>>, t: Topic,
                      s: TopicStats, x: real)
    requires Scorable(params) && params.topicScoreCap == 0.0 && t in stats.topics && t in params.topics
    ensures var p := params.topics[t];
            var enough, short := s.(meshMessageDeliveries := p.meshMessageDeliveriesThreshold),
                                 s.(meshMessageDeliveries := p.meshMessageDeliveriesThreshold - x);
            Gain(peer, stats, params, peerIPs, t, enough, short)
            == (if s.meshMessageDeliveriesActive && x > 0.0 then x * x else 0.0)
               * p.meshMessageDeliveriesWeight * p.topicWeight
  {
    hide *;
    var p := params.topics[t];
    DeficitGain(peer, stats, params, peerIPs, t, s, x);
    TimesTwice(if s.meshMessageDeliveriesActive && x > 0.0 then x * x else 0.0, p.meshMessageDeliveriesWeight,
               p.topicWeight);
  }

  lemma DeficitGain(peer: PeerId, stats: PeerStats, params: Params, peerIPs: map<IP, set<PeerId>>, t: Topic,
                    s: TopicStats, x: real)
    requires Scorable(params) && params.topicScoreCap == 0.0 && t in stats.topics && t in params.topics
    ensures var p := params.topics[t];
            var enough, short := s.(meshMessageDeliveries := p.meshMessageDeliveriesThreshold),
                                 s.(meshMessageDeliveries := p.meshMessageDeliveriesThreshold - x);
            Gain(peer, stats, params, peerIPs, t, enough, short)
            == Times(Times(if s.meshMessageDeliveriesActive && x > 0.0 then x * x else 0.0,
                           p.meshMessageDeliveriesWeight), p.topicWeight)
  {
    QuantumOf(params, t);
    hide *;
    var p := params.topics[t];
    var a, b := s.(meshMessageDeliveries := p.meshMessageDeliveriesThreshold - 0.0),
                s.(meshMessageDeliveries := p.meshMessageDeliveriesThreshold - x);
    var charge := if s.meshMessageDeliveriesActive && x > 0.0 then x * x else 0.0;
    DeficitOnly(p, s, 0.0);
    DeficitOnly(p, s, x);
    FiveTerms(p, a);
    FiveTerms(p, b);
    var rest := Times(P1(p, s), p.timeInMeshWeight) + Times(P2(p, s), p.firstMessageDeliveriesWeight)
                + Times(s.meshFailurePenalty, p.meshFailurePenaltyWeight)
                + Times(Square(s.invalidMessageDeliveries), p.invalidMessageDeliveriesWeight);
    OneTerm(peer, stats, params, peerIPs, t, a, b, rest, charge, p.meshMessageDeliveriesWeight);
  }

  /** The sticky penalty counts as it is. */
  lemma FailureCharge(peer: PeerId, stats: PeerStats, params: Params, peerIPs: map<IP, set<PeerId>>, t: Topic,
                      s: TopicStats, y: real)
    requires Scorable(params) && params.topicScoreCap == 0.0 && t in stats.topics && t in params.topics
    ensures var p := params.topics[t];
            Gain(peer, stats, params, peerIPs, t, s.(meshFailurePenalty := 0.0), s.(meshFailurePenalty := y))
            == y * p.meshFailurePenaltyWeight * p.topicWeight
  {
    hide *;
    var p := params.topics[t];
    FailureGain(peer, stats, params, peerIPs, t, s, y);
    TimesTwice(y, p.meshFailurePenaltyWeight, p.topicWeight);
  }

  lemma FailureGain(peer: PeerId, stats: PeerStats, params: Params, peerIPs: map<IP, set<PeerId>>, t: Topic,
                    s: TopicStats, y: real)
    requires Scorable(params) && params.topicScoreCap == 0.0 && t in stats.topics && t in params.topics
    ensures var p := params.topics[t];
            Gain(peer, stats, params, peerIPs, t, s.(meshFailurePenalty := 0.0), s.(meshFailurePenalty := y))
            == Times(Times(y, p.meshFailurePenaltyWeight), p.topicWeight)
  {
    QuantumOf(params, t);
    hide *;
    var p, a, b := params.topics[t], s.(meshFailurePenalty := 0.0), s.(meshFailurePenalty := y);
    SameButOne(p, a, b, s);
    FiveTerms(p, a);
    FiveTerms(p, b);
    var rest := Times(P1(p, s), p.timeInMeshWeight) + Times(P2(p, s), p.firstMessageDeliveriesWeight)
                + Times(P3(p, s), p.meshMessageDeliveriesWeight)
                + Times(Square(s.invalidMessageDeliveries), p.invalidMessageDeliveriesWeight);
    OneTerm(peer, stats, params, peerIPs, t, a, b, rest, y, p.meshFailurePenaltyWeight);
  }

  /** Invalid deliveries cost the square of their number. */
  lemma InvalidCharge(peer: PeerId, stats: PeerStats, params: Params, peerIPs: map<IP, set<PeerId>>, t: Topic,
                      s: TopicStats, n: real)
    requires Scorable(params) && params.topicScoreCap == 0.0 && t in stats.topics && t in params.topics
    ensures var p := params.topics[t];
            Gain(peer, stats, params, peerIPs, t, s.(invalidMessageDeliveries := 0.0),
                 s.(invalidMessageDeliveries := n))
            == n * n * p.invalidMessageDeliveriesWeight * p.topicWeight
  {
    hide *;
    var p := params.topics[t];
    InvalidGain(peer, stats, params, peerIPs, t, s, n);
    TimesTwice(n * n, p.invalidMessageDeliveriesWeight, p.topicWeight);
  }

  lemma InvalidGain(peer: PeerId, stats: PeerStats, params: Params, peerIPs: map<IP, set<PeerId>>, t: Topic,
                    s: TopicStats, n: real)
    requires Scorable(params) && params.topicScoreCap == 0.0 && t in stats.topics && t in params.topics
    ensures var p := params.topics[t];
            Gain(peer, stats, params, peerIPs, t, s.(invalidMessageDeliveries := 0.0),
                 s.(invalidMessageDeliveries := n))
            == Times(Times(n * n, p.invalidMessageDeliveriesWeight), p.topicWeight)
  {
    QuantumOf(params, t);
    hide *;
    var p, a, b := params.topics[t], s.(invalidMessageDeliveries := 0.0), s.(invalidMessageDeliveries := n);
    SameButOne(p, a, b, s);
    FiveTerms(p, a);
    FiveTerms(p, b);
    Squares(n);
    var rest := Times(P1(p, s), p.timeInMeshWeight) + Times(P2(p, s), p.firstMessageDeliveriesWeight)
                + Times(P3(p, s), p.meshMessageDeliveriesWeight)
                + Times(s.meshFailurePenalty, p.meshFailurePenaltyWeight);
    OneTerm(peer, stats, params, peerIPs, t, a, b, rest, n * n, p.invalidMessageDeliveriesWeight);
  }

  lemma Squares(n: real)
    ensures Square(0.0) == 0.0 && Square(n) == n * n
  {
  }

  lemma DeficitOnly(p: TopicParams, s: TopicStats, x: real)
    requires p.timeInMeshQuantum != 0.0
    ensures var s' := s.(meshMessageDeliveries := p.meshMessageDeliveriesThreshold - x);
            && P1(p, s') == P1(p, s) && P2(p, s') == P2(p, s)
            && P3(p, s') == if s.meshMessageDeliveriesActive && x > 0.0 then x * x else 0.0
  {
  }

  lemma SameButOne(p: TopicParams, a: TopicStats, b: TopicStats, s: TopicStats)
    requires p.timeInMeshQuantum != 0.0
    requires a == s.(meshFailurePenalty := a.meshFailurePenalty, invalidMessageDeliveries := a.invalidMessageDeliveries)
    requires b == s.(meshFailurePenalty := b.meshFailurePenalty, invalidMessageDeliveries := b.invalidMessageDeliveries)
    ensures P1(p, a) == P1(p, b) == P1(p, s) && P2(p, a) == P2(p, b) == P2(p, s) && P3(p, a) == P3(p, b) == P3(p, s)
  {
  }
}
