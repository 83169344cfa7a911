/** What first deliveries add up to: every call counts, whether its message is new or not. */
module DeliveryCounts {
  import opened Types
  import opened Seqs
  import opened ScoreParams
  import opened ComputeScore
  import opened Deliveries
  import opened PeerScoreModel
  import opened PeerScoreTheorems

  predicate IsDelivery(e: Event, from: PeerId, topic: Topic) {
    e.DeliverMessage? && e.from == from && e.topic == topic
  }

  function DeliveriesIn(steps: seq<Timed>, from: PeerId, topic: Topic): nat {
    if steps == [] then 0
    else
      DeliveriesIn(steps[..|steps| - 1], from, topic)
      + if IsDelivery(steps[|steps| - 1].e, from, topic) then 1 else 0
  }

  /** The events that change the counter other than by a delivery. */
  predicate Interrupts(e: Event, from: PeerId) {
    e.Refresh? || (e.PeerAdded? && e.id == from) || (e.PeerRemoved? && e.id == from)
  }

  ghost predicate Uninterrupted(steps: seq<Timed>, from: PeerId) {
    forall k :: 0 <= k < |steps| ==> !Interrupts(steps[k].e, from)
  }

  function CountUpTo(start: real, n: nat, cap: real): real {
    if n == 0 then start else Least(cap, start + n as real)
  }

  /**
   * Between two decays the counter of first deliveries is what it was plus the number of delivery events, up to the
   * cap: how many messages they were about, and what happened to these before, makes no difference.
   */
  lemma {:induction false} FirstDeliveriesCounted(c: Config, s: State, steps: seq<Timed>, from: PeerId, topic: Topic)
    requires Scorable(c.params) && from in s.peerStats && topic in c.params.topics && Uninterrupted(steps, from)
    ensures from in RunOn(c, s, steps).peerStats
    ensures TopicOf(RunOn(c, s, steps).peerStats[from], topic).firstMessageDeliveries
         == CountUpTo(TopicOf(s.peerStats[from], topic).firstMessageDeliveries, DeliveriesIn(steps, from, topic),
                      c.params.topics[topic].firstMessageDeliveriesCap)
  {
    if steps != [] {
      var before, last := steps[..|steps| - 1], steps[|steps| - 1];
      FirstDeliveriesCounted(c, s, before, from, topic);
      var was := RunOn(c, s, before);
      if IsDelivery(last.e, from, topic) {
        DeliveryCounts(c, was, from, last.e.msg, topic, last.now);
      } else {
        OthersDoNotCount(c, was, last.e, last.now, from, topic);
      }
      hide Next, Scorable, Interrupts, TopicOf, IsDelivery;
    }
  }

  /** One delivery event: both counters, whatever the message's record says. */
  lemma DeliveryCounts(c: Config, s: State, from: PeerId, msg: MsgId, topic: Topic, now: int)
    requires Scorable(c.params) && from in s.peerStats && topic in c.params.topics
    ensures var s' := Next(c, s, DeliverMessage(from, msg, topic), now);
            && from in s'.peerStats
            && TopicOf(s'.peerStats[from], topic)
               == MarkedTopic(c.params.topics[topic], TopicOf(s.peerStats[from], topic), First)
  {
    hide Scorable, Ensured, MarkedTopic;
  }

  lemma OthersDoNotCount(c: Config, s: State, e: Event, now: int, from: PeerId, topic: Topic)
    requires Scorable(c.params) && from in s.peerStats && topic in c.params.topics
    requires !Interrupts(e, from) && !IsDelivery(e, from, topic)
    ensures var s' := Next(c, s, e, now);
            && from in s'.peerStats
            && TopicOf(s'.peerStats[from], topic).firstMessageDeliveries
               == TopicOf(s.peerStats[from], topic).firstMessageDeliveries
  {
    hide Scorable, Unlist, ScoreRead, ScoreNow, MarkAll, AfterMessage, DepartedPeer;
    match e
    case Grafted(id, t) => OtherMarks(c.params, s.peerStats, {id}, t, Mark.Graft(now), from, topic);
    case Pruned(id, t) => OtherMarks(c.params, s.peerStats, {id}, t, Mark.Prune, from, topic);
    case DeliverMessage(id, msg, t) =>
      var counted := s.(peerStats := MarkAll(c.params, s.peerStats, {id}, t, First));
      OtherMarks(c.params, s.peerStats, {id}, t, First, from, topic);
      MessagesCopyOrBlame(c.params, counted, msg, t, Deliver(id, now), now, from, topic);
    case RejectMessage(id, msg, t, reason) =>
      OtherMarks(c.params, s.peerStats, {id}, t, Blame(1), from, topic);
      if reason != Error {
        MessagesCopyOrBlame(c.params, s, msg, t, RecordEvent.Rejected(id, reason), now, from, topic);
      }
    case RejectInvalid(id, t) => OtherMarks(c.params, s.peerStats, {id}, t, Blame(1), from, topic);
    case DuplicateMessage(id, msg, t) =>
      MessagesCopyOrBlame(c.params, s, msg, t, Duplicate(id), now, from, topic);
    case _ => SameTopics(c, s, e, now, from);
  }

  lemma SameTopics(c: Config, s: State, e: Event, now: int, from: PeerId)
    requires Scorable(c.params) && from in s.peerStats && !Interrupts(e, from)
    requires !(e.Grafted? || e.Pruned? || e.DeliverMessage? || e.RejectMessage? || e.RejectInvalid?)
    requires !e.DuplicateMessage?
    ensures from in Next(c, s, e, now).peerStats
    ensures Next(c, s, e, now).peerStats[from].topics == s.peerStats[from].topics
  {
    hide Scorable, Ensured, Unlist, ScoreRead, ScoreNow, DepartedPeer;
  }

  ghost predicate SameFirst(stats: Stats, stats': Stats, from: PeerId, topic: Topic)
    requires from in stats
  {
    && from in stats'
    && TopicOf(stats'[from], topic).firstMessageDeliveries == TopicOf(stats[from], topic).firstMessageDeliveries
  }

  lemma OtherMarks(params: Params, stats: Stats, who: set<PeerId>, t: Topic, m: Mark, from: PeerId, topic: Topic)
    requires from in stats && (m.First? ==> !(from in who && t == topic))
    ensures SameFirst(stats, MarkAll(params, stats, who, t, m), from, topic)
  {
    hide P3;
  }

  lemma MessagesCopyOrBlame(params: Params, s: State, msg: MsgId, t: Topic, e: RecordEvent, now: int, from: PeerId,
                            topic: Topic)
    requires from in s.peerStats
    ensures SameFirst(s.peerStats, AfterMessage(params, s, msg, t, e, now).peerStats, from, topic)
  {
    var r := Ensured(s.records, msg, now)[msg];
    hide MessageStats, Ensured, After, TopicOf;
    MessageMarks(params, s.peerStats, r, t, e, now, from, topic);
  }

  lemma MessageMarks(params: Params, stats: Stats, r: Record, t: Topic, e: RecordEvent, now: int, from: PeerId,
                     topic: Topic)
    requires from in stats
    ensures SameFirst(stats, MessageStats(params, stats, r, t, e, now), from, topic)
  {
    var delay := if e.Duplicate? then Some(now - r.validated) else None;
    hide MarkAll, BlameAll, Credits, Blames, TopicOf;
    OtherMarks(params, stats, Credits(r, e), t, Copy(delay), from, topic);
    OtherBlames(params, MarkAll(params, stats, Credits(r, e), t, Copy(delay)), Blames(r, e), t, from, topic);
  }

  lemma OtherBlames(params: Params, stats: Stats, blames: multiset<PeerId>, t: Topic, from: PeerId, topic: Topic)
    requires from in stats
    ensures SameFirst(stats, BlameAll(params, stats, blames, t), from, topic)
  {
  }

  /** Deliveries alone: the mesh counter grows along with the other as long as the peer is in the mesh. */
  lemma {:induction false} RepeatedDeliveries(c: Config, s: State, steps: seq<Timed>, from: PeerId, topic: Topic)
    requires Scorable(c.params) && from in s.peerStats && topic in c.params.topics
    requires forall k :: 0 <= k < |steps| ==> IsDelivery(steps[k].e, from, topic)
    ensures from in RunOn(c, s, steps).peerStats
    ensures var p, n := c.params.topics[topic], |steps|;
            var t := TopicOf(s.peerStats[from], topic);
            TopicOf(RunOn(c, s, steps).peerStats[from], topic)
            == t.(firstMessageDeliveries := CountUpTo(t.firstMessageDeliveries, n, p.firstMessageDeliveriesCap),
                  meshMessageDeliveries := if t.inMesh
                                           then CountUpTo(t.meshMessageDeliveries, n, p.meshMessageDeliveriesCap)
                                           else t.meshMessageDeliveries)
  {
    if steps != [] {
      var before, last := steps[..|steps| - 1], steps[|steps| - 1];
      RepeatedDeliveries(c, s, before, from, topic);
      DeliveryCounts(c, RunOn(c, s, before), from, last.e.msg, topic, last.now);
      hide Next, Scorable, TopicOf;
    }
  }

  /** Delivering a message again changes nothing at all exactly when the counters are at their caps by then. */
  lemma SecondDeliveryHarmlessIff(c: Config, s: State, from: PeerId, msg: MsgId, topic: Topic, now: int, later: int)
    requires Scorable(c.params) && from in s.peerStats
    ensures var once := Next(c, s, DeliverMessage(from, msg, topic), now);
            Next(c, once, DeliverMessage(from, msg, topic), later) == once <==>
              topic in c.params.topics ==>
                var p, t := c.params.topics[topic], TopicOf(s.peerStats[from], topic);
                && t.firstMessageDeliveries + 1.0 >= p.firstMessageDeliveriesCap
                && (t.inMesh ==> t.meshMessageDeliveries + 1.0 >= p.meshMessageDeliveriesCap)
  {
    var once := Next(c, s, DeliverMessage(from, msg, topic), now);
    DecidedIsMarkedOnly(c, s, from, msg, topic, now, later);
    StaysInStats(c, s, from, msg, topic, now);
    if topic in c.params.topics {
      DeliveryCounts(c, s, from, msg, topic, now);
      ScoredTopicKept(c, s, from, msg, topic, now);
      MarkFixed(c.params, once.peerStats, from, topic);
    } else {
      UnscoredUnmarked(c.params, once.peerStats, from, topic);
    }
    hide Next, Scorable, TopicOf, MarkAll;
  }

  lemma StaysInStats(c: Config, s: State, from: PeerId, msg: MsgId, topic: Topic, now: int)
    requires Scorable(c.params) && from in s.peerStats
    ensures from in Next(c, s, DeliverMessage(from, msg, topic), now).peerStats
  {
    hide Scorable, Ensured, MarkedPeer;
  }

  lemma ScoredTopicKept(c: Config, s: State, from: PeerId, msg: MsgId, topic: Topic, now: int)
    requires Scorable(c.params) && from in s.peerStats && topic in c.params.topics
    ensures var s' := Next(c, s, DeliverMessage(from, msg, topic), now);
            from in s'.peerStats && topic in s'.peerStats[from].topics
  {
    hide Scorable, Ensured, MarkedTopic;
  }

  /** Once a message has its verdict, delivering it again only marks the deliverer. */
  lemma DecidedIsMarkedOnly(c: Config, s: State, from: PeerId, msg: MsgId, topic: Topic, now: int, later: int)
    requires Scorable(c.params)
    ensures var once := Next(c, s, DeliverMessage(from, msg, topic), now);
            Next(c, once, DeliverMessage(from, msg, topic), later)
            == once.(peerStats := MarkAll(c.params, once.peerStats, {from}, topic, First))
  {
    var once := Next(c, s, DeliverMessage(from, msg, topic), now);
    assert msg in once.records && once.records[msg].status != Unknown;
    assert Ensured(once.records, msg, later) == once.records;
    var r := once.records[msg];
    assert After(r, Deliver(from, later)) == r && once.records[msg := r] == once.records;
    hide Next, Ensured, MarkedPeer;
    assert Credits(r, Deliver(from, later)) == {} && Blames(r, Deliver(from, later)) == multiset{};
    var stats := MarkAll(c.params, once.peerStats, {from}, topic, First);
    NobodyTouched(c.params, stats, topic);
    SecondIs(c, once, from, msg, topic, later);
  }

  lemma NobodyTouched(params: Params, stats: Stats, topic: Topic)
    ensures BlameAll(params, MarkAll(params, stats, {}, topic, Copy(None)), multiset{}, topic) == stats
  {
    hide MarkedPeer;
  }

  lemma SecondIs(c: Config, s: State, from: PeerId, msg: MsgId, topic: Topic, now: int)
    requires Scorable(c.params)
    ensures Next(c, s, DeliverMessage(from, msg, topic), now)
         == AfterMessage(c.params, s.(peerStats := MarkAll(c.params, s.peerStats, {from}, topic, First)), msg, topic,
                         Deliver(from, now), now)
  {
    hide AfterMessage, MarkAll, Scorable;
  }

  lemma MarkFixed(params: Params, stats: Stats, p: PeerId, topic: Topic)
    requires p in stats && topic in params.topics && topic in stats[p].topics
    ensures MarkAll(params, stats, {p}, topic, First) == stats <==>
              MarkedTopic(params.topics[topic], stats[p].topics[topic], First) == stats[p].topics[topic]
  {
    var t := stats[p].topics[topic];
    var t' := MarkedTopic(params.topics[topic], t, First);
    hide MarkedTopic;
    var all := MarkAll(params, stats, {p}, topic, First);
    assert all[p].topics == stats[p].topics[topic := t'];
    if t' == t {
      assert stats[p].topics[topic := t] == stats[p].topics;
      assert all == stats;
    } else {
      assert all[p].topics[topic] == t';
    }
  }

  lemma UnscoredUnmarked(params: Params, stats: Stats, p: PeerId, topic: Topic)
    requires topic !in params.topics
    ensures MarkAll(params, stats, {p}, topic, First) == stats
  {
  }

  /** A message accepted by an asynchronous validator is delivered by the report and again by its forwarding. */
  function AcceptedRun(from: PeerId, msg: MsgId, topic: Topic, now: int): seq<Timed> {
    [Timed(PeerAdded(from), now), Timed(ValidateMessage(msg), now), Timed(DeliverMessage(from, msg, topic), now),
     Timed(DeliverMessage(from, msg, topic), now)]
  }

  /** So one accepted message counts as two first deliveries. */
  lemma AcceptedCountsTwice(c: Config, from: PeerId, msg: MsgId, topic: Topic, now: int)
    requires Scorable(c.params) && topic in c.params.topics
    ensures var s := Run(c, AcceptedRun(from, msg, topic, now));
            from in s.peerStats && TopicOf(s.peerStats[from], topic).firstMessageDeliveries
                                   == Least(c.params.topics[topic].firstMessageDeliveriesCap, 2.0)
  {
    var steps := AcceptedRun(from, msg, topic, now);
    var rest, s := steps[1..], Next(c, INITIAL, PeerAdded(from), now);
    assert from in s.peerStats && TopicOf(s.peerStats[from], topic).firstMessageDeliveries == 0.0;
    TwoDeliveries(rest, from, msg, topic, now);
    hide Next, Scorable, TopicOf;
    RunOnSplit(c, INITIAL, steps, 1);
    assert steps[..1] == [Timed(PeerAdded(from), now)];
    OneStep(c, INITIAL, PeerAdded(from), now);
    FirstDeliveriesCounted(c, s, rest, from, topic);
  }

  lemma OneStep(c: Config, s: State, e: Event, now: int)
    requires Scorable(c.params)
    ensures RunOn(c, s, [Timed(e, now)]) == Next(c, s, e, now)
  {
    hide Next, Scorable;
    assert [Timed(e, now)][..0] == [];
  }

  lemma TwoDeliveries(steps: seq<Timed>, from: PeerId, msg: MsgId, topic: Topic, now: int)
    requires steps == AcceptedRun(from, msg, topic, now)[1..]
    ensures DeliveriesIn(steps, from, topic) == 2 && Uninterrupted(steps, from)
  {
    assert |steps| == 3;
    assert steps[..2][..1] == steps[..1] && steps[..1][..0] == [];
    assert DeliveriesIn(steps[..1], from, topic) == 0;
    assert DeliveriesIn(steps[..2], from, topic) == 1;
  }
}
