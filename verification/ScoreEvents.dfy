/** What grafts, prunes, departures and refreshes do to a peer's stats, said of their fields. */
module ScoreEvents {
  import opened Types
  import opened Seqs
  import opened ScoreParams
  import opened ComputeScore
  import opened Decay
  import opened Deliveries
  import opened PeerScoreModel
  import opened PeerScoreTheorems
  import opened DeliveryCounts
  import opened MeshCredits

  /** A graft starts the time in the mesh anew and nothing else. */
  lemma GraftRule(c: Config, s: State, p: PeerId, t: Topic, now: int)
    requires Scorable(c.params) && p in s.peerStats && t in c.params.topics
    ensures var s' := Next(c, s, Event.Grafted(p, t), now);
            && p in s'.peerStats
            && TopicOf(s'.peerStats[p], t)
               == TopicOf(s.peerStats[p], t).(inMesh := true, graftTime := now, meshTime := 0,
                                              meshMessageDeliveriesActive := false)
  {
    hide Scorable, MarkAll, TopicOf;
    ThroughMark(c.params, s.peerStats, {p}, t, Mark.Graft(now), p, t);
  }

  /** A prune adds the square of the deliveries missing to the sticky penalty, and ends the time in the mesh. */
  lemma PruneRule(c: Config, s: State, p: PeerId, t: Topic, now: int)
    requires Scorable(c.params) && p in s.peerStats && t in c.params.topics
    ensures var s', was := Next(c, s, Event.Pruned(p, t), now), TopicOf(s.peerStats[p], t);
            var x := c.params.topics[t].meshMessageDeliveriesThreshold - was.meshMessageDeliveries;
            && p in s'.peerStats
            && TopicOf(s'.peerStats[p], t)
               == was.(inMesh := false, meshMessageDeliveriesActive := false,
                       meshFailurePenalty := was.meshFailurePenalty
                         + if was.meshMessageDeliveriesActive && x > 0.0 then x * x else 0.0)
  {
    hide Scorable, MarkAll, TopicOf;
    ThroughMark(c.params, s.peerStats, {p}, t, Mark.Prune, p, t);
  }

  /**
   * A peer that leaves with a score that is not positive is retained for `retainScore`: deliveries are forgotten,
   * missing ones in the mesh become sticky, the other penalties stay.
   */
  lemma DepartureRule(c: Config, s: State, p: PeerId, now: int)
    requires Scorable(c.params) && p in s.peerStats && ScoreRead(c, s, p, now) <= 0.0
    ensures var s', was := Next(c, s, PeerRemoved(p), now), s.peerStats[p];
            && p in s'.peerStats && !s'.peerStats[p].connected && s'.peerStats[p].expire == now + c.params.retainScore
            && s'.peerStats[p].behaviourPenalty == was.behaviourPenalty && s'.peerStats[p].knownIPs == was.knownIPs
            && s'.peerStats[p].topics.Keys == was.topics.Keys
            && forall t :: t in was.topics && t in c.params.topics ==>
                 s'.peerStats[p].topics[t] == Departed(c.params.topics[t], was.topics[t])
  {
    hide Scorable, ScoreRead, ScoreNow, Unlist;
  }

  function Departed(p: TopicParams, s: TopicStats): TopicStats {
    var x := p.meshMessageDeliveriesThreshold - s.meshMessageDeliveries;
    TopicStats(
      false, s.graftTime, s.meshTime, 0.0, s.meshMessageDeliveries, false,
      s.meshFailurePenalty + (if s.inMesh && s.meshMessageDeliveriesActive && x > 0.0 then x * x else 0.0),
      s.invalidMessageDeliveries)
  }

  // ----- time in the mesh

  /** The latest refresh among the steps; `None` if there is none. */
  function LastRefresh(steps: seq<Timed>): Option<int> {
    if steps == [] then None
    else if steps[|steps| - 1].e.Refresh? then Some(steps[|steps| - 1].now)
    else LastRefresh(steps[..|steps| - 1])
  }

  /** The peer is not grafted again, pruned, or gone. */
  ghost predicate Stays(steps: seq<Timed>, p: PeerId, t: Topic) {
    forall k :: 0 <= k < |steps| ==> StaysPut(steps[k].e, p, t)
  }

  predicate StaysPut(e: Event, p: PeerId, t: Topic) {
    && !(e.PeerAdded? && e.id == p) && !(e.PeerRemoved? && e.id == p)
    && e != Event.Grafted(p, t) && e != Event.Pruned(p, t)
  }

  /** Connected and in the mesh since `g`, as the refresh at `last` left it. */
  ghost predicate Staying(c: Config, stats: Stats, p: PeerId, t: Topic, g: int, last: Option<int>)
    requires t in c.params.topics
  {
    && p in stats && stats[p].connected && t in stats[p].topics
    && stats[p].topics[t].inMesh && stats[p].topics[t].graftTime == g
    && stats[p].topics[t].meshTime == (if last.Some? then last.value - g else 0)
    && (stats[p].topics[t].meshMessageDeliveriesActive <==>
          last.Some? && last.value - g > c.params.topics[t].meshMessageDeliveriesActivation)
  }

  /**
   * After a graft, a peer's time in the mesh is that of the latest refresh, and missing deliveries count as soon as a
   * refresh finds the activation time exceeded.
   */
  lemma {:induction false} MeshTimeRule(c: Config, s: State, steps: seq<Timed>, p: PeerId, t: Topic, g: int)
    requires Scorable(c.params) && t in c.params.topics && Stays(steps, p, t) && Chronological(steps)
    requires p in s.peerStats && s.peerStats[p].connected && t in s.peerStats[p].topics
    requires var was := s.peerStats[p].topics[t];
             was.inMesh && was.graftTime == g && was.meshTime == 0 && !was.meshMessageDeliveriesActive
    ensures Staying(c, RunOn(c, s, steps).peerStats, p, t, g, LastRefresh(steps))
  {
    if steps != [] {
      var before, last := steps[..|steps| - 1], steps[|steps| - 1];
      MeshTimeRule(c, s, before, p, t, g);
      RefreshedBefore(before, last.now, steps);
      assert StaysPut(last.e, p, t);
      StayNext(c, RunOn(c, s, before), last.e, last.now, p, t, g, LastRefresh(before));
      hide Next, Scorable, Staying;
    }
  }

  lemma {:induction false} RefreshedBefore(before: seq<Timed>, now: int, steps: seq<Timed>)
    requires before <= steps && Chronological(steps) && forall k :: 0 <= k < |before| ==> before[k].now <= now
    ensures LastRefresh(before).Some? ==> LastRefresh(before).value <= now
  {
    if before != [] {
      RefreshedBefore(before[..|before| - 1], now, steps);
    }
  }

  lemma StayNext(c: Config, s: State, e: Event, now: int, p: PeerId, t: Topic, g: int, last: Option<int>)
    requires Scorable(c.params) && t in c.params.topics && Staying(c, s.peerStats, p, t, g, last) && StaysPut(e, p, t)
    requires last.Some? ==> last.value <= now
    ensures Staying(c, Next(c, s, e, now).peerStats, p, t, g, if e.Refresh? then Some(now) else last)
  {
    hide Scorable, Unlist, ScoreRead, ScoreNow, MarkAll, AfterMessage, DepartedPeer, Staying;
    match e
    case Refresh => RefreshStay(c, s, now, p, t, g, last);
    case Grafted(id, u) => MarkStay(c, s.peerStats, {id}, u, Mark.Graft(now), p, t, g, last);
    case Pruned(id, u) => MarkStay(c, s.peerStats, {id}, u, Mark.Prune, p, t, g, last);
    case DeliverMessage(id, msg, u) =>
      MarkStay(c, s.peerStats, {id}, u, First, p, t, g, last);
      var counted := s.(peerStats := MarkAll(c.params, s.peerStats, {id}, u, First));
      MessageStay(c, counted, msg, u, Deliver(id, now), now, p, t, g, last);
    case RejectMessage(id, msg, u, reason) =>
      MarkStay(c, s.peerStats, {id}, u, Blame(1), p, t, g, last);
      MessageStay(c, s, msg, u, RecordEvent.Rejected(id, reason), now, p, t, g, last);
    case RejectInvalid(id, u) => MarkStay(c, s.peerStats, {id}, u, Blame(1), p, t, g, last);
    case DuplicateMessage(id, msg, u) => MessageStay(c, s, msg, u, Duplicate(id), now, p, t, g, last);
    case _ => OtherStay(c, s, e, now, p, t, g, last);
  }

  lemma RefreshStay(c: Config, s: State, now: int, p: PeerId, t: Topic, g: int, last: Option<int>)
    requires Scorable(c.params) && t in c.params.topics && Staying(c, s.peerStats, p, t, g, last)
    requires last.Some? ==> last.value <= now
    ensures Staying(c, Next(c, s, Refresh, now).peerStats, p, t, g, Some(now))
  {
    hide Scorable, Unlist, Decayed;
    assert Next(c, s, Refresh, now).peerStats == RefreshedStats(c.params, s.peerStats, now);
  }

  lemma MarkStay(c: Config, stats: Stats, who: set<PeerId>, u: Topic, m: Mark, p: PeerId, t: Topic, g: int,
                 last: Option<int>)
    requires t in c.params.topics && Staying(c, stats, p, t, g, last)
    requires m.Graft? || m.Prune? ==> !(p in who && u == t)
    ensures Staying(c, MarkAll(c.params, stats, who, u, m), p, t, g, last)
  {
    hide P3;
  }

  lemma BlameStay(c: Config, stats: Stats, blames: multiset<PeerId>, u: Topic, p: PeerId, t: Topic, g: int,
                  last: Option<int>)
    requires t in c.params.topics && Staying(c, stats, p, t, g, last)
    ensures Staying(c, BlameAll(c.params, stats, blames, u), p, t, g, last)
  {
  }

  lemma MessageStay(c: Config, s: State, msg: MsgId, u: Topic, e: RecordEvent, now: int, p: PeerId, t: Topic, g: int,
                    last: Option<int>)
    requires t in c.params.topics && Staying(c, s.peerStats, p, t, g, last)
    ensures Staying(c, AfterMessage(c.params, s, msg, u, e, now).peerStats, p, t, g, last)
  {
    var r := Ensured(s.records, msg, now)[msg];
    var delay := if e.Duplicate? then Some(now - r.validated) else None;
    var copied := MarkAll(c.params, s.peerStats, Credits(r, e), u, Copy(delay));
    assert AfterMessage(c.params, s, msg, u, e, now).peerStats == BlameAll(c.params, copied, Blames(r, e), u);
    hide MarkAll, BlameAll, Credits, Blames, Ensured, AfterMessage, Staying;
    MarkStay(c, s.peerStats, Credits(r, e), u, Copy(delay), p, t, g, last);
    BlameStay(c, copied, Blames(r, e), u, p, t, g, last);
  }

  lemma OtherStay(c: Config, s: State, e: Event, now: int, p: PeerId, t: Topic, g: int, last: Option<int>)
    requires Scorable(c.params) && t in c.params.topics && Staying(c, s.peerStats, p, t, g, last) && StaysPut(e, p, t)
    requires !(e.Refresh? || e.Grafted? || e.Pruned? || e.DeliverMessage? || e.RejectMessage? || e.RejectInvalid?)
    requires !e.DuplicateMessage?
    ensures Staying(c, Next(c, s, e, now).peerStats, p, t, g, last)
  {
    hide Scorable, Unlist, ScoreRead, ScoreNow, DepartedPeer, Ensured;
  }
}
