/** What a heartbeat does to the scores: it reads some, and tells of the peers grafted and pruned. */
module HeartbeatScore {
  import opened Types
  import opened Seqs
  import opened ScoreParams
  import opened ComputeScore
  import opened PeerScoreModel
  import opened PeerScoreTheorems

  /** Everything happens at `now`, and nothing but reads, grafts and prunes. */
  ghost predicate HeartbeatSteps(steps: seq<Timed>, now: int) {
    forall k :: 0 <= k < |steps| ==> steps[k].now == now && IsHeartbeatEvent(steps[k].e)
  }

  predicate IsHeartbeatEvent(e: Event) { e.ReadScore? || e.Grafted? || e.Pruned? }

  /** The grafts and prunes told. */
  function Marks(steps: seq<Timed>): set<Event> {
    set k | 0 <= k < |steps| && !steps[k].e.ReadScore? :: steps[k].e
  }

  /** The peers whose scores are read. */
  function Reads(steps: seq<Timed>): set<PeerId> {
    set k | 0 <= k < |steps| && steps[k].e.ReadScore? :: steps[k].e.id
  }

  ghost predicate MarkedOnce(steps: seq<Timed>) {
    forall j, k :: 0 <= j < k < |steps| && steps[j].e == steps[k].e ==> steps[k].e.ReadScore?
  }

  /** `steps` lead from `s` to `s'`, reading the scores of `asked` and telling each of `marks` once. */
  ghost predicate Acted(c: Config, s: State, steps: seq<Timed>, now: int, marks: set<Event>, asked: set<PeerId>,
                        s': State) {
    && HeartbeatSteps(steps, now) && MarkedOnce(steps) && Marks(steps) == marks && Reads(steps) == asked
    && Scorable(c.params) && s' == RunOn(c, s, steps)
  }

  lemma NothingActed(c: Config, s: State, now: int)
    requires Scorable(c.params)
    ensures Acted(c, s, [], now, {}, {}, s)
  {
  }

  lemma OneActed(c: Config, s: State, e: Event, now: int)
    requires Scorable(c.params) && IsHeartbeatEvent(e)
    ensures Acted(c, s, [Timed(e, now)], now, if e.ReadScore? then {} else {e}, if e.ReadScore? then {e.id} else {},
                  Next(c, s, e, now))
  {
    var steps := [Timed(e, now)];
    assert steps[..0] == [] && steps[0].e == e;
    hide Next, Scorable;
    assert RunOn(c, s, steps) == Next(c, s, e, now);
  }

  /** One stretch after another. */
  lemma BothActed(c: Config, s: State, a: seq<Timed>, b: seq<Timed>, now: int, marksA: set<Event>, askedA: set<PeerId>,
                  m: State, marksB: set<Event>, askedB: set<PeerId>, s': State)
    requires Acted(c, s, a, now, marksA, askedA, m) && Acted(c, m, b, now, marksB, askedB, s') && marksA !! marksB
    ensures Acted(c, s, a + b, now, marksA + marksB, askedA + askedB, s')
  {
    JoinedSteps(a, b, now);
    RunOnSplit(c, s, a + b, |a|);
    assert (a + b)[..|a|] == a && (a + b)[|a|..] == b;
    hide RunOn, HeartbeatSteps, MarkedOnce, Marks, Reads, Scorable;
  }

  lemma JoinedSteps(a: seq<Timed>, b: seq<Timed>, now: int)
    requires HeartbeatSteps(a, now) && HeartbeatSteps(b, now) && MarkedOnce(a) && MarkedOnce(b) && Marks(a) !! Marks(b)
    ensures HeartbeatSteps(a + b, now) && MarkedOnce(a + b)
    ensures Marks(a + b) == Marks(a) + Marks(b) && Reads(a + b) == Reads(a) + Reads(b)
  {
    var all := a + b;
    assert forall k :: 0 <= k < |a| ==> all[k] == a[k];
    assert forall k :: 0 <= k < |b| ==> all[|a| + k] == b[k];
    assert forall k :: 0 <= k < |a| && !a[k].e.ReadScore? ==> a[k].e in Marks(a);
    assert forall k :: 0 <= k < |b| && !b[k].e.ReadScore? ==> b[k].e in Marks(b);
    assert Marks(all) == Marks(a) + Marks(b) by {
      forall k | 0 <= k < |a| && !a[k].e.ReadScore? ensures a[k].e in Marks(all) { assert all[k] == a[k]; }
      forall k | 0 <= k < |b| && !b[k].e.ReadScore? ensures b[k].e in Marks(all) { assert all[|a| + k] == b[k]; }
    }
    assert Reads(all) == Reads(a) + Reads(b) by {
      forall k | 0 <= k < |a| && a[k].e.ReadScore? ensures a[k].e.id in Reads(all) { assert all[k] == a[k]; }
      forall k | 0 <= k < |b| && b[k].e.ReadScore? ensures b[k].e.id in Reads(all) { assert all[|a| + k] == b[k]; }
    }
  }

  // ----- what is told topic by topic

  function GraftsTo(t: Topic, ps: seq<PeerId>): set<Event> { set p | p in ps :: Grafted(p, t) }

  function PrunesTo(t: Topic, ps: seq<PeerId>): set<Event> { set p | p in ps :: Pruned(p, t) }

  /** The marks of the topics in `ts`. */
  function GraftsIn(m: map<Topic, seq<PeerId>>, ts: set<Topic>): set<Event> {
    set t, p | t in m && p in m[t] && t in ts :: Grafted(p, t)
  }

  function PrunesIn(m: map<Topic, seq<PeerId>>, ts: set<Topic>): set<Event> {
    set t, p | t in m && p in m[t] && t in ts :: Pruned(p, t)
  }

  lemma MarksNext(m: map<Topic, seq<PeerId>>, done: set<Topic>, t: Topic)
    requires t in m && t !in done
    ensures GraftsIn(m, done + {t}) == GraftsIn(m, done) + GraftsTo(t, m[t]) && GraftsIn(m, done) !! GraftsTo(t, m[t])
    ensures PrunesIn(m, done + {t}) == PrunesIn(m, done) + PrunesTo(t, m[t]) && PrunesIn(m, done) !! PrunesTo(t, m[t])
  {
  }

  lemma MarkNext(t: Topic, ps: seq<PeerId>, k: nat)
    requires Distinct(ps) && k < |ps|
    ensures GraftsTo(t, ps[..k + 1]) == GraftsTo(t, ps[..k]) + {Grafted(ps[k], t)}
    ensures PrunesTo(t, ps[..k + 1]) == PrunesTo(t, ps[..k]) + {Pruned(ps[k], t)}
    ensures Grafted(ps[k], t) !in GraftsTo(t, ps[..k]) && Pruned(ps[k], t) !in PrunesTo(t, ps[..k])
  {
    assert ps[..k + 1] == ps[..k] + [ps[k]];
  }

  // ----- the stats afterwards

  /** A peer's stats of a topic once the peer has been grafted or pruned there, if it has. */
  function TopicAfter(p: TopicParams, t: TopicStats, id: PeerId, topic: Topic, marks: set<Event>, now: int): TopicStats
  {
    if Grafted(id, topic) in marks then MarkedTopic(p, t, Mark.Graft(now))
    else if Pruned(id, topic) in marks then MarkedTopic(p, t, Mark.Prune)
    else t
  }

  predicate MarkedIn(id: PeerId, topic: Topic, marks: set<Event>) {
    Grafted(id, topic) in marks || Pruned(id, topic) in marks
  }

  function PeerAfter(params: Params, s: PeerStats, id: PeerId, marks: set<Event>, now: int): PeerStats {
    s.(topics := map t | t in s.topics.Keys + params.topics.Keys
                         && (t in s.topics || (t in params.topics && MarkedIn(id, t, marks))) ::
         if t in params.topics then TopicAfter(params.topics[t], TopicOf(s, t), id, t, marks, now) else s.topics[t])
  }

  function StatsAfter(params: Params, stats: Stats, marks: set<Event>, now: int): Stats {
    map p | p in stats :: PeerAfter(params, stats[p], p, marks, now)
  }

  ghost predicate NotBoth(marks: set<Event>) {
    forall id, topic :: !(Grafted(id, topic) in marks && Pruned(id, topic) in marks)
  }

  /**
   * The order of reads, grafts and prunes makes no difference to the stats: each mark counts once, where it belongs.
   */
  lemma {:induction false} StatsAfterHeartbeat(c: Config, s: State, steps: seq<Timed>, now: int)
    requires Scorable(c.params) && HeartbeatSteps(steps, now) && MarkedOnce(steps) && NotBoth(Marks(steps))
    ensures RunOn(c, s, steps).peerStats == StatsAfter(c.params, s.peerStats, Marks(steps), now)
  {
    if steps == [] {
      assert Marks(steps) == {};
      hide StatsAfter;
      UnmarkedStats(c.params, s.peerStats, now);
    } else {
      var before, e := steps[..|steps| - 1], steps[|steps| - 1].e;
      LastMark(steps);
      assert HeartbeatSteps(before, now) && IsHeartbeatEvent(e);
      assert NotBoth(Marks(before));
      StatsAfterHeartbeat(c, s, before, now);
      NextStats(c, RunOn(c, s, before), e, now);
      assert RunOn(c, s, steps) == Next(c, RunOn(c, s, before), e, now);
      hide Next, RunOn, Scorable, StatsAfter, MarkAll, Marks, HeartbeatSteps, MarkedOnce;
      if e.ReadScore? {
        assert Marks(before) + {} == Marks(before);
      } else {
        MarkedOneMore(c.params, s.peerStats, Marks(before), e, now);
      }
    }
  }

  lemma ActedStats(c: Config, s: State, steps: seq<Timed>, now: int, marks: set<Event>, asked: set<PeerId>, s': State)
    requires Acted(c, s, steps, now, marks, asked, s') && NotBoth(marks)
    ensures s'.peerStats == StatsAfter(c.params, s.peerStats, marks, now)
  {
    StatsAfterHeartbeat(c, s, steps, now);
  }

  lemma LastMark(steps: seq<Timed>)
    requires steps != [] && MarkedOnce(steps)
    ensures var before, e := steps[..|steps| - 1], steps[|steps| - 1].e;
            && MarkedOnce(before) && Marks(steps) == Marks(before) + (if e.ReadScore? then {} else {e})
            && (e.ReadScore? || e !in Marks(before))
  {
    var before, e := steps[..|steps| - 1], steps[|steps| - 1].e;
    assert forall k :: 0 <= k < |before| ==> before[k] == steps[k];
    if !e.ReadScore? {
      assert e in Marks(steps);
    }
    forall k | 0 <= k < |before| && !before[k].e.ReadScore?
      ensures before[k].e in Marks(steps) && before[k].e in Marks(before)
    {
      assert steps[k] == before[k];
    }
  }

  lemma UnmarkedStats(params: Params, stats: Stats, now: int)
    ensures StatsAfter(params, stats, {}, now) == stats
  {
    forall p | p in stats ensures PeerAfter(params, stats[p], p, {}, now) == stats[p] {
      assert PeerAfter(params, stats[p], p, {}, now).topics == stats[p].topics;
    }
  }

  function MarkOf(e: Event, now: int): Mark { if e.Grafted? then Mark.Graft(now) else Mark.Prune }

  lemma NextStats(c: Config, s: State, e: Event, now: int)
    requires Scorable(c.params) && IsHeartbeatEvent(e)
    ensures Next(c, s, e, now).peerStats
         == if e.ReadScore? then s.peerStats else MarkAll(c.params, s.peerStats, {e.id}, e.topic, MarkOf(e, now))
  {
    hide Scorable, MarkAll, ScoreNow;
  }

  lemma MarkedOneMore(params: Params, stats: Stats, marks: set<Event>, e: Event, now: int)
    requires (e.Grafted? || e.Pruned?) && e !in marks && NotBoth(marks + {e})
    ensures MarkAll(params, StatsAfter(params, stats, marks, now), {e.id}, e.topic, MarkOf(e, now))
         == StatsAfter(params, stats, marks + {e}, now)
  {
    forall p | p in stats
      ensures PeerAfter(params, stats[p], p, marks + {e}, now)
           == if p == e.id then MarkedPeer(params, PeerAfter(params, stats[p], p, marks, now), e.topic, MarkOf(e, now))
              else PeerAfter(params, stats[p], p, marks, now)
    {
      if p == e.id {
        MarkedPeerOneMore(params, stats[p], marks, e, now);
      } else {
        UnmarkedPeer(params, stats[p], p, marks, e, now);
      }
    }
    hide PeerAfter, MarkedPeer, NotBoth;
  }

  lemma UnmarkedPeer(params: Params, s: PeerStats, id: PeerId, marks: set<Event>, e: Event, now: int)
    requires (e.Grafted? || e.Pruned?) && id != e.id
    ensures PeerAfter(params, s, id, marks + {e}, now) == PeerAfter(params, s, id, marks, now)
  {
    hide MarkedTopic, TopicOf;
    assert PeerAfter(params, s, id, marks + {e}, now).topics == PeerAfter(params, s, id, marks, now).topics;
  }

  lemma MarkedPeerOneMore(params: Params, s: PeerStats, marks: set<Event>, e: Event, now: int)
    requires (e.Grafted? || e.Pruned?) && e !in marks && NotBoth(marks + {e})
    ensures PeerAfter(params, s, e.id, marks + {e}, now)
         == MarkedPeer(params, PeerAfter(params, s, e.id, marks, now), e.topic, MarkOf(e, now))
  {
    hide MarkedTopic;
    var was, after := PeerAfter(params, s, e.id, marks, now), PeerAfter(params, s, e.id, marks + {e}, now);
    assert !MarkedIn(e.id, e.topic, marks);
    assert TopicOf(was, e.topic) == TopicOf(s, e.topic);
    assert after.topics == MarkedPeer(params, was, e.topic, MarkOf(e, now)).topics;
  }

  // ----- when the scores are read

  predicate MarksPeer(e: Event, p: PeerId) { !e.ReadScore? && IsHeartbeatEvent(e) && e.id == p }

  /**
   * A score may be read at any time before its own peer is grafted or pruned: what is read and told of other peers
   * makes no difference. So the table of scores of a heartbeat may be filled as it goes, or beforehand.
   */
  lemma {:induction false} ReadAnyTime(c: Config, s: State, steps: seq<Timed>, now: int, p: PeerId)
    requires Scorable(c.params) && HeartbeatSteps(steps, now)
    requires forall k :: 0 <= k < |steps| ==> !MarksPeer(steps[k].e, p)
    ensures ScoreRead(c, RunOn(c, s, steps), p, now) == ScoreRead(c, s, p, now)
  {
    if steps != [] {
      var before, last := steps[..|steps| - 1], steps[|steps| - 1];
      ReadAnyTime(c, s, before, now, p);
      assert last.now == now && IsHeartbeatEvent(last.e) && !MarksPeer(last.e, p);
      ReadUndisturbed(c, RunOn(c, s, before), last.e, now, p);
      assert RunOn(c, s, steps) == Next(c, RunOn(c, s, before), last.e, now);
      hide Next, RunOn, Scorable, ScoreRead;
    }
  }

  lemma ReadUndisturbed(c: Config, s: State, e: Event, now: int, p: PeerId)
    requires Scorable(c.params) && IsHeartbeatEvent(e) && !MarksPeer(e, p)
    ensures ScoreRead(c, Next(c, s, e, now), p, now) == ScoreRead(c, s, p, now)
  {
    hide Scorable, MarkedPeer, ScoreOf;
  }
}
