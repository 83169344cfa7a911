/** Short runs from the start that lead where one might not expect the router to go. */
module RouterWitnesses {
  import opened Types
  import opened Seqs
  import opened MeshPass
  import opened RouterModel

  /** A small overlay: `D` is 2. */
  const SMALL := Config(
    MeshParams(2, 1, 3, 1, 0, 1, -1.0, 1.0), {}, {GossipsubV11},
    60000, 10000, 10000, 1000, 60000, 60, false, 0.0, false)

  function Neutral(p: PeerId): real { 0.0 }

  /** Some run from the initial state ends in `s`, all within one millisecond. */
  ghost predicate Reached(s: State) { exists run :: EndsIn(run, s) }

  ghost predicate EndsIn(run: seq<Moment>, s: State) {
    && run != [] && IsRun(SMALL, run) && run[0].state == INITIAL
    && run[|run| - 1].state == s && run[|run| - 1].now == 0
  }

  lemma StartReached(p: PeerId)
    ensures Reached(INITIAL)
  {
    assert EndsIn([Moment(0, RemovePeer(p), INITIAL)], INITIAL);
  }

  lemma NextReached(s: State, e: Event, s': State)
    requires Reached(s) && Step(SMALL, s, e, 0, s')
    ensures Reached(s')
  {
    hide Step;
    var run :| EndsIn(run, s);
    var run' := run + [Moment(0, e, s')];
    forall k | 0 < k < |run'|
      ensures run'[k - 1].now <= run'[k].now
      ensures Step(SMALL, run'[k - 1].state, run'[k].event, run'[k].now, run'[k].state)
    {
      assert k < |run| ==> run'[k] == run[k] && run'[k - 1] == run[k - 1];
    }
    assert EndsIn(run', s');
  }

  /** The state after a peer connects, opens its stream and announces a topic. */
  function Met(s: State, p: PeerId, t: Topic): State {
    TopicAnnounced(StreamOpened(PeerAdded(s, p, true), p, GossipsubV11), p, t, true)
  }

  lemma MetReached(s: State, p: PeerId, t: Topic)
    requires Reached(s)
    ensures Reached(Met(s, p, t))
  {
    var s1 := PeerAdded(s, p, true);
    var s2 := StreamOpened(s1, p, GossipsubV11);
    hide Reached, PeerAdded, StreamOpened, TopicAnnounced;
    NextReached(s, AddPeer(p, true), s1);
    NextReached(s1, OpenStream(p, GossipsubV11), s2);
    NextReached(s2, Announce(p, t, true), TopicAnnounced(s2, p, t, true));
  }

  lemma MetFields(s: State, p: PeerId, t: Topic)
    requires p !in s.known && p !in s.streams
    ensures var s' := Met(s, p, t);
            && s'.known == s.known + {p} && s'.streams == s.streams[p := GossipsubV11]
            && s'.topics == s.topics[t := PeersIn(s.topics, t) + {p}]
            && s'.mesh == s.mesh && s'.backoff == s.backoff && s'.subscriptions == s.subscriptions
            && s'.fanout == s.fanout && s'.fanoutLastpub == s.fanoutLastpub
  {
  }

  // ----- a join beyond `D`

  /** A fanout peer, chosen when it was alone in the topic, is joined by `D` more when the topic is. */
  lemma JoinCanExceedD(t: Topic, a: PeerId, b: PeerId, d: PeerId)
    requires a != b && a != d && b != d
    ensures exists s, s' :: Reached(s) && t !in s.mesh && Step(SMALL, s, Subscribe(t, Neutral), 0, s')
              && t in s'.mesh && |s'.mesh[t]| > SMALL.params.D
  {
    hide Step, Met, Reached, Joined, Published;
    var s0 := Met(INITIAL, a, t);
    StartReached(a);
    MetReached(INITIAL, a, t);
    var s1 := s0.(fanout := map[t := {a}], fanoutLastpub := map[t := 0]);
    AlonePublished(t, a);
    PublishStep(s0, t, s1);
    NextReached(s0, Publish(t, Neutral), s1);
    var s2 := Met(s1, b, t);
    var s := Met(s2, d, t);
    MetReached(s1, b, t);
    MetReached(s2, d, t);
    var s' := s.(subscriptions := s.subscriptions + {t}, mesh := map[t := {a, b, d}], fanout := map[],
                 fanoutLastpub := map[]);
    CrowdJoined(t, a, b, d);
    SubscribeStep(s, t, s');
    assert |{a, b, d}| == 3;
  }

  lemma PublishStep(s: State, t: Topic, s': State)
    requires Published(SMALL, s, t, Neutral, 0, s')
    ensures Step(SMALL, s, Publish(t, Neutral), 0, s')
  {
    hide Published;
  }

  lemma SubscribeStep(s: State, t: Topic, s': State)
    requires Joined(SMALL, s.(subscriptions := s.subscriptions + {t}), t, Neutral, s')
    ensures Step(SMALL, s, Subscribe(t, Neutral), 0, s')
  {
    hide Joined;
  }

  lemma AlonePublished(t: Topic, a: PeerId)
    ensures var s := Met(INITIAL, a, t);
            Published(SMALL, s, t, Neutral, 0, s.(fanout := map[t := {a}], fanoutLastpub := map[t := 0]))
  {
    var s := Met(INITIAL, a, t);
    assert PublishPool(SMALL, s, t, Neutral) == {a};
    assert RandomPick({a}, 2, {a});
  }

  lemma CrowdJoined(t: Topic, a: PeerId, b: PeerId, d: PeerId)
    requires a != b && a != d && b != d
    ensures var s1 := Met(INITIAL, a, t).(fanout := map[t := {a}], fanoutLastpub := map[t := 0]);
            var s2 := Met(Met(s1, b, t), d, t);
            var s := s2.(subscriptions := s2.subscriptions + {t});
            t !in s2.mesh
            && Joined(SMALL, s, t, Neutral, s.(mesh := map[t := {a, b, d}], fanout := map[], fanoutLastpub := map[]))
  {
    hide Met, Joined;
    var s0 := Met(INITIAL, a, t);
    MetFields(INITIAL, a, t);
    var s1 := s0.(fanout := map[t := {a}], fanoutLastpub := map[t := 0]);
    MetFields(s1, b, t);
    MetFields(Met(s1, b, t), d, t);
    var s2 := Met(Met(s1, b, t), d, t);
    assert {} + {a} + {b} + {d} == {a, b, d};
    assert s2.topics == map[t := {a, b, d}];
    assert s2.streams == map[a := GossipsubV11, b := GossipsubV11, d := GossipsubV11];
    CrowdJoins(s2.(subscriptions := s2.subscriptions + {t}), t, a, b, d);
  }

  lemma CrowdJoins(s: State, t: Topic, a: PeerId, b: PeerId, d: PeerId)
    requires a != b && a != d && b != d
    requires s.mesh == map[] && s.backoff == map[] && s.fanout == map[t := {a}] && s.fanoutLastpub == map[t := 0]
    requires s.topics == map[t := {a, b, d}]
    requires s.streams == map[a := GossipsubV11, b := GossipsubV11, d := GossipsubV11]
    ensures Joined(SMALL, s, t, Neutral, s.(mesh := map[t := {a, b, d}], fanout := map[], fanoutLastpub := map[]))
  {
    CrowdChosen(s, t, a, b, d);
    hide JoinChoice;
    var s' := s.(mesh := map[t := {a, b, d}], fanout := map[], fanoutLastpub := map[]);
    assert s.fanout - {t} == map[] && s.fanoutLastpub - {t} == map[] && s.mesh[t := s'.mesh[t]] == s'.mesh;
  }

  lemma CrowdChosen(s: State, t: Topic, a: PeerId, b: PeerId, d: PeerId)
    requires a != b && a != d && b != d && s.backoff == map[] && s.fanout == map[t := {a}]
    requires s.topics == map[t := {a, b, d}]
    requires s.streams == map[a := GossipsubV11, b := GossipsubV11, d := GossipsubV11]
    ensures JoinChoice(SMALL, s, t, Neutral, {a, b, d})
  {
    assert FanoutFit(SMALL, s, t, Neutral) == {a};
    assert Reachable(SMALL, s, t) == {a, b, d};
    hide Reachable, FanoutFit;
    assert WithoutBackoff(s, t, Choosable(SMALL, s, t, Neutral, 0.0)) == {a, b, d};
    hide WithoutBackoff, Choosable;
    assert {a, b, d} - {a} == {b, d} && |{b, d}| == 2;
  }

  // ----- fanout for a joined topic

  /** A topic joined while nobody was there gets fanout peers when it is published to once somebody is. */
  lemma JoinedTopicCanHaveFanout(t: Topic, a: PeerId)
    ensures exists s, s' :: Reached(s) && Step(SMALL, s, Publish(t, Neutral), 0, s') && t in s'.mesh && t in s'.fanout
  {
    var s0 := INITIAL.(subscriptions := {t}, mesh := map[t := {}]);
    StartReached(a);
    NobodyJoined(t);
    NextReached(INITIAL, Subscribe(t, Neutral), s0);
    var s := Met(s0, a, t);
    MetReached(s0, a, t);
    var s' := s.(fanout := map[t := {a}], fanoutLastpub := map[t := 0]);
    assert PublishPool(SMALL, s, t, Neutral) == {a};
    assert RandomPick({a}, 2, {a});
    assert Published(SMALL, s, t, Neutral, 0, s');
    hide Reached, Published, Met;
  }

  lemma NobodyJoined(t: Topic)
    ensures Joined(SMALL, INITIAL.(subscriptions := INITIAL.subscriptions + {t}), t, Neutral,
                   INITIAL.(subscriptions := {t}, mesh := map[t := {}]))
  {
    var s := INITIAL.(subscriptions := INITIAL.subscriptions + {t});
    assert FanoutFit(SMALL, s, t, Neutral) == {};
    assert WithoutBackoff(s, t, Choosable(SMALL, s, t, Neutral, 0.0)) - {} == {};
    assert RandomPick({}, 2, {});
    assert JoinChoice(SMALL, s, t, Neutral, {});
    hide JoinChoice;
    assert INITIAL.subscriptions + {t} == {t};
    assert s.fanout - {t} == map[];
  }

  // ----- gossip into the mesh

  /** The state in which a peer has grafted itself to a joined topic that was published to when its mesh was empty. */
  function Crossed(t: Topic, a: PeerId, b: PeerId, d: PeerId): State {
    var s := Met(Met(INITIAL.(subscriptions := {t}, mesh := map[t := {}]), a, t), d, t);
    Met(s.(fanout := map[t := {a, d}], fanoutLastpub := map[t := 0]), b, t).(mesh := map[t := {b}])
  }

  /** A heartbeat of a reachable state that gossips to a peer of the mesh about the mesh's own topic. */
  ghost predicate GossipsInto(s: State, passes: map<Topic, Pass>, s': State, gossip: map<Topic, set<PeerId>>, t: Topic,
                              p: PeerId) {
    && Reached(s) && Step(SMALL, s, Heartbeat(Neutral, passes), 0, s')
    && GossipsTo(SMALL, s, Neutral, passes, s'.fanout, gossip)
    && t in s'.mesh && t in gossip && p in s'.mesh[t] && p in gossip[t]
  }

  /** With the fanout full, the heartbeat gossips to the one peer of the mesh. */
  lemma GossipCanEnterMesh(t: Topic, a: PeerId, b: PeerId, d: PeerId)
    requires a != b && a != d && b != d
    ensures exists s, passes, s', gossip :: GossipsInto(s, passes, s', gossip, t, b)
  {
    var s := Crossed(t, a, b, d);
    hide *;
    CrossedReached(t, a, b, d);
    CrossedFields(t, a, b, d);
    QuietGossip(s, t, a, b, d);
  }

  lemma QuietGossip(s: State, t: Topic, a: PeerId, b: PeerId, d: PeerId)
    requires a != b && a != d && b != d && Reached(s) && IsCrossed(s, t, a, b, d)
    ensures GossipsInto(s, map[t := QuietPass(s, t, a, b, d)], s.(ticks := 1), map[t := {b}], t, b)
  {
    var passes, s' := map[t := QuietPass(s, t, a, b, d)], s.(ticks := 1);
    QuietHeartbeat(s, t, a, b, d);
    HeartbeatStep(s, passes, s');
    QuietTargets(s, t, a, b, d);
    hide Reached, Step, Beaten, GossipsTo, QuietPass;
  }

  lemma HeartbeatStep(s: State, passes: map<Topic, Pass>, s': State)
    requires Beaten(SMALL, s, Neutral, passes, 0, s')
    ensures Step(SMALL, s, Heartbeat(Neutral, passes), 0, s')
  {
    hide Beaten;
  }

  lemma CrossedReached(t: Topic, a: PeerId, b: PeerId, d: PeerId)
    requires a != b && a != d && b != d
    ensures Reached(Crossed(t, a, b, d))
  {
    var s0 := INITIAL.(subscriptions := {t}, mesh := map[t := {}]);
    StartReached(a);
    NobodyJoined(t);
    hide Reached, Met, Joined, Published;
    SubscribeStep(INITIAL, t, s0);
    NextReached(INITIAL, Subscribe(t, Neutral), s0);
    MetReached(s0, a, t);
    MetReached(Met(s0, a, t), d, t);
    var s2 := Met(Met(s0, a, t), d, t);
    var s3 := s2.(fanout := map[t := {a, d}], fanoutLastpub := map[t := 0]);
    PairPublished(t, a, d);
    PublishStep(s2, t, s3);
    NextReached(s2, Publish(t, Neutral), s3);
    MetReached(s3, b, t);
    GraftedItself(t, a, b, d);
    NextReached(Met(s3, b, t), Graft(b, 0.0, [Some(t)]), Crossed(t, a, b, d));
  }

  lemma PairPublished(t: Topic, a: PeerId, d: PeerId)
    requires a != d
    ensures var s := Met(Met(INITIAL.(subscriptions := {t}, mesh := map[t := {}]), a, t), d, t);
            Published(SMALL, s, t, Neutral, 0, s.(fanout := map[t := {a, d}], fanoutLastpub := map[t := 0]))
  {
    var s0 := INITIAL.(subscriptions := {t}, mesh := map[t := {}]);
    MetFields(s0, a, t);
    MetFields(Met(s0, a, t), d, t);
    hide Met;
    var s := Met(Met(s0, a, t), d, t);
    assert PublishPool(SMALL, s, t, Neutral) == {a, d};
    assert RandomPick({a, d}, 2, {a, d});
  }

  lemma GraftedItself(t: Topic, a: PeerId, b: PeerId, d: PeerId)
    requires a != b && a != d && b != d
    ensures var s := Met(Met(INITIAL.(subscriptions := {t}, mesh := map[t := {}]), a, t), d, t);
            var s' := Met(s.(fanout := map[t := {a, d}], fanoutLastpub := map[t := 0]), b, t);
            Step(SMALL, s', Graft(b, 0.0, [Some(t)]), 0, Crossed(t, a, b, d))
  {
    var s0 := INITIAL.(subscriptions := {t}, mesh := map[t := {}]);
    var s := Met(Met(s0, a, t), d, t);
    MetFields(s0, a, t);
    MetFields(Met(s0, a, t), d, t);
    var s3 := s.(fanout := map[t := {a, d}], fanoutLastpub := map[t := 0]);
    MetFields(s3, b, t);
    GraftTaken(Met(s3, b, t), t, b);
    hide Met, GraftAll, MakePrunes;
  }

  lemma GraftTaken(s: State, t: Topic, b: PeerId)
    requires s.mesh == map[t := {}] && s.backoff == map[]
    ensures var r := GraftAll(SMALL, b, 0.0, 0, GraftEffect(s, [], false, 0), [Some(t)]);
            MakePrunes(SMALL, r.s, b, r.prune, 0) == s.(mesh := map[t := {b}])
  {
    var graft, e := [Some(t)], GraftEffect(s, [], false, 0);
    assert graft[..0] == [];
    assert AnswerTo(SMALL, s, b, 0.0, 0, t) == Accepted;
    assert s.mesh[t := {} + {b}] == map[t := {b}];
    assert GraftAll(SMALL, b, 0.0, 0, e, graft) == GraftOne(SMALL, b, 0.0, 0, e, t);
  }

  /** What the fields of that state are. */
  ghost predicate IsCrossed(s: State, t: Topic, a: PeerId, b: PeerId, d: PeerId) {
    && s.mesh == map[t := {b}] && s.backoff == map[] && s.ticks == 0
    && s.fanout == map[t := {a, d}] && s.fanoutLastpub == map[t := 0] && s.topics == map[t := {a, b, d}]
    && s.streams == map[a := GossipsubV11, b := GossipsubV11, d := GossipsubV11]
  }

  lemma CrossedFields(t: Topic, a: PeerId, b: PeerId, d: PeerId)
    requires a != b && a != d && b != d
    ensures IsCrossed(Crossed(t, a, b, d), t, a, b, d)
  {
    var s0 := INITIAL.(subscriptions := {t}, mesh := map[t := {}]);
    var s := Met(Met(s0, a, t), d, t);
    MetFields(s0, a, t);
    MetFields(Met(s0, a, t), d, t);
    var s3 := s.(fanout := map[t := {a, d}], fanoutLastpub := map[t := 0]);
    MetFields(s3, b, t);
    assert s.ticks == 0 && Met(s3, b, t).ticks == 0;
    hide Met;
    assert {} + {a} + {d} + {b} == {a, b, d};
  }

  /** The pass that finds nothing to do. */
  function QuietPass(s: State, t: Topic, a: PeerId, b: PeerId, d: PeerId): Pass {
    Pass(Inputs({b}, [a, d], {a, d}, Neutral, Outbound(s), SMALL.params, false),
         Outcome({b}, {a, d}, [], [], [], [], None))
  }

  lemma QuietHeartbeat(s: State, t: Topic, a: PeerId, b: PeerId, d: PeerId)
    requires a != b && a != d && b != d && IsCrossed(s, t, a, b, d)
    ensures Beaten(SMALL, s, Neutral, map[t := QuietPass(s, t, a, b, d)], 0, s.(ticks := 1))
  {
    var passes := map[t := QuietPass(s, t, a, b, d)];
    assert s.ticks == 0 && QuietPass(s, t, a, b, d).outcome.pruned == [];
    hide *;
    QuietMeshes(s, t, a, b, d);
    QuietFanout(s, t, a, b, d);
    QuietBackoffs(s, passes);
    QuietlyBeaten(s, passes);
  }

  lemma QuietBackoffs(s: State, passes: map<Topic, Pass>)
    requires forall t :: t in passes ==> passes[t].outcome.pruned == []
    ensures PrunesBacked(s.backoff, passes, SMALL.pruneBackoff, s.backoff)
  {
  }

  lemma QuietFanout(s: State, t: Topic, a: PeerId, b: PeerId, d: PeerId)
    requires a != d && IsCrossed(s, t, a, b, d)
    ensures FanoutMaintained(SMALL, s, Neutral, 0, s.fanout)
    ensures s.fanoutLastpub - FanoutExpired(SMALL, s, 0) == s.fanoutLastpub
  {
    FullFanout(s, t, a, b, d);
    hide FanoutKept;
    assert FanoutExpired(SMALL, s, 0) == {};
  }

  lemma QuietlyBeaten(s: State, passes: map<Topic, Pass>)
    requires s.ticks == 0 && MeshesMaintained(SMALL, s.(ticks := 1), Neutral, passes, s.mesh)
    requires PrunesBacked(s.backoff, passes, SMALL.pruneBackoff, s.backoff)
    requires FanoutMaintained(SMALL, s, Neutral, 0, s.fanout)
    requires s.fanoutLastpub - FanoutExpired(SMALL, s, 0) == s.fanoutLastpub
    ensures Beaten(SMALL, s, Neutral, passes, 0, s.(ticks := 1))
  {
    hide MeshesMaintained, PrunesBacked, FanoutMaintained, FanoutExpired;
    assert ClearBackoff(SMALL, s.backoff, 1, 0) == s.backoff;
  }

  lemma QuietMeshes(s: State, t: Topic, a: PeerId, b: PeerId, d: PeerId)
    requires a != b && a != d && b != d && IsCrossed(s, t, a, b, d)
    ensures MeshesMaintained(SMALL, s.(ticks := 1), Neutral, map[t := QuietPass(s, t, a, b, d)], s.mesh)
  {
    var p := QuietPass(s, t, a, b, d);
    QuietStarts(s.(ticks := 1), t, a, b, d);
    QuietMaintained(p.inputs, p.outcome, a, b, d);
    hide PassStarts, Maintained;
  }

  lemma QuietTargets(s: State, t: Topic, a: PeerId, b: PeerId, d: PeerId)
    requires a != b && a != d && b != d && IsCrossed(s, t, a, b, d)
    ensures GossipsTo(SMALL, s, Neutral, map[t := QuietPass(s, t, a, b, d)], s.fanout, map[t := {b}])
  {
    assert Choosable(SMALL, s, t, Neutral, -1.0) == {a, b, d} by { ChoosableHere(s, t, a, b, d); }
    hide Choosable;
    assert {a, b, d} - {a, d} == {b};
  }

  lemma ChoosableHere(s: State, t: Topic, a: PeerId, b: PeerId, d: PeerId)
    requires IsCrossed(s, t, a, b, d)
    ensures forall bar: real :: bar <= 0.0 ==> Choosable(SMALL, s, t, Neutral, bar) == {a, b, d}
  {
    assert Reachable(SMALL, s, t) == {a, b, d};
  }

  lemma QuietStarts(s: State, t: Topic, a: PeerId, b: PeerId, d: PeerId)
    requires a != b && a != d && b != d && IsCrossed(s.(ticks := 0), t, a, b, d) && s.ticks == 1
    ensures PassStarts(SMALL, s, t, Neutral, OpportunisticTick(SMALL, 1), QuietPass(s, t, a, b, d).inputs)
  {
    assert Reachable(SMALL, s, t) == {a, b, d};
    hide Reachable;
    assert Choosable(SMALL, s, t, Neutral, 0.0) == {a, b, d};
    assert Choosable(SMALL, s, t, Neutral, -1.0) == {a, b, d};
    hide Choosable;
    assert {a, b, d} - {b} == {a, d} == ToSet([a, d]);
    assert WithoutBackoff(s, t, {a, b, d}) == {a, b, d};
  }

  lemma QuietMaintained(i: Inputs, o: Outcome, a: PeerId, b: PeerId, d: PeerId)
    requires o == Outcome({b}, {a, d}, [], [], [], [], None)
    requires i.start == {b} && i.candidates == [a, d] && i.gossip == {a, d} && i.score == Neutral
    requires i.params == SMALL.params && !i.opportunisticTick
    ensures Maintained(i, o)
  {
    assert i.Survivors() == {b} && {b} + {} == {b} && {b} - {b} == {};
    assert ToSet<PeerId>([]) == {} && GossipWorthy(i, []) == {};
    assert o.Grafted() == [];
  }

  lemma FullFanout(s: State, t: Topic, a: PeerId, b: PeerId, d: PeerId)
    requires a != d && IsCrossed(s, t, a, b, d)
    ensures FanoutKept(SMALL, s, t, Neutral, {a, d})
  {
    assert FanoutStaying(SMALL, s, t, Neutral) == {a, d};
    hide FanoutStaying, Choosable;
    assert |{a, d}| == 2;
    assert {a, d} - {a, d} == {};
  }
}
