/** Whom a publication is sent to, said of the router's fields. */
module PublishRules {
  import opened Types
  import opened Seqs
  import opened RouterModel

  predicate InTopic(s: State, t: Topic, p: PeerId) { t in s.topics && p in s.topics[t] }

  predicate Speaks(s: State, p: PeerId, ps: set<Protocol>) { p in s.streams && s.streams[p] in ps }

  /** Flood publishing reaches exactly the topic's configured peers and its peers at or above the threshold. */
  lemma FloodRule(c: Config, s: State, t: Topic, score: PeerId -> real, p: PeerId)
    ensures p in FloodTargets(c, s, t, score) <==> InTopic(s, t, p) && (p in c.direct || score(p) >= c.publishThreshold)
  {
  }

  /** Whoever always gets it: the topic's configured peers, and its floodsub peers at or above the threshold. */
  ghost function Always(c: Config, s: State, t: Topic, score: PeerId -> real): set<PeerId> {
    set p | t in s.topics && p in s.topics[t]
            && (p in c.direct || (Speaks(s, p, {Floodsub}) && score(p) >= c.publishThreshold))
  }

  /** Other gossipsub peers of the topic that score well enough. */
  ghost function Others(c: Config, s: State, t: Topic, score: PeerId -> real): set<PeerId> {
    set p | t in s.topics && p in s.topics[t] && Speaks(s, p, c.multicodecs - {Floodsub}) && p !in c.direct
            && score(p) >= c.publishThreshold && !(t in s.mesh && p in s.mesh[t])
  }

  /** With mesh peers: the mesh, those who always get it, and as many others as are missing to a mesh of `D`, or all. */
  lemma MeshPublishRule(c: Config, s: State, t: Topic, score: PeerId -> real, tosend: set<PeerId>)
    requires t in s.mesh && ToMesh(c, s, t, score, tosend)
    ensures var always, others, mesh := Always(c, s, t, score), Others(c, s, t, score), s.mesh[t];
            && always + mesh <= tosend <= always + mesh + others
            && |tosend - (always + mesh)| == if |mesh| < c.params.D then Min(c.params.D - |mesh|, |others|) else 0
  {
    AlwaysIs(c, s, t, score);
    OthersAre(c, s, t, score);
    assert PeersIn(s.mesh, t) == s.mesh[t];
    var always, others := DirectAndFloodsub(c, s, t, score), ExtraPool(c, s, t, score);
    hide DirectAndFloodsub, ExtraPool, Always, Others, PeersIn, RandomPick;
    var extra :| tosend == always + (s.mesh[t] + extra)
      && if |s.mesh[t]| < c.params.D then RandomPick(others, c.params.D - |s.mesh[t]|, extra) else extra == {};
    SentParts(always, s.mesh[t], others, extra, c.params.D);
  }

  lemma SentParts(always: set<PeerId>, mesh: set<PeerId>, others: set<PeerId>, extra: set<PeerId>, D: nat)
    requires others !! mesh && others !! always
    requires if |mesh| < D then RandomPick(others, D - |mesh|, extra) else extra == {}
    ensures var tosend := always + (mesh + extra);
            && always + mesh <= tosend <= always + mesh + others
            && |tosend - (always + mesh)| == if |mesh| < D then Min(D - |mesh|, |others|) else 0
  {
    assert extra <= others;
    assert always + (mesh + extra) - (always + mesh) == extra;
  }

  lemma AlwaysIs(c: Config, s: State, t: Topic, score: PeerId -> real)
    ensures DirectAndFloodsub(c, s, t, score) == Always(c, s, t, score)
  {
  }

  lemma OthersAre(c: Config, s: State, t: Topic, score: PeerId -> real)
    ensures ExtraPool(c, s, t, score) == Others(c, s, t, score)
    ensures Others(c, s, t, score) !! PeersIn(s.mesh, t) && Others(c, s, t, score) !! Always(c, s, t, score)
  {
  }

  /** Gossipsub peers of the topic that may become its fanout. */
  ghost function MayFan(c: Config, s: State, t: Topic, score: PeerId -> real): set<PeerId> {
    set p | t in s.topics && p in s.topics[t] && Speaks(s, p, c.multicodecs) && score(p) >= c.publishThreshold
  }

  /**
   * Publishing touches nothing but fanout, and that only without flood publishing and without mesh peers, for a topic
   * somebody subscribes to: the time is noted, and a topic without fanout peers gets `D`, or all there are.
   */
  lemma FanoutPublishRule(c: Config, s: State, t: Topic, score: PeerId -> real, now: int, s': State)
    requires Step(c, s, Publish(t, score), now, s') && c.params.D > 0
    ensures s' == s.(fanout := s'.fanout, fanoutLastpub := s'.fanoutLastpub)
    ensures var to := t in s.topics && !c.floodPublish && !(t in s.mesh && s.mesh[t] != {});
            var choose, pool := to && !(t in s.fanout && s.fanout[t] != {}), MayFan(c, s, t, score);
            && s'.fanoutLastpub == (if to then s.fanoutLastpub[t := now] else s.fanoutLastpub)
            && (if choose && pool != {}
                then t in s'.fanout && s'.fanout == s.fanout[t := s'.fanout[t]] && s'.fanout[t] <= pool
                     && |s'.fanout[t]| == Min(c.params.D, |pool|)
                else s'.fanout == s.fanout)
  {
    assert Published(c, s, t, score, now, s');
    assert PublishPool(c, s, t, score) == MayFan(c, s, t, score);
    hide Step, PublishPool, MayFan, Reachable;
    if t in s.topics && !c.floodPublish && PeersIn(s.mesh, t) == {} && PeersIn(s.fanout, t) == {} {
      FanoutChosen(c, s, t, score, now, s');
    } else {
      FanoutAsItWas(c, s, t, score, now, s');
    }
  }

  lemma FanoutChosen(c: Config, s: State, t: Topic, score: PeerId -> real, now: int, s': State)
    requires Published(c, s, t, score, now, s') && c.params.D > 0
    requires t in s.topics && !c.floodPublish && PeersIn(s.mesh, t) == {} && PeersIn(s.fanout, t) == {}
    ensures s' == s.(fanout := s'.fanout, fanoutLastpub := s'.fanoutLastpub)
    ensures s'.fanoutLastpub == s.fanoutLastpub[t := now]
    ensures var pool := PublishPool(c, s, t, score);
            if pool != {}
            then t in s'.fanout && s'.fanout == s.fanout[t := s'.fanout[t]] && s'.fanout[t] <= pool
                 && |s'.fanout[t]| == Min(c.params.D, |pool|)
            else s'.fanout == s.fanout
  {
    hide PublishPool;
  }

  lemma FanoutAsItWas(c: Config, s: State, t: Topic, score: PeerId -> real, now: int, s': State)
    requires Published(c, s, t, score, now, s')
    requires !(t in s.topics && !c.floodPublish && PeersIn(s.mesh, t) == {} && PeersIn(s.fanout, t) == {})
    ensures s' == s.(fanout := s'.fanout, fanoutLastpub := s'.fanoutLastpub) && s'.fanout == s.fanout
    ensures s'.fanoutLastpub == if t in s.topics && !c.floodPublish && PeersIn(s.mesh, t) == {}
                                then s.fanoutLastpub[t := now] else s.fanoutLastpub
  {
    hide PublishPool, RandomPick;
  }
}
