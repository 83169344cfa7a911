/** The components of a router put together: what one heartbeat does to all of them. */
module Node {
  import opened Types
  import opened Seqs
  import opened MessageCaching
  import opened PeerScoreTracker
  import opened Router
  import opened RouterModel
  import opened HeartbeatScore
  import RI = RouterInvariants
  import HR = HeartbeatRules
  import HE = HeartbeatEffects
  import CS = ComputeScore
  import PM = PeerScoreModel
  import IH = IHave
  import ID = Idontwant
  import IP = IWantPenalties
  import IW = IWantTracing
  import MC = MessageCacheModel
  import SN = Seen
  import TC = TimeCache

  class GossipSub {
    const router: GossipRouter
    const ihave: IH.IHaveTracker
    const idontwant: ID.IdontwantTracker
    const seen: SN.SeenFilter
    const fastMsgIdCache: TC.SimpleTimeCache<MsgId, MsgId>
    const publishedMessageIds: TC.SimpleTimeCache<MsgId, ()>
    const tracer: IW.IWantTracer
    const score: PeerScore
    const mcache: MessageCache
    const prunePeers: nat

    constructor (router: GossipRouter, ihave: IH.IHaveTracker, idontwant: ID.IdontwantTracker, seen: SN.SeenFilter,
                 fastMsgIdCache: TC.SimpleTimeCache<MsgId, MsgId>, publishedMessageIds: TC.SimpleTimeCache<MsgId, ()>,
                 tracer: IW.IWantTracer, score: PeerScore, mcache: MessageCache, prunePeers: nat)
      ensures this.router == router && this.ihave == ihave && this.idontwant == idontwant && this.seen == seen
      ensures this.fastMsgIdCache == fastMsgIdCache && this.publishedMessageIds == publishedMessageIds
      ensures this.tracer == tracer && this.score == score && this.mcache == mcache && this.prunePeers == prunePeers
    {
      this.router, this.ihave, this.idontwant, this.seen := router, ihave, idontwant, seen;
      this.fastMsgIdCache, this.publishedMessageIds := fastMsgIdCache, publishedMessageIds;
      this.tracer, this.score, this.mcache, this.prunePeers := tracer, score, mcache, prunePeers;
    }

    ghost predicate Valid()
      reads this, seen, seen.seenCache, fastMsgIdCache, publishedMessageIds, tracer, score, score.deliveryRecords
      reads mcache
    {
      && seen.Valid() && tracer.Valid() && score.Valid() && mcache.Valid()
      && fastMsgIdCache.Valid() && publishedMessageIds.Valid() && CachesApart()
    }

    /** The three caches of ids are different objects. */
    ghost predicate CachesApart() {
      var a: object, b: object, c: object := seen.seenCache, fastMsgIdCache, publishedMessageIds;
      a != b && a != c && b != c
    }

    // ----- prunes

    /** Prepares a PRUNE: the score is told, the backoff recorded, and peers of the topic chosen to be offered. */
    method MakePrune(id: PeerId, topic: Topic, doPX: bool, onUnsubscribe: bool, now: int)
      returns (px: set<PeerId>, ghost steps: seq<PM.Timed>)
      requires score.Valid()
      modifies router, score`peerStats, score`scoreCache
      ensures score.Valid()
      ensures router.Now() == RouterModel.MakePrune(router.c, old(router.Now()), id, topic, onUnsubscribe, now)
      ensures var pool := ExchangePool(router.c, old(router.Now()), id, topic, doPX);
              && Acted(score.c, old(score.Now()), steps, now, {PM.Pruned(id, topic)}, pool, score.Now())
              && Offered(score.c, PM.Next(score.c, old(score.Now()), PM.Pruned(id, topic), now), now, pool, prunePeers,
                         px)
    {
      ghost var r := router.Now();
      hide score.Valid, Acted, PM.Next, RouterModel.MakePrune, ExchangePool, Offered, PM.ScoreRead;
      router.PreparePrune(id, topic, onUnsubscribe, now);
      SamePools(router.c, r, id, topic, doPX, onUnsubscribe, now);
      ghost var told := PM.Next(score.c, score.Now(), PM.Pruned(id, topic), now);
      var table;
      table, steps := PruneAndRead(id, topic, ExchangePool(router.c, router.Now(), id, topic, doPX), now);
      px := ChooseToOffer(id, topic, doPX, table, told, now);
    }

    /** Tells the score of the prune, and reads those of the pool. */
    method PruneAndRead(id: PeerId, topic: Topic, pool: set<PeerId>, now: int)
      returns (table: map<PeerId, real>, ghost steps: seq<PM.Timed>)
      requires score.Valid()
      modifies score`peerStats, score`scoreCache
      ensures score.Valid() && table.Keys == pool
      ensures Acted(score.c, old(score.Now()), steps, now, {PM.Pruned(id, topic)}, pool, score.Now())
      ensures MemoOf(score.c, PM.Next(score.c, old(score.Now()), PM.Pruned(id, topic), now), pool, now,
                     p => if p in table then table[p] else 0.0)
    {
      ghost var was := score.Now();
      hide score.Valid, Acted, PM.Next, PM.ScoreRead;
      score.Prune(id, topic, now);
      ghost var told := score.Now();
      OneActed(score.c, was, PM.Pruned(id, topic), now);
      ghost var more;
      table, more := ReadScores(score, pool, now);
      steps := [PM.Timed(PM.Pruned(id, topic), now)] + more;
      BothActed(score.c, was, [PM.Timed(PM.Pruned(id, topic), now)], more, now, {PM.Pruned(id, topic)}, {}, told, {},
                pool, score.Now());
      assert {PM.Pruned(id, topic)} + {} == {PM.Pruned(id, topic)} && {} + pool == pool;
    }

    /** A random choice among those of the pool that do not score negative. */
    method ChooseToOffer(id: PeerId, topic: Topic, doPX: bool, table: map<PeerId, real>, ghost told: PM.State, now: int)
      returns (px: set<PeerId>)
      requires CS.Scorable(score.c.params) && table.Keys == ExchangePool(router.c, router.Now(), id, topic, doPX)
      requires MemoOf(score.c, told, table.Keys, now, p => if p in table then table[p] else 0.0)
      ensures Offered(score.c, told, now, table.Keys, prunePeers, px)
    {
      hide CS.Scorable, PM.ScoreRead, Reachable;
      px := {};
      if table.Keys != {} {
        var filter := (x: PeerId) => x != id && x in table && table[x] >= 0.0;
        ghost var fit := set x | x in table.Keys && PM.ScoreRead(score.c, told, x, now) >= 0.0;
        assert Where(Reachable(router.c, router.Now(), topic), filter) == fit;
        px := router.GetRandomGossipPeers(topic, prunePeers, filter);
      }
    }

    /** Prepares the PRUNEs of a heartbeat; their backoffs are on record already. */
    method SendPrunes(toprune: map<Topic, seq<PeerId>>, noPX: set<PeerId>, now: int)
      returns (ghost steps: seq<PM.Timed>)
      requires score.Valid() && PrunesRecorded(router.c, router.Now(), toprune, now)
      requires forall t :: t in toprune ==> Distinct(toprune[t])
      modifies router, score`peerStats, score`scoreCache
      ensures score.Valid() && router.Now() == old(router.Now())
      ensures Acted(score.c, old(score.Now()), steps, now, PrunesIn(toprune, toprune.Keys),
                    ExchangeAsked(router.c, router.Now(), toprune, toprune.Keys, noPX), score.Now())
    {
      ghost var s, r := score.Now(), router.Now();
      NothingActed(score.c, s, now);
      steps := [];
      var todo := toprune.Keys;
      assert PrunesIn(toprune, {}) == {} && ExchangeAsked(router.c, r, toprune, {}, noPX) == {};
      assert toprune.Keys - todo == {};
      hide Acted, score.Valid, PrunesIn, ExchangeAsked, PrunesRecorded, Distinct;
      while todo != {}
        invariant todo <= toprune.Keys && score.Valid() && router.Now() == r
        invariant Acted(score.c, s, steps, now, PrunesIn(toprune, toprune.Keys - todo),
                        ExchangeAsked(router.c, r, toprune, toprune.Keys - todo, noPX), score.Now())
        decreases todo
      {
        var t :| t in todo;
        ghost var done, m := toprune.Keys - todo, score.Now();
        ghost var more := SendTopicPrunes(t, toprune, noPX, now);
        MarksNext(toprune, done, t);
        AskedNext(router.c, r, toprune, done, t, noPX);
        BothActed(score.c, s, steps, more, now, PrunesIn(toprune, done),
                  ExchangeAsked(router.c, r, toprune, done, noPX), m, PrunesTo(t, toprune[t]),
                  TopicAsked(router.c, r, t, toprune[t], noPX), score.Now());
        steps := steps + more;
        todo := todo - {t};
        assert toprune.Keys - todo == done + {t};
      }
      assert toprune.Keys - {} == toprune.Keys;
    }

    method SendTopicPrunes(t: Topic, toprune: map<Topic, seq<PeerId>>, noPX: set<PeerId>, now: int)
      returns (ghost steps: seq<PM.Timed>)
      requires score.Valid() && PrunesRecorded(router.c, router.Now(), toprune, now)
      requires t in toprune && Distinct(toprune[t])
      modifies router, score`peerStats, score`scoreCache
      ensures score.Valid() && router.Now() == old(router.Now())
      ensures Acted(score.c, old(score.Now()), steps, now, PrunesTo(t, toprune[t]),
                    TopicAsked(router.c, router.Now(), t, toprune[t], noPX), score.Now())
    {
      ghost var s, r := score.Now(), router.Now();
      var ps := toprune[t];
      NothingActed(score.c, s, now);
      steps := [];
      assert PrunesTo(t, ps[..0]) == {} && TopicAsked(router.c, r, t, ps[..0], noPX) == {};
      hide Acted, score.Valid, PrunesTo, TopicAsked, ExchangePool, RouterModel.MakePrune, Offered, Distinct;
      for k := 0 to |ps|
        invariant score.Valid() && router.Now() == r
        invariant Acted(score.c, s, steps, now, PrunesTo(t, ps[..k]), TopicAsked(router.c, r, t, ps[..k], noPX),
                        score.Now())
      {
        ghost var m := score.Now();
        RecordedStays(router.c, r, toprune, now, t, ps[k]);
        var doPX := router.c.doPX && ps[k] !in noPX;
        var px, more := MakePrune(ps[k], t, doPX, false, now);
        MarkNext(t, ps, k);
        TopicAskedNext(router.c, r, t, ps, k, noPX);
        BothActed(score.c, s, steps, more, now, PrunesTo(t, ps[..k]), TopicAsked(router.c, r, t, ps[..k], noPX), m,
                  {PM.Pruned(ps[k], t)}, PeerAsked(router.c, r, t, ps[k], noPX), score.Now());
        steps := steps + more;
      }
      assert ps[..|ps|] == ps;
    }

    // ----- the heartbeat

    /**
     * One heartbeat. It works with a table `memo` of the scores as they are once broken promises have been penalised.
     * What it does with the score after that are `steps`: it reads the scores it consults and those of the peers it
     * might offer for peer exchange, and tells of each peer grafted and pruned.
     */
    method Heartbeat(now: int)
      returns (peersToGossipByTopic: map<Topic, set<PeerId>>, gossip: map<Topic, seq<MsgId>>, memo: PeerId -> real,
               ghost passes: map<Topic, Pass>, ghost steps: seq<PM.Timed>)
      requires Valid() && router.c.params.Documented() && seen.clock <= now
      modifies router, ihave, idontwant, seen, seen.seenCache, fastMsgIdCache, publishedMessageIds, tracer,
        score`peerStats, score`scoreCache, mcache
      ensures Valid()
      // meshes, backoffs and fanout
      ensures Beaten(router.c, old(router.Now()), memo, passes, now, router.Now())
      ensures GossipsTo(router.c, old(router.Now()), memo, passes, router.fanout, peersToGossipByTopic)
      // scores
      ensures var s := old(score.Now()).(peerStats := IP.Penalised(old(score.peerStats), old(tracer.promises), now));
              && MemoOf(score.c, s, Consulted(router.c, old(router.Now()), now), now, memo)
              && Acted(score.c, s, steps, now, MarksOf(passes),
                       Consulted(router.c, old(router.Now()), now) + OfferedBy(router.c, router.Now(), passes, memo),
                       score.Now())
              && score.peerStats == StatsAfter(score.c.params, s.peerStats, MarksOf(passes), now)
      // budgets and records
      ensures ihave.Now() == IH.State(map[], map[])
      ensures idontwant.Now() == ID.Apply(idontwant.limits, old(idontwant.Now()), ID.Event.Heartbeat)
      ensures seen.Now() == SN.Apply(seen.seenTTL, old(seen.Now()), SN.Event.Heartbeat, now).seen
      ensures fastMsgIdCache.entries == TC.Unexpired(old(fastMsgIdCache.entries), now)
      ensures publishedMessageIds.entries == TC.Unexpired(old(publishedMessageIds.entries), now)
      ensures tracer.promises == IW.Kept(old(tracer.promises), now)
      ensures tracer.requestMsByMsg == TC.Unexpired(old(tracer.requestMsByMsg), now - tracer.requestMsByMsgExpire)
      // what is gossiped is taken from the cache before it is shifted
      ensures forall t :: t in gossip <==>
                t in peersToGossipByTopic && MC.GossipIds(old(mcache.Now()), t, mcache.gossip) != []
      ensures forall t :: t in gossip ==> gossip[t] == MC.GossipIds(old(mcache.Now()), t, mcache.gossip)
      ensures mcache.Now() == MC.Next(old(mcache.Now()), MC.Shift)
    {
      hide Beaten, GossipsTo, seen.Valid, tracer.Valid, score.Valid, ID.Apply, SN.Apply, IP.Penalised, IW.Kept, MC.Next,
        TC.Unexpired, Acted, MemoOf, Consulted, StatsAfter, MarksOf, OfferedBy, fastMsgIdCache.Valid,
        publishedMessageIds.Valid, GraftedBy, PrunedBy, GraftsIn, PrunesIn, ExchangeAsked, NegativeOf, PrunesRecorded,
        Distinct;
      Housekeeping(now);
      ghost var s, r := score.Now(), router.Now();
      var toprune;
      ghost var before;
      peersToGossipByTopic, toprune, memo, passes, before := Maintain(now);
      ghost var m := score.Now();
      gossip := mcache.GetGossipIDs(peersToGossipByTopic.Keys);
      PrunesReady(router.c, r, memo, passes, now, router.Now());
      ghost var after := SendPrunes(toprune, NegativeOf(toprune, memo), now);
      mcache.Shift();
      steps := before + after;
      HeartbeatActed(router.c, r, router.Now(), memo, passes, now, score.c, s, m, before, after, score.Now());
    }

    /** Reads the scores, maintains meshes and fanout, and tells the score of the grafts. */
    method Maintain(now: int)
      returns (peersToGossipByTopic: map<Topic, set<PeerId>>, toprune: map<Topic, seq<PeerId>>, memo: PeerId -> real,
               ghost passes: map<Topic, Pass>, ghost steps: seq<PM.Timed>)
      requires score.Valid() && router.c.params.Documented()
      modifies router, score`peerStats, score`scoreCache
      ensures score.Valid()
      ensures Beaten(router.c, old(router.Now()), memo, passes, now, router.Now())
      ensures GossipsTo(router.c, old(router.Now()), memo, passes, router.fanout, peersToGossipByTopic)
      ensures toprune == PrunedBy(passes)
      ensures MemoOf(score.c, old(score.Now()), Consulted(router.c, old(router.Now()), now), now, memo)
      ensures Acted(score.c, old(score.Now()), steps, now, GraftsIn(GraftedBy(passes), GraftedBy(passes).Keys),
                    Consulted(router.c, old(router.Now()), now), score.Now())
    {
      hide Beaten, GossipsTo, score.Valid, Acted, Consulted, GraftsIn, Distinct;
      ghost var s, r := score.Now(), router.Now();
      ghost var first, second;
      var table;
      table, first := ReadScores(score, Consulted(router.c, router.Now(), now), now);
      ghost var m := score.Now();
      memo := p => if p in table then table[p] else 0.0;
      var tograft;
      peersToGossipByTopic, tograft, toprune, passes := router.Heartbeat(memo, now);
      GraftsReady(router.c, r, memo, passes, now, router.Now());
      second := TellGrafts(score, tograft, now);
      steps := first + second;
      BothActed(score.c, s, first, second, now, {}, table.Keys, m, GraftsIn(tograft, tograft.Keys), {}, score.Now());
      assert {} + GraftsIn(tograft, tograft.Keys) == GraftsIn(tograft, tograft.Keys) && table.Keys + {} == table.Keys;
    }

    /** Fresh budgets, penalties for broken promises, and old records dropped. */
    method Housekeeping(now: int)
      requires Valid() && seen.clock <= now
      modifies ihave, idontwant, seen, seen.seenCache, fastMsgIdCache, publishedMessageIds, tracer, score`peerStats
      ensures Valid()
      ensures ihave.Now() == IH.State(map[], map[])
      ensures idontwant.Now() == ID.Apply(idontwant.limits, old(idontwant.Now()), ID.Event.Heartbeat)
      ensures seen.Now() == SN.Apply(seen.seenTTL, old(seen.Now()), SN.Event.Heartbeat, now).seen
      ensures fastMsgIdCache.entries == TC.Unexpired(old(fastMsgIdCache.entries), now)
      ensures publishedMessageIds.entries == TC.Unexpired(old(publishedMessageIds.entries), now)
      ensures tracer.promises == IW.Kept(old(tracer.promises), now)
      ensures tracer.requestMsByMsg == TC.Unexpired(old(tracer.requestMsByMsg), now - tracer.requestMsByMsgExpire)
      ensures score.Now() ==
              old(score.Now()).(peerStats := IP.Penalised(old(score.peerStats), old(tracer.promises), now))
    {
      hide seen.Valid, score.Valid, ID.Apply, SN.Apply, IP.Penalised, IW.Kept, TC.Unexpired, fastMsgIdCache.Valid,
        publishedMessageIds.Valid, tracer.Valid, mcache.Valid;
      ihave.Clear();
      IP.ApplyIwantPenalties(tracer, score, now);
      idontwant.Heartbeat();
      PruneCaches(now);
    }

    method PruneCaches(now: int)
      requires seen.Valid() && tracer.Valid() && fastMsgIdCache.Valid() && publishedMessageIds.Valid()
      requires CachesApart() && seen.clock <= now
      modifies seen, seen.seenCache, fastMsgIdCache, publishedMessageIds, tracer`requestOrder, tracer`requestMsByMsg
      ensures seen.Valid() && tracer.Valid() && fastMsgIdCache.Valid() && publishedMessageIds.Valid()
      ensures seen.Now() == SN.Apply(seen.seenTTL, old(seen.Now()), SN.Event.Heartbeat, now).seen
      ensures fastMsgIdCache.entries == TC.Unexpired(old(fastMsgIdCache.entries), now)
      ensures publishedMessageIds.entries == TC.Unexpired(old(publishedMessageIds.entries), now)
      ensures tracer.requestMsByMsg == TC.Unexpired(old(tracer.requestMsByMsg), now - tracer.requestMsByMsgExpire)
    {
      hide seen.Valid, SN.Apply, TC.Unexpired, fastMsgIdCache.Valid, publishedMessageIds.Valid, tracer.Valid, seen.Now;
      fastMsgIdCache.Prune(now);
      seen.PruneSeen(now);
      tracer.Prune(now);
      publishedMessageIds.Prune(now);
    }
  }

  // ----- the scores in a heartbeat

  /** Reads the scores of `ids` into a table. */
  method ReadScores(score: PeerScore, ids: set<PeerId>, now: int)
    returns (table: map<PeerId, real>, ghost steps: seq<PM.Timed>)
    requires score.Valid()
    modifies score`scoreCache
    ensures score.Valid() && Acted(score.c, old(score.Now()), steps, now, {}, ids, score.Now()) && table.Keys == ids
    ensures forall p :: p in ids ==> table[p] == PM.ScoreRead(score.c, old(score.Now()), p, now)
  {
    ghost var s := score.Now();
    NothingActed(score.c, s, now);
    hide Acted, score.Valid, PM.ScoreRead, PM.Next;
    table, steps := map[], [];
    var todo := ids;
    assert ids - todo == {};
    while todo != {}
      invariant todo <= ids && score.Valid() && table.Keys == ids - todo
      invariant Acted(score.c, s, steps, now, {}, ids - todo, score.Now())
      invariant forall p :: p in table ==> table[p] == PM.ScoreRead(score.c, s, p, now)
      decreases todo
    {
      var p :| p in todo;
      ghost var m, done := score.Now(), ids - todo;
      var value := score.Score(p, now);
      ReadAmongReads(score.c, s, steps, done, m, p, now);
      OneActed(score.c, m, PM.ReadScore(p), now);
      BothActed(score.c, s, steps, [PM.Timed(PM.ReadScore(p), now)], now, {}, done, m, {}, {p}, score.Now());
      table, steps := table[p := value], steps + [PM.Timed(PM.ReadScore(p), now)];
      todo := todo - {p};
      assert ids - todo == done + {p};
    }
    assert ids - {} == ids;
  }

  lemma ReadAmongReads(c: PM.Config, s: PM.State, steps: seq<PM.Timed>, done: set<PeerId>, m: PM.State, p: PeerId,
                       now: int)
    requires Acted(c, s, steps, now, {}, done, m)
    ensures CS.Scorable(c.params) && PM.ScoreRead(c, m, p, now) == PM.ScoreRead(c, s, p, now)
  {
    assert forall k :: 0 <= k < |steps| && !steps[k].e.ReadScore? ==> steps[k].e in Marks(steps);
    ReadAnyTime(c, s, steps, now, p);
  }

  /** Tells the score of every peer grafted. */
  method TellGrafts(score: PeerScore, tograft: map<Topic, seq<PeerId>>, now: int) returns (ghost steps: seq<PM.Timed>)
    requires score.Valid() && forall t :: t in tograft ==> Distinct(tograft[t])
    modifies score`peerStats
    ensures score.Valid()
    ensures Acted(score.c, old(score.Now()), steps, now, GraftsIn(tograft, tograft.Keys), {}, score.Now())
  {
    ghost var s := score.Now();
    NothingActed(score.c, s, now);
    steps := [];
    var todo := tograft.Keys;
    assert GraftsIn(tograft, {}) == {} && tograft.Keys - todo == {};
    hide Acted, score.Valid, GraftsIn, GraftsTo, Distinct;
    while todo != {}
      invariant todo <= tograft.Keys && score.Valid()
      invariant Acted(score.c, s, steps, now, GraftsIn(tograft, tograft.Keys - todo), {}, score.Now())
      decreases todo
    {
      var t :| t in todo;
      ghost var done, m := tograft.Keys - todo, score.Now();
      ghost var more := TellTopicGrafts(score, t, tograft[t], now);
      MarksNext(tograft, done, t);
      BothActed(score.c, s, steps, more, now, GraftsIn(tograft, done), {}, m, GraftsTo(t, tograft[t]), {}, score.Now());
      steps := steps + more;
      todo := todo - {t};
      assert tograft.Keys - todo == done + {t};
    }
    assert tograft.Keys - {} == tograft.Keys;
  }

  method TellTopicGrafts(score: PeerScore, t: Topic, ps: seq<PeerId>, now: int) returns (ghost steps: seq<PM.Timed>)
    requires score.Valid() && Distinct(ps)
    modifies score`peerStats
    ensures score.Valid() && Acted(score.c, old(score.Now()), steps, now, GraftsTo(t, ps), {}, score.Now())
  {
    ghost var s := score.Now();
    NothingActed(score.c, s, now);
    steps := [];
    assert GraftsTo(t, ps[..0]) == {};
    hide Acted, score.Valid, GraftsTo, Distinct, PM.Next;
    for k := 0 to |ps|
      invariant score.Valid() && Acted(score.c, s, steps, now, GraftsTo(t, ps[..k]), {}, score.Now())
    {
      ghost var m := score.Now();
      score.Graft(ps[k], t, now);
      OneActed(score.c, m, PM.Grafted(ps[k], t), now);
      MarkNext(t, ps, k);
      BothActed(score.c, s, steps, [PM.Timed(PM.Grafted(ps[k], t), now)], now, GraftsTo(t, ps[..k]), {}, m,
                {PM.Grafted(ps[k], t)}, {}, score.Now());
      steps := steps + [PM.Timed(PM.Grafted(ps[k], t), now)];
    }
    assert ps[..|ps|] == ps;
  }

  /** `memo` has the scores of `ids`. */
  ghost predicate MemoOf(c: PM.Config, s: PM.State, ids: set<PeerId>, now: int, memo: PeerId -> real)
    requires CS.Scorable(c.params)
  {
    forall p :: p in ids ==> memo(p) == PM.ScoreRead(c, s, p, now)
  }

  /** A random choice among those of the pool that do not score negative. */
  ghost predicate Offered(c: PM.Config, s: PM.State, now: int, pool: set<PeerId>, count: int, px: set<PeerId>)
    requires CS.Scorable(c.params)
  {
    if pool == {} then px == {}
    else RandomPick((set x | x in pool && PM.ScoreRead(c, s, x, now) >= 0.0), count, px)
  }

  /** What the score is told in a heartbeat. */
  function MarksOf(passes: map<Topic, Pass>): set<PM.Event> {
    GraftsIn(GraftedBy(passes), GraftedBy(passes).Keys) + PrunesIn(PrunedBy(passes), PrunedBy(passes).Keys)
  }

  /** Those pruned for their negative scores, who are not offered other peers. */
  function NegativeOf(toprune: map<Topic, seq<PeerId>>, memo: PeerId -> real): set<PeerId> {
    set t, p | t in toprune && p in toprune[t] && memo(p) < 0.0 :: p
  }

  /** Peers whose scores are read to offer them to those pruned. */
  function OfferedBy(c: Config, s: State, passes: map<Topic, Pass>, memo: PeerId -> real): set<PeerId> {
    ExchangeAsked(c, s, PrunedBy(passes), PrunedBy(passes).Keys, NegativeOf(PrunedBy(passes), memo))
  }

  function ExchangeAsked(c: Config, s: State, toprune: map<Topic, seq<PeerId>>, ts: set<Topic>, noPX: set<PeerId>):
    set<PeerId>
  {
    set t, p | t in toprune && t in ts && p in TopicAsked(c, s, t, toprune[t], noPX) :: p
  }

  function TopicAsked(c: Config, s: State, t: Topic, ps: seq<PeerId>, noPX: set<PeerId>): set<PeerId> {
    set p, x | p in ps && x in PeerAsked(c, s, t, p, noPX) :: x
  }

  function PeerAsked(c: Config, s: State, t: Topic, p: PeerId, noPX: set<PeerId>): set<PeerId> {
    ExchangePool(c, s, p, t, c.doPX && p !in noPX)
  }

  lemma AskedNext(c: Config, s: State, toprune: map<Topic, seq<PeerId>>, done: set<Topic>, t: Topic, noPX: set<PeerId>)
    requires t in toprune
    ensures ExchangeAsked(c, s, toprune, done + {t}, noPX)
         == ExchangeAsked(c, s, toprune, done, noPX) + TopicAsked(c, s, t, toprune[t], noPX)
  {
    hide TopicAsked;
  }

  lemma TopicAskedNext(c: Config, s: State, t: Topic, ps: seq<PeerId>, k: nat, noPX: set<PeerId>)
    requires k < |ps|
    ensures TopicAsked(c, s, t, ps[..k + 1], noPX)
         == TopicAsked(c, s, t, ps[..k], noPX) + PeerAsked(c, s, t, ps[k], noPX)
  {
    hide PeerAsked;
    assert ps[..k + 1] == ps[..k] + [ps[k]];
  }

  lemma SamePools(c: Config, s: State, id: PeerId, t: Topic, doPX: bool, onUnsubscribe: bool, now: int)
    ensures ExchangePool(c, RouterModel.MakePrune(c, s, id, t, onUnsubscribe, now), id, t, doPX)
         == ExchangePool(c, s, id, t, doPX)
  {
    hide AddBackoff;
    assert Reachable(c, RouterModel.MakePrune(c, s, id, t, onUnsubscribe, now), t) == Reachable(c, s, t);
  }

  /** Making these PRUNEs changes nothing in the router. */
  ghost predicate PrunesRecorded(c: Config, s: State, toprune: map<Topic, seq<PeerId>>, now: int) {
    forall t, p :: t in toprune && p in toprune[t] ==> RouterModel.MakePrune(c, s, p, t, false, now) == s
  }

  lemma RecordedStays(c: Config, s: State, toprune: map<Topic, seq<PeerId>>, now: int, t: Topic, p: PeerId)
    requires PrunesRecorded(c, s, toprune, now) && t in toprune && p in toprune[t]
    ensures RouterModel.MakePrune(c, s, p, t, false, now) == s
  {
    hide RouterModel.MakePrune;
  }

  lemma PrunesReady(c: Config, s: State, memo: PeerId -> real, passes: map<Topic, Pass>, now: int, s': State)
    requires Beaten(c, s, memo, passes, now, s')
    ensures PrunesRecorded(c, s', PrunedBy(passes), now)
    ensures forall t :: t in PrunedBy(passes) ==> Distinct(PrunedBy(passes)[t])
  {
    hide Beaten, RouterModel.MakePrune, Distinct;
    forall t | t in passes ensures Distinct(passes[t].outcome.pruned) {
      RI.ListsApart(c, s, memo, passes, now, s', t);
    }
    forall t, p | t in PrunedBy(passes) && p in PrunedBy(passes)[t]
      ensures RouterModel.MakePrune(c, s', p, t, false, now) == s'
    {
      RI.PruneRepeats(c, s, memo, passes, now, s', t, p);
    }
  }

  lemma GraftsReady(c: Config, s: State, memo: PeerId -> real, passes: map<Topic, Pass>, now: int, s': State)
    requires Beaten(c, s, memo, passes, now, s')
    ensures forall t :: t in GraftedBy(passes) ==> Distinct(GraftedBy(passes)[t])
    ensures GraftedBy(passes).Keys == passes.Keys
  {
    hide Beaten, Distinct;
    forall t | t in passes ensures Distinct(passes[t].outcome.Grafted()) {
      RI.ListsApart(c, s, memo, passes, now, s', t);
    }
  }

  /** The steps before and after the emission of gossip, together. */
  lemma HeartbeatActed(c: Config, r: State, r': State, memo: PeerId -> real, passes: map<Topic, Pass>, now: int,
                       sc: PM.Config, s: PM.State, m: PM.State, before: seq<PM.Timed>, after: seq<PM.Timed>,
                       s': PM.State)
    requires Beaten(c, r, memo, passes, now, r')
    requires Acted(sc, s, before, now, GraftsIn(GraftedBy(passes), GraftedBy(passes).Keys), Consulted(c, r, now), m)
    requires Acted(sc, m, after, now, PrunesIn(PrunedBy(passes), PrunedBy(passes).Keys),
                   ExchangeAsked(c, r', PrunedBy(passes), PrunedBy(passes).Keys, NegativeOf(PrunedBy(passes), memo)),
                   s')
    ensures Acted(sc, s, before + after, now, MarksOf(passes), Consulted(c, r, now) + OfferedBy(c, r', passes, memo),
                  s')
    ensures s'.peerStats == StatsAfter(sc.params, s.peerStats, MarksOf(passes), now)
  {
    MarksAre(passes);
    OfferedAre(c, r', passes, memo);
    hide *;
    GraftsAndPrunes(c, r, memo, passes, now, r');
    BothActed(sc, s, before, after, now, GraftsIn(GraftedBy(passes), GraftedBy(passes).Keys), Consulted(c, r, now), m,
              PrunesIn(PrunedBy(passes), PrunedBy(passes).Keys), OfferedBy(c, r', passes, memo), s');
    ActedStats(sc, s, before + after, now, MarksOf(passes), Consulted(c, r, now) + OfferedBy(c, r', passes, memo), s');
  }

  /** The score is told of exactly the peers that came into a mesh, and of those that left one. */
  lemma ToldIff(c: Config, s: State, memo: PeerId -> real, passes: map<Topic, Pass>, now: int, s': State, t: Topic,
                p: PeerId)
    requires Beaten(c, s, memo, passes, now, s')
    ensures t in s.mesh ==> t in s'.mesh
    ensures PM.Grafted(p, t) in MarksOf(passes) <==> t in s.mesh && p in s'.mesh[t] && p !in s.mesh[t]
    ensures PM.Pruned(p, t) in MarksOf(passes) <==> t in s.mesh && p in s.mesh[t] && p !in s'.mesh[t]
  {
    hide *;
    MarksIff(passes, t, p);
    HE.EntryAfter(c, s, memo, passes, now, s', t);
    if t in s.mesh {
      HR.PassOf(c, s, memo, passes, now, s', t);
      HE.StartOf(c, s, t, memo, now, passes[t].inputs);
      HE.PrunedLeft(passes[t].inputs, passes[t].outcome);
      HE.GraftedCame(passes[t].inputs, passes[t].outcome);
    }
  }

  lemma MarksIff(passes: map<Topic, Pass>, t: Topic, p: PeerId)
    ensures PM.Grafted(p, t) in MarksOf(passes) <==> t in passes && p in passes[t].outcome.Grafted()
    ensures PM.Pruned(p, t) in MarksOf(passes) <==> t in passes && p in passes[t].outcome.pruned
  {
  }

  lemma MarksAre(passes: map<Topic, Pass>)
    ensures MarksOf(passes)
         == GraftsIn(GraftedBy(passes), GraftedBy(passes).Keys) + PrunesIn(PrunedBy(passes), PrunedBy(passes).Keys)
  {
    hide GraftsIn, PrunesIn, GraftedBy, PrunedBy;
  }

  lemma OfferedAre(c: Config, s: State, passes: map<Topic, Pass>, memo: PeerId -> real)
    ensures OfferedBy(c, s, passes, memo)
         == ExchangeAsked(c, s, PrunedBy(passes), PrunedBy(passes).Keys, NegativeOf(PrunedBy(passes), memo))
  {
    hide ExchangeAsked, PrunedBy, NegativeOf;
  }

  lemma GraftsAndPrunes(c: Config, s: State, memo: PeerId -> real, passes: map<Topic, Pass>, now: int, s': State)
    requires Beaten(c, s, memo, passes, now, s')
    ensures GraftsIn(GraftedBy(passes), GraftedBy(passes).Keys) !! PrunesIn(PrunedBy(passes), PrunedBy(passes).Keys)
    ensures NotBoth(MarksOf(passes))
  {
    hide Beaten;
    forall t, p | t in passes && p in passes[t].outcome.Grafted() ensures p !in passes[t].outcome.pruned {
      RI.ListsApart(c, s, memo, passes, now, s', t);
      assert p in ToSet(passes[t].outcome.Grafted());
    }
  }

  /**
   * Offered to a peer pruned are up to `count` of the topic's other peers that can be reached and do not score
   * negative, or all of these; nobody is, without peer exchange or to a peer of v1.0.
   */
  lemma OfferRule(c: Config, s: State, id: PeerId, t: Topic, doPX: bool, sc: PM.Config, ps: PM.State, now: int,
                  count: nat, px: set<PeerId>)
    requires CS.Scorable(sc.params) && Offered(sc, ps, now, ExchangePool(c, s, id, t, doPX), count, px)
    ensures !doPX || (id in s.streams && s.streams[id] == GossipsubV10) ==> px == {}
    ensures doPX && !(id in s.streams && s.streams[id] == GossipsubV10) ==>
              var fit := set x | t in s.topics && x in s.topics[t] && x != id && x in s.streams
                                 && s.streams[x] in c.multicodecs && PM.ScoreRead(sc, ps, x, now) >= 0.0;
              px <= fit && |px| == if count > 0 && |fit| > count then count else |fit|
  {
    var pool := ExchangePool(c, s, id, t, doPX);
    if doPX && !(id in s.streams && s.streams[id] == GossipsubV10) {
      var fit := set x | t in s.topics && x in s.topics[t] && x != id && x in s.streams
                         && s.streams[x] in c.multicodecs && PM.ScoreRead(sc, ps, x, now) >= 0.0;
      hide PM.ScoreRead, CS.Scorable;
      assert fit == set x | x in pool && PM.ScoreRead(sc, ps, x, now) >= 0.0;
    }
  }

  /** `x` might be offered to `p`, pruned from the topic with a score that is not negative. */
  predicate MightBeOffered(c: Config, s: State, memo: PeerId -> real, t: Topic, ps: seq<PeerId>, p: PeerId, x: PeerId) {
    && c.doPX && p in ps && memo(p) >= 0.0 && !(p in s.streams && s.streams[p] == GossipsubV10)
    && x != p && t in s.topics && x in s.topics[t] && x in s.streams && s.streams[x] in c.multicodecs
  }

  /** The peers whose scores are read when the PRUNEs are made. */
  lemma OfferedIff(c: Config, s: State, passes: map<Topic, Pass>, memo: PeerId -> real, x: PeerId)
    ensures x in OfferedBy(c, s, passes, memo) <==>
              exists t, p :: t in passes && MightBeOffered(c, s, memo, t, passes[t].outcome.pruned, p, x)
  {
    var m := PrunedBy(passes);
    var noPX := NegativeOf(m, memo);
    forall t, p | t in passes && p in passes[t].outcome.pruned
      ensures x in PeerAsked(c, s, t, p, noPX) <==> MightBeOffered(c, s, memo, t, passes[t].outcome.pruned, p, x)
    {
      assert m[t] == passes[t].outcome.pruned;
      assert p in noPX <==> memo(p) < 0.0;
    }
    hide PeerAsked, NegativeOf;
    if x in OfferedBy(c, s, passes, memo) {
      var t :| t in m && x in TopicAsked(c, s, t, m[t], noPX);
      var p :| p in m[t] && x in PeerAsked(c, s, t, p, noPX);
      assert MightBeOffered(c, s, memo, t, passes[t].outcome.pruned, p, x);
    }
    if t, p :| t in passes && MightBeOffered(c, s, memo, t, passes[t].outcome.pruned, p, x) {
      assert x in PeerAsked(c, s, t, p, noPX);
      assert x in TopicAsked(c, s, t, m[t], noPX);
    }
  }
}
