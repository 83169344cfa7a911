/** Where the promise table meets the peer score: broken promises become behaviour penalties. */
module IWantPenalties {
  import opened Types
  import opened ComputeScore
  import opened PeerScoreModel
  import opened PeerScoreTheorems
  import opened PeerScoreTracker
  import IW = IWantTracing

  /** One penalty point for each promise a peer broke; a peer without stats is not penalised. */
  ghost function Penalised(stats: Stats, promises: IW.Promises, now: int): Stats {
    map p | p in stats :: WithPenalty(stats[p], |IW.BrokenIn(promises, promises.Keys, p, now)|)
  }

  function WithPenalty(s: PeerStats, n: nat): PeerStats { s.(behaviourPenalty := s.behaviourPenalty + n as real) }

  /**
   * Each peer's behaviour penalty grows by the number of messages it promised and whose time ran out, and nothing
   * else.
   */
  lemma PenaltyRule(stats: Stats, promises: IW.Promises, now: int, p: PeerId)
    requires p in stats
    ensures var broken := set m | m in promises && p in promises[m] && promises[m][p] < now;
            && Penalised(stats, promises, now).Keys == stats.Keys
            && Penalised(stats, promises, now)[p]
               == stats[p].(behaviourPenalty := stats[p].behaviourPenalty + |broken| as real)
  {
    assert IW.BrokenIn(promises, promises.Keys, p, now)
        == set m | m in promises && p in promises[m] && promises[m][p] < now;
  }

  /** The stats when the peers of `done` have got their counts. */
  function PenalisedSome(stats: Stats, counts: map<PeerId, nat>, done: set<PeerId>): Stats {
    map p | p in stats :: if p in done && p in counts then WithPenalty(stats[p], counts[p]) else stats[p]
  }

  method ApplyIwantPenalties(tracer: IW.IWantTracer, score: PeerScore, now: int)
    requires score.Valid()
    modifies tracer`promises, score`peerStats
    ensures score.Valid() && tracer.promises == IW.Kept(old(tracer.promises), now)
    ensures old(tracer.Valid()) ==> tracer.Valid()
    ensures score.Now() == old(score.Now()).(peerStats := Penalised(old(score.peerStats), old(tracer.promises), now))
  {
    ghost var promises, was := tracer.promises, score.peerStats;
    hide Penalised, PenalisedSome, IW.Kept, IW.Counts, tracer.Valid, score.Valid;
    var counts := tracer.GetBrokenPromises(now);
    CountsPenalise(was, promises, counts, now);
    PenaliseAll(score, counts, now);
  }

  method PenaliseAll(score: PeerScore, counts: map<PeerId, nat>, now: int)
    requires score.Valid()
    modifies score`peerStats
    ensures score.Valid() && score.peerStats == PenalisedSome(old(score.peerStats), counts, counts.Keys)
  {
    ghost var was := score.peerStats;
    NobodyPenalised(was, counts);
    hide PenalisedSome, WithPenalty, score.Valid;
    var todo := counts.Keys;
    assert counts.Keys - todo == {};
    while todo != {}
      invariant todo <= counts.Keys && score.Valid()
      invariant score.peerStats == PenalisedSome(was, counts, counts.Keys - todo)
      decreases todo
    {
      var p :| p in todo;
      ghost var done := counts.Keys - todo;
      OneMorePenalised(was, counts, done, p);
      Penalise(score, p, counts[p], now);
      todo := todo - {p};
      assert counts.Keys - todo == done + {p};
    }
    assert counts.Keys - {} == counts.Keys;
  }

  method Penalise(score: PeerScore, p: PeerId, count: nat, now: int)
    requires score.Valid()
    modifies score`peerStats
    ensures score.Valid()
    ensures score.peerStats == if p in old(score.peerStats)
                               then old(score.peerStats)[p := WithPenalty(old(score.peerStats)[p], count)]
                               else old(score.peerStats)
  {
    score.AddPenalty(p, count as real, now);
  }

  lemma CountsPenalise(stats: Stats, promises: IW.Promises, counts: map<PeerId, nat>, now: int)
    requires IW.Counts(promises, promises.Keys, now, counts)
    ensures PenalisedSome(stats, counts, counts.Keys) == Penalised(stats, promises, now)
  {
    hide IW.BrokenIn;
    forall p | p in stats && p !in counts ensures WithPenalty(stats[p], IW.CountOf(counts, p)) == stats[p] {
    }
  }

  lemma NobodyPenalised(stats: Stats, counts: map<PeerId, nat>)
    ensures PenalisedSome(stats, counts, {}) == stats
  {
  }

  lemma OneMorePenalised(stats: Stats, counts: map<PeerId, nat>, done: set<PeerId>, p: PeerId)
    requires p in counts && p !in done
    ensures PenalisedSome(stats, counts, done + {p})
         == (var was := PenalisedSome(stats, counts, done);
             if p in stats then was[p := WithPenalty(was[p], counts[p])] else was)
    ensures p in PenalisedSome(stats, counts, done) <==> p in stats
  {
  }
}
