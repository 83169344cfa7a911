/** What a heartbeat does to meshes, backoffs, fanout and gossip targets, said of the router's fields. */
module HeartbeatRules {
  import opened Types
  import opened Seqs
  import opened MeshPass
  import opened MeshTheorems
  import opened RouterModel
  import opened RouterInvariants

  /** A subscriber with a stream of a protocol we speak, not a configured peer, that scores at least `bar`. */
  predicate Reaches(c: Config, s: State, t: Topic, p: PeerId, score: PeerId -> real, bar: real) {
    && t in s.topics && p in s.topics[t] && p in s.streams && s.streams[p] in c.multicodecs && p !in c.direct
    && score(p) >= bar
  }

  /** A backoff the heartbeat still finds: every fifteenth sweeps away those that expired more than the slack ago. */
  predicate StillListed(c: Config, s: State, t: Topic, p: PeerId, now: int) {
    && t in s.backoff && p in s.backoff[t]
    && ((s.ticks + 1) % 15 == 0 ==> s.backoff[t][p] + c.heartbeatInterval >= now)
  }

  /** What the pass over a topic starts from. */
  ghost predicate StartsFrom(c: Config, s: State, t: Topic, score: PeerId -> real, now: int, i: Inputs) {
    && t in s.mesh && i.start == s.mesh[t] && i.score == score && i.params == c.params
    && (forall p :: p in i.outbound <==> p in s.outbound && s.outbound[p])
    && (i.opportunisticTick <==> c.opportunisticGraftTicks > 0 && (s.ticks + 1) % c.opportunisticGraftTicks == 0)
    && (forall p :: p in i.gossip <==> Reaches(c, s, t, p, score, c.params.gossipThreshold) && p !in s.mesh[t])
    && (forall p :: p in ToSet(i.candidates) <==>
          Reaches(c, s, t, p, score, 0.0) && p !in s.mesh[t] && !StillListed(c, s, t, p, now))
  }

  /** The pass over one topic: what it starts from and how its outcome is the topic's new mesh. */
  lemma PassOf(c: Config, s: State, score: PeerId -> real, passes: map<Topic, Pass>, now: int, s': State, t: Topic)
    requires Beaten(c, s, score, passes, now, s') && t in s.mesh
    ensures t in passes && t in s'.mesh && s'.mesh[t] == passes[t].outcome.peers
    ensures StartsFrom(c, s, t, score, now, passes[t].inputs) && passes[t].inputs.Valid()
    ensures Maintained(passes[t].inputs, passes[t].outcome)
  {
    OnePass(c, s, score, passes, now, s', t);
    TickedOnly(c, s, now);
    hide *;
    InputsAreValid(c, Ticked(c, s, now), t, score, passes[t].inputs);
    StartFacts(c, s, Ticked(c, s, now), t, score, now, passes[t].inputs);
  }

  lemma OnePass(c: Config, s: State, score: PeerId -> real, passes: map<Topic, Pass>, now: int, s': State, t: Topic)
    requires Beaten(c, s, score, passes, now, s') && t in s.mesh
    ensures t in passes && t in s'.mesh && s'.mesh[t] == passes[t].outcome.peers && t in Ticked(c, s, now).mesh
    ensures PassStarts(c, Ticked(c, s, now), t, score, OpportunisticTick(c, Ticked(c, s, now).ticks), passes[t].inputs)
    ensures PassStarts(c, Ticked(c, s, now), t, score, passes[t].inputs.opportunisticTick, passes[t].inputs)
    ensures Maintained(passes[t].inputs, passes[t].outcome)
  {
    hide ClearBackoff, PrunesBacked, FanoutMaintained, Maintained, Candidates, GossipTargets, Outbound, ToSet, Distinct;
    hide OpportunisticTick;
  }

  lemma TickedOnly(c: Config, s: State, now: int)
    ensures Ticked(c, s, now) == s.(ticks := s.ticks + 1, backoff := Ticked(c, s, now).backoff)
  {
    hide ClearBackoff;
  }

  lemma StartFacts(c: Config, s: State, s1: State, t: Topic, score: PeerId -> real, now: int, i: Inputs)
    requires t in s.mesh && s1 == Ticked(c, s, now) && s1 == s.(ticks := s.ticks + 1, backoff := s1.backoff)
    requires PassStarts(c, s1, t, score, OpportunisticTick(c, s1.ticks), i)
    ensures StartsFrom(c, s, t, score, now, i)
  {
    SweptBackoff(c, s, now, t);
    TargetsAre(c, s, s1, t, score);
    EligibleAre(c, s, s1, t, score, now);
    hide Candidates, GossipTargets, StillListed, Reaches, Ticked, ToSet, Distinct;
  }

  lemma SweptBackoff(c: Config, s: State, now: int, t: Topic)
    ensures forall p :: HasBackoff(Ticked(c, s, now).backoff, t, p) <==> StillListed(c, s, t, p, now)
    ensures forall p :: StillListed(c, s, t, p, now) ==> Ticked(c, s, now).backoff[t][p] == s.backoff[t][p]
  {
    SweptEntries(c, s.backoff, s.ticks + 1, now, t);
    hide ClearBackoff;
  }

  lemma SweptEntries(c: Config, b: Backoffs, ticks: nat, now: int, t: Topic)
    ensures var b' := ClearBackoff(c, b, ticks, now);
            && (forall p :: (t in b' && p in b'[t]) <==>
                  t in b && p in b[t] && (ticks % 15 == 0 ==> b[t][p] + c.heartbeatInterval >= now))
            && (t in b' ==> t in b && forall p :: p in b'[t] ==> p in b[t] && b'[t][p] == b[t][p])
  {
    if t in b {
      LiveEntries(c, b[t], now);
    }
    hide Live;
  }

  lemma LiveEntries(c: Config, b: map<PeerId, int>, now: int)
    ensures forall p :: p in Live(c, b, now) <==> p in b && b[p] + c.heartbeatInterval >= now
    ensures forall p :: p in Live(c, b, now) ==> Live(c, b, now)[p] == b[p]
  {
  }

  lemma TargetsAre(c: Config, s: State, s1: State, t: Topic, score: PeerId -> real)
    requires s1 == s.(ticks := s1.ticks, backoff := s1.backoff)
    ensures forall p :: p in GossipTargets(c, s1, t, score) <==>
              Reaches(c, s, t, p, score, c.params.gossipThreshold) && p !in PeersIn(s.mesh, t)
  {
  }

  lemma EligibleAre(c: Config, s: State, s1: State, t: Topic, score: PeerId -> real, now: int)
    requires s1 == s.(ticks := s1.ticks, backoff := s1.backoff)
    requires forall p :: HasBackoff(s1.backoff, t, p) <==> StillListed(c, s, t, p, now)
    ensures forall p :: p in Candidates(c, s1, t, score) <==>
              Reaches(c, s, t, p, score, 0.0) && p !in PeersIn(s.mesh, t) && !StillListed(c, s, t, p, now)
  {
    hide HasBackoff, StillListed;
    assert forall p :: p in WithoutBackoff(s1, t, Choosable(c, s1, t, score, 0.0)) <==>
                         p in Choosable(c, s1, t, score, 0.0) && !HasBackoff(s1.backoff, t, p);
  }

  // ----- who stays, and how many come

  ghost function WithScore(xs: set<PeerId>, score: PeerId -> real): set<PeerId> { set p | p in xs && score(p) >= 0.0 }

  ghost function Dialled(s: State, xs: set<PeerId>): set<PeerId> { set p | p in xs && p in s.outbound && s.outbound[p] }

  /** Who may be grafted to the topic's mesh. */
  ghost function Eligible(c: Config, s: State, t: Topic, score: PeerId -> real, now: int): set<PeerId>
    requires t in s.mesh
  {
    set p | p in s.streams && Reaches(c, s, t, p, score, 0.0) && p !in s.mesh[t] && !StillListed(c, s, t, p, now)
  }

  /**
   * Peers with negative scores leave. Of the others all stay, unless they are more than `Dhi`: then exactly `D` do.
   * A mesh below `Dlo` takes as many eligible peers as are missing to `D`, or all.
   */
  lemma MeshRule(c: Config, s: State, score: PeerId -> real, passes: map<Topic, Pass>, now: int, s': State, t: Topic)
    requires Beaten(c, s, score, passes, now, s') && t in s.mesh && c.params.Documented()
    ensures t in s'.mesh && t in passes
    ensures var well, stay, o := WithScore(s.mesh[t], score), s.mesh[t] * s'.mesh[t], passes[t].outcome;
            && stay <= well && (|well| <= c.params.Dhi ==> stay == well)
            && (|well| > c.params.Dhi ==> |stay| == c.params.D)
            && ToSet(o.Grafted()) == s'.mesh[t] - s.mesh[t] && ToSet(o.pruned) == s.mesh[t] - s'.mesh[t]
            && |o.notEnough| == (if |well| < c.params.Dlo
                                 then Min(c.params.D - |well|, |Eligible(c, s, t, score, now)|) else 0)
  {
    hide *;
    PassOf(c, s, score, passes, now, s', t);
    var i, o := passes[t].inputs, passes[t].outcome;
    StartSets(c, s, t, score, now, i);
    FilledExact(i, o);
    DistinctCandidates(i);
    Stayers(i, o);
  }

  lemma StartSets(c: Config, s: State, t: Topic, score: PeerId -> real, now: int, i: Inputs)
    requires StartsFrom(c, s, t, score, now, i)
    ensures t in s.mesh && i.start == s.mesh[t] && i.params == c.params && i.score == score
    ensures ToSet(i.candidates) == Eligible(c, s, t, score, now) && i.Survivors() == WithScore(s.mesh[t], score)
  {
    EligibleReach(c, s, t, score, now);
    assert i.Survivors() == WithScore(s.mesh[t], score);
    hide Eligible, ToSet, StillListed, Reaches, WithScore, i.Survivors;
  }

  lemma EligibleReach(c: Config, s: State, t: Topic, score: PeerId -> real, now: int)
    requires t in s.mesh
    ensures forall p :: p in Eligible(c, s, t, score, now) <==>
              Reaches(c, s, t, p, score, 0.0) && p !in s.mesh[t] && !StillListed(c, s, t, p, now)
  {
  }

  lemma Stayers(i: Inputs, o: Outcome)
    requires i.Valid() && Maintained(i, o) && i.params.Documented()
    ensures var stay := i.start * o.peers;
            && stay <= i.Survivors() && (|i.Survivors()| <= i.params.Dhi ==> stay == i.Survivors())
            && (|i.Survivors()| > i.params.Dhi ==> |stay| == i.params.D)
            && ToSet(o.Grafted()) == o.peers - i.start && ToSet(o.pruned) == i.start - o.peers
  {
    hide *;
    MeshMatchesLists(i, o);
    PrunedWithin(i, o);
    StartApart(i, o);
    Rearranged(i.start, ToSet(o.pruned), ToSet(o.Grafted()), o.peers);
    NotPruned(i, o);
  }

  lemma Rearranged(start: set<PeerId>, pruned: set<PeerId>, grafted: set<PeerId>, peers: set<PeerId>)
    requires peers == start - pruned + grafted && pruned <= start && grafted !! start
    ensures start * peers == start - pruned && grafted == peers - start && pruned == start - peers
  {
  }

  lemma NotPruned(i: Inputs, o: Outcome)
    requires i.Valid() && Maintained(i, o) && i.params.Documented()
    ensures var stay, s := i.start - ToSet(o.pruned), i.Survivors();
            stay <= s && (|s| <= i.params.Dhi ==> stay == s) && (|s| > i.params.Dhi ==> |stay| == i.params.D)
  {
    hide *;
    SurvivorsAre(i);
    if o.trim.Some? {
      Trimmed(i, o);
    } else {
      NotTrimmed(i, o);
    }
  }

  lemma Trimmed(i: Inputs, o: Outcome)
    requires i.Valid() && Maintained(i, o) && i.params.Documented() && o.trim.Some?
    ensures var stay, s := i.start - ToSet(o.pruned), i.Survivors();
            stay <= s && |stay| == i.params.D && |s| > i.params.Dhi
  {
    hide *;
    var s, n, t := i.Survivors(), ToSet(o.notEnough), o.trim.value;
    NothingFilled(i, o);
    FilledAndCut(i, o);
    TrimPartition(i, t, s + n);
    TrimmedStart(i.start, s, n, ToSet(t.kept), ToSet(t.excess), ToSet(o.pruned));
  }

  lemma NotTrimmed(i: Inputs, o: Outcome)
    requires i.Valid() && Maintained(i, o) && i.params.Documented() && o.trim == None
    ensures i.start - ToSet(o.pruned) == i.Survivors() && |i.Survivors()| <= i.params.Dhi
  {
    hide *;
    var s, n := i.Survivors(), ToSet(o.notEnough);
    FilledAndCut(i, o);
    SurvivorsAre(i);
    assert i.start - (i.start - s) == s;
    SubsetCardinality(s, s + n);
  }

  /** Whoever is trimmed has not been filled up. */
  lemma NothingFilled(i: Inputs, o: Outcome)
    requires i.Valid() && Maintained(i, o) && i.params.Documented() && o.trim.Some?
    ensures ToSet(o.notEnough) == {} && |i.Survivors()| > i.params.Dhi
    ensures i.Survivors() + ToSet(o.notEnough) == i.Survivors()
  {
    hide *;
    AtQuotaIs(i, o);
    FilledAndCut(i, o);
    ParamsOrder(i.params);
    assert i.Survivors() + {} == i.Survivors();
  }

  lemma ParamsOrder(p: MeshParams)
    requires p.Documented()
    ensures p.Dlo <= p.D <= p.Dhi
  {
  }

  lemma StartApart(i: Inputs, o: Outcome)
    requires i.Valid() && Maintained(i, o)
    ensures ToSet(o.Grafted()) !! i.start
  {
    hide i.Survivors, Filled, Cut, QuotaMade, OpportunisticMade, Distinct;
  }

  lemma PrunedWithin(i: Inputs, o: Outcome)
    requires Maintained(i, o)
    ensures ToSet(o.pruned) <= i.start
  {
    hide i.Survivors, Filled, Cut, QuotaMade, OpportunisticMade, Distinct;
  }

  lemma SurvivorsAre(i: Inputs)
    ensures i.Survivors() <= i.start
  {
  }

  lemma TrimmedStart(start: set<PeerId>, s: set<PeerId>, n: set<PeerId>, kept: set<PeerId>, excess: set<PeerId>,
                     pruned: set<PeerId>)
    requires s <= start && n == {} && kept + excess == s + n && kept !! excess && pruned == start - s + excess
    ensures start - pruned == kept && kept <= s
  {
  }

  /** After that, a mesh of at least `Dlo` makes up for missing dialled peers, as far as eligible ones are left. */
  lemma QuotaRule(c: Config, s: State, score: PeerId -> real, passes: map<Topic, Pass>, now: int, s': State, t: Topic)
    requires Beaten(c, s, score, passes, now, s') && t in s.mesh
    ensures t in s'.mesh && t in passes
    ensures var o := passes[t].outcome;
            var mesh := s'.mesh[t] - ToSet(o.quota) - ToSet(o.opportunistic);
            var have, left := |Dialled(s, mesh)|, Dialled(s, Eligible(c, s, t, score, now) - ToSet(o.notEnough));
            && |o.quota| == (if |mesh| >= c.params.Dlo && have < c.params.Dout
                             then Min(c.params.Dout - have, |left|) else 0)
            && ToSet(o.quota) <= left
  {
    hide *;
    PassOf(c, s, score, passes, now, s', t);
    var i, o := passes[t].inputs, passes[t].outcome;
    StartSets(c, s, t, score, now, i);
    DialledAre(c, s, t, score, now, i, s'.mesh[t] - ToSet(o.quota) - ToSet(o.opportunistic));
    DialledAre(c, s, t, score, now, i, ToSet(i.candidates) - ToSet(o.notEnough));
    QuotaExact(i, o);
    QuotaFromLeft(i, o);
  }

  lemma DialledAre(c: Config, s: State, t: Topic, score: PeerId -> real, now: int, i: Inputs, xs: set<PeerId>)
    requires StartsFrom(c, s, t, score, now, i)
    ensures Dialled(s, xs) == xs * i.outbound && OutSize(xs, i.outbound) == |Dialled(s, xs)|
  {
    hide Reaches, StillListed, ToSet;
    assert Dialled(s, xs) == xs * i.outbound;
  }

  lemma QuotaFromLeft(i: Inputs, o: Outcome)
    requires i.Valid() && Maintained(i, o)
    ensures o.AtQuota() == o.peers - ToSet(o.quota) - ToSet(o.opportunistic)
    ensures ToSet(o.quota) <= (ToSet(i.candidates) - ToSet(o.notEnough)) * i.outbound
  {
    QuotaExact(i, o);
    GraftSets(i, o);
    QuotaLater(i, o);
    hide Maintained, i.Valid, ToSet;
  }

  lemma QuotaLater(i: Inputs, o: Outcome)
    requires Maintained(i, o)
    ensures ToSet(o.notEnough) !! ToSet(o.quota)
  {
    GraftsDisjoint(o.notEnough, o.quota, o.opportunistic);
  }

  /** The eligible peers left for the last step that beat a score. */
  ghost function Beating(c: Config, s: State, t: Topic, score: PeerId -> real, now: int, taken: set<PeerId>, bar: real):
    set<PeerId>
    requires t in s.mesh
  {
    set p | p in Eligible(c, s, t, score, now) && p !in taken && score(p) > bar
  }

  /** `m` is the upper median of the scores: more than half are at most `m`, at least half are at least `m`. */
  ghost predicate InTheMiddle(mesh: set<PeerId>, score: PeerId -> real, m: real) {
    && 2 * |set p | p in mesh && score(p) <= m| > |mesh|
    && 2 * |set p | p in mesh && score(p) >= m| >= |mesh|
  }

  /**
   * Every `opportunisticGraftTicks` heartbeats, a mesh of more than one peer whose median is below the threshold
   * takes `opportunisticGraftPeers` of the eligible peers left that beat the median, or all of these; on no other
   * occasion any.
   */
  lemma OpportunisticRule(c: Config, s: State, score: PeerId -> real, passes: map<Topic, Pass>, now: int, s': State,
                          t: Topic, median: real)
    requires Beaten(c, s, score, passes, now, s') && t in s.mesh && t in s'.mesh && t in passes
    requires |s'.mesh[t] - ToSet(passes[t].outcome.opportunistic)| > 1 ==>
               InTheMiddle(s'.mesh[t] - ToSet(passes[t].outcome.opportunistic), score, median)
    ensures var o, n := passes[t].outcome, c.opportunisticGraftTicks;
            var mesh := s'.mesh[t] - ToSet(o.opportunistic);
            var better := Beating(c, s, t, score, now, ToSet(o.notEnough + o.quota), median);
            var due := n > 0 && (s.ticks + 1) % n == 0 && |mesh| > 1 && median < c.params.opportunisticGraftThreshold;
            && |o.opportunistic| == (if due then Min(c.params.opportunisticGraftPeers, |better|) else 0)
            && Distinct(o.opportunistic) && ToSet(o.opportunistic) <= better
  {
    hide *;
    PassOf(c, s, score, passes, now, s', t);
    var i, o := passes[t].inputs, passes[t].outcome;
    StartSets(c, s, t, score, now, i);
    TickIs(c, s, t, score, now, i);
    if |s'.mesh[t] - ToSet(o.opportunistic)| > 1 {
      MiddleIsMedian(s'.mesh[t] - ToSet(o.opportunistic), score, median);
    }
    OpportunisticExact(i, o, median);
    OpportunisticDistinct(i, o);
    BeatingLeft(c, s, t, score, now, i, o.notEnough + o.quota, median);
    OpportunisticAmong(i, o, median);
  }

  lemma TickIs(c: Config, s: State, t: Topic, score: PeerId -> real, now: int, i: Inputs)
    requires StartsFrom(c, s, t, score, now, i)
    ensures i.opportunisticTick <==> c.opportunisticGraftTicks > 0 && (s.ticks + 1) % c.opportunisticGraftTicks == 0
  {
    hide Reaches, StillListed, ToSet;
  }

  lemma BeatingLeft(c: Config, s: State, t: Topic, score: PeerId -> real, now: int, i: Inputs, taken: seq<PeerId>,
                    bar: real)
    requires t in s.mesh && i.score == score && ToSet(i.candidates) == Eligible(c, s, t, score, now)
    ensures Beating(c, s, t, score, now, ToSet(taken), bar) == Above(Remaining(i, taken), score, bar)
  {
    LeftAbove(i, taken, bar);
    hide Eligible, Above, Remaining, ToSet;
  }

  lemma OpportunisticAmong(i: Inputs, o: Outcome, bar: real)
    requires forall p :: p in o.opportunistic ==> p in Remaining(i, o.notEnough + o.quota) && i.score(p) > bar
    ensures ToSet(o.opportunistic) <= Above(Remaining(i, o.notEnough + o.quota), i.score, bar)
  {
    hide Remaining;
  }

  lemma OpportunisticDistinct(i: Inputs, o: Outcome)
    requires Maintained(i, o)
    ensures Distinct(o.opportunistic)
  {
    DistinctConcat(o.notEnough + o.quota, o.opportunistic);
  }

  lemma MiddleIsMedian(mesh: set<PeerId>, score: PeerId -> real, median: real)
    requires InTheMiddle(mesh, score, median)
    ensures MedianOf(mesh, score, median)
  {
    assert (set p | p in mesh && score(p) <= median) == AtMost(mesh, score, median);
    assert (set p | p in mesh && score(p) >= median) == mesh - Below(mesh, score, median);
  }

  lemma LeftAbove(i: Inputs, taken: seq<PeerId>, bar: real)
    ensures forall p :: p in Above(Remaining(i, taken), i.score, bar) <==>
              p in ToSet(i.candidates) && p !in ToSet(taken) && i.score(p) > bar
  {
    WithoutMembers(i.candidates, ToSet(taken));
  }
}
