/** The heartbeat's maintenance of one topic mesh. */
module MeshPass {
  import opened Types
  import opened Seqs
  import opened MeshSelection
  import opened SetUtils

  /** What the pass over one topic starts from; `score` is the table memoised for the whole heartbeat. */
  datatype Inputs = Inputs(
    start: set<PeerId>, candidates: seq<PeerId>, gossip: set<PeerId>, score: PeerId -> real,
    outbound: set<PeerId>, params: MeshParams, opportunisticTick: bool)
  {
    ghost predicate Valid() {
      && Distinct(candidates) && ToSet(candidates) !! start && gossip !! start
      && forall p :: p in candidates ==> score(p) >= 0.0
    }

    ghost function Survivors(): set<PeerId> { set p | p in start && score(p) >= 0.0 }
  }

  datatype Trim = Trim(order: seq<PeerId>, kept: seq<PeerId>, excess: seq<PeerId>)

  /** What it leaves: the mesh, the gossip targets, the prune list and the graft list split by reason. */
  datatype Outcome = Outcome(
    peers: set<PeerId>, gossip: set<PeerId>, pruned: seq<PeerId>,
    notEnough: seq<PeerId>, quota: seq<PeerId>, opportunistic: seq<PeerId>, trim: Option<Trim>)
  {
    function Grafted(): seq<PeerId> { notEnough + quota + opportunistic }

    /** The mesh at the outbound quota check. */
    ghost function AtQuota(): set<PeerId> { peers - ToSet(quota) - ToSet(opportunistic) }
  }

  /** Lists, mesh and gossip targets are in step with each other. */
  ghost predicate InStep(i: Inputs, o: Outcome) {
    && Distinct(o.pruned) && ToSet(o.pruned) <= i.start
    && Distinct(o.Grafted()) && ToSet(o.Grafted()) <= ToSet(i.candidates)
    && o.peers == i.start - ToSet(o.pruned) + ToSet(o.Grafted())
    && o.gossip == i.gossip + GossipWorthy(i, o.pruned) - ToSet(o.Grafted())
  }

  ghost function GossipWorthy(i: Inputs, pruned: seq<PeerId>): set<PeerId> {
    set p | p in pruned && i.score(p) >= i.params.gossipThreshold
  }

  /** `t` shares the mesh `was` out by a selection. */
  ghost predicate TrimOf(i: Inputs, t: Trim, was: set<PeerId>) {
    && ToSet(t.order) == was
    && Selection(t.order, t.kept, t.excess, i.score, i.params.D, i.params.Dscore, i.params.Dout, i.outbound)
  }

  /** A mesh short of `Dlo` is filled up to `D` with the first candidates, as far as they go. */
  ghost predicate Filled(i: Inputs, notEnough: seq<PeerId>) {
    var n := |i.Survivors()|;
    notEnough == if n < i.params.Dlo then FirstOf(i.candidates, i.params.D - n) else []
  }

  function FirstOf(s: seq<PeerId>, n: int): seq<PeerId> { s[..Min(Max(n, 0), |s|)] }

  /** Pruned are the negative peers and, when the mesh is above `Dhi`, those a selection does not keep. */
  ghost predicate Cut(i: Inputs, mesh: set<PeerId>, trim: Option<Trim>, pruned: set<PeerId>) {
    var negative := i.start - i.Survivors();
    if |mesh| > i.params.Dhi
    then trim.Some? && TrimOf(i, trim.value, mesh) && pruned == negative + ToSet(trim.value.excess)
    else trim == None && pruned == negative
  }

  /** The first outbound candidates make up for a mesh short of `Dout` outbound peers, as far as there are any. */
  ghost predicate QuotaMade(i: Inputs, mesh: set<PeerId>, left: seq<PeerId>, quota: seq<PeerId>) {
    var have := OutSize(mesh, i.outbound);
    quota == if |mesh| >= i.params.Dlo && have < i.params.Dout
             then Taken(left, i.outbound, i.params.Dout - have) else []
  }

  /** How many of `peers` are outbound. */
  ghost function OutSize(peers: set<PeerId>, ob: set<PeerId>): nat { |peers * ob| }

  /** Peers of `mesh` scoring below `bar`. */
  ghost function Below(mesh: set<PeerId>, score: PeerId -> real, bar: real): set<PeerId> {
    set p | p in mesh && score(p) < bar
  }

  ghost function AtMost(mesh: set<PeerId>, score: PeerId -> real, bar: real): set<PeerId> {
    set p | p in mesh && score(p) <= bar
  }

  /** The candidates scoring above `bar`. */
  ghost function Above(candidates: seq<PeerId>, score: PeerId -> real, bar: real): set<PeerId> {
    set p | p in candidates && score(p) > bar
  }

  /** More than half of the mesh scores at most `median`, and at least half scores no less: the upper median. */
  ghost predicate MedianOf(mesh: set<PeerId>, score: PeerId -> real, median: real) {
    && |AtMost(mesh, score, median)| >= |mesh| / 2 + 1
    && |mesh - Below(mesh, score, median)| >= |mesh| - |mesh| / 2
  }

  /** On a tick and below the threshold, the first candidates beating the median of the mesh are grafted. */
  ghost predicate OpportunisticMade(i: Inputs, mesh: set<PeerId>, left: seq<PeerId>, grafts: seq<PeerId>) {
    if i.opportunisticTick && |mesh| > 1
    then exists median :: MedianOf(mesh, i.score, median) && grafts == Improvers(i, left, median)
    else grafts == []
  }

  ghost function Improvers(i: Inputs, left: seq<PeerId>, median: real): seq<PeerId> {
    if median < i.params.opportunisticGraftThreshold
    then Taken(left, Above(left, i.score, median), i.params.opportunisticGraftPeers) else []
  }

  /** The candidates that have not been grafted yet. */
  function Remaining(i: Inputs, grafted: seq<PeerId>): seq<PeerId> { Without(i.candidates, ToSet(grafted)) }

  ghost predicate Maintained(i: Inputs, o: Outcome) {
    && InStep(i, o)
    && Filled(i, o.notEnough)
    && Cut(i, i.Survivors() + ToSet(o.notEnough), o.trim, ToSet(o.pruned))
    && QuotaMade(i, o.AtQuota(), Remaining(i, o.notEnough), o.quota)
    && OpportunisticMade(i, o.peers - ToSet(o.opportunistic), Remaining(i, o.notEnough + o.quota), o.opportunistic)
  }

  /** The pass's local state agrees with its lists at every step. */
  ghost predicate Consistent(i: Inputs, peers: set<PeerId>, gossip: set<PeerId>, pruned: seq<PeerId>,
                             grafted: seq<PeerId>, left: seq<PeerId>) {
    && Distinct(pruned) && ToSet(pruned) <= i.start
    && Distinct(grafted) && ToSet(grafted) <= ToSet(i.candidates)
    && peers == i.start - ToSet(pruned) + ToSet(grafted)
    && gossip == i.gossip + GossipWorthy(i, pruned) - ToSet(grafted)
    && Distinct(left) && left == Remaining(i, grafted) && ToSet(left) == ToSet(i.candidates) - ToSet(grafted)
  }

  lemma PruneKeepsConsistent(i: Inputs, peers: set<PeerId>, gossip: set<PeerId>, pruned: seq<PeerId>,
                             grafted: seq<PeerId>, left: seq<PeerId>, id: PeerId)
    requires i.Valid() && Consistent(i, peers, gossip, pruned, grafted, left) && id in peers && id in i.start
    ensures Consistent(i, peers - {id}, if i.score(id) >= i.params.gossipThreshold then gossip + {id} else gossip,
                       pruned + [id], grafted, left)
  {
    assert ToSet(pruned + [id]) == ToSet(pruned) + {id};
  }

  lemma GraftKeepsConsistent(i: Inputs, peers: set<PeerId>, gossip: set<PeerId>, pruned: seq<PeerId>,
                             grafted: seq<PeerId>, was: seq<PeerId>, more: seq<PeerId>)
    requires i.Valid() && Consistent(i, peers, gossip, pruned, grafted, was)
    requires Distinct(more) && ToSet(more) <= ToSet(was)
    ensures Consistent(i, peers + ToSet(more), gossip - ToSet(more), pruned, grafted + more,
                       Without(was, ToSet(more)))
  {
    RemainingFacts(was, more);
    WithoutDistinct(was, ToSet(more));
    ConcatFacts(grafted, more);
    WithoutTwice(i.candidates, ToSet(grafted), ToSet(more));
    hide Without, GossipWorthy, Distinct;
  }

  class TopicPass {
    const inputs: Inputs
    const candidates: OrderedSet<PeerId>
    var peers: set<PeerId>
    var gossip: set<PeerId>
    var pruned: seq<PeerId>
    var grafted: seq<PeerId>

    constructor (i: Inputs, candidates: OrderedSet<PeerId>)
      requires i.Valid() && candidates.Valid() && i.candidates == candidates.items
      ensures Valid() && inputs == i && this.candidates == candidates
      ensures peers == i.start && pruned == [] && grafted == []
    {
      inputs := i;
      this.candidates := candidates;
      peers, gossip := i.start, i.gossip;
      pruned, grafted := [], [];
      new;
      RestrictNone(i.candidates, ToSet(grafted));
    }

    ghost predicate Valid()
      reads this, candidates
    {
      && inputs.Valid() && candidates.Valid()
      && Consistent(inputs, peers, gossip, pruned, grafted, candidates.items)
    }

    method PrunePeer(id: PeerId)
      requires Valid() && id in peers && id in inputs.start
      modifies this
      ensures Valid() && peers == old(peers) - {id}
      ensures pruned == old(pruned) + [id] && grafted == old(grafted)
    {
      PruneKeepsConsistent(inputs, peers, gossip, pruned, grafted, candidates.items, id);
      hide Consistent, GossipWorthy;
      peers := peers - {id};
      if inputs.score(id) >= inputs.params.gossipThreshold {
        gossip := gossip + {id};
      }
      pruned := pruned + [id];
    }

    /** `id` was just taken out of the candidates. */
    method GraftPeer(id: PeerId)
      modifies this
      ensures peers == old(peers) + {id} && gossip == old(gossip) - {id}
      ensures grafted == old(grafted) + [id] && pruned == old(pruned)
    {
      peers := peers + {id};
      gossip := gossip - {id};
      grafted := grafted + [id];
    }

    method GraftAll(newPeers: seq<PeerId>)
      modifies this
      ensures peers == old(peers) + ToSet(newPeers) && gossip == old(gossip) - ToSet(newPeers)
      ensures grafted == old(grafted) + newPeers && pruned == old(pruned)
    {
      for k := 0 to |newPeers|
        invariant peers == old(peers) + ToSet(newPeers[..k]) && gossip == old(gossip) - ToSet(newPeers[..k])
        invariant grafted == old(grafted) + newPeers[..k] && pruned == old(pruned)
      {
        assert newPeers[..k + 1] == newPeers[..k] + [newPeers[k]];
        assert ToSet(newPeers[..k + 1]) == ToSet(newPeers[..k]) + {newPeers[k]};
        GraftPeer(newPeers[k]);
      }
      assert newPeers[..|newPeers|] == newPeers;
    }

    /** Grafts the first `ineed` candidates that satisfy `cond`. */
    method GraftSome(ineed: int, cond: PeerId -> bool) returns (newPeers: seq<PeerId>)
      requires Valid()
      modifies this, candidates
      ensures Valid() && Distinct(newPeers) && pruned == old(pruned)
      ensures newPeers == Taken(old(candidates.items), Satisfying(old(candidates.items), cond), ineed)
      ensures grafted == old(grafted) + newPeers && peers == old(peers) + ToSet(newPeers)
    {
      hide Restrict, Without, Taken, Satisfying, ToSet, Distinct, GossipWorthy, Consistent, inputs.Valid;
      ghost var was := candidates.items;
      newPeers := RemoveItems(candidates, ineed, cond);
      TakenFacts(was, Satisfying(was, cond), ineed);
      GraftKeepsConsistent(inputs, peers, gossip, pruned, grafted, was, newPeers);
      GraftAll(newPeers);
    }

    method PruneAll(ids: seq<PeerId>)
      requires Valid() && Distinct(ids) && ToSet(ids) <= peers && ToSet(ids) <= inputs.start
      modifies this
      ensures Valid() && peers == old(peers) - ToSet(ids)
      ensures pruned == old(pruned) + ids && grafted == old(grafted)
    {
      for k := 0 to |ids|
        invariant Valid() && peers == old(peers) - ToSet(ids[..k])
        invariant pruned == old(pruned) + ids[..k] && grafted == old(grafted)
      {
        assert ids[..k + 1] == ids[..k] + [ids[k]];
        assert ToSet(ids[..k + 1]) == ToSet(ids[..k]) + {ids[k]};
        assert ids[k] in ToSet(ids) && ids[k] !in ToSet(ids[..k]);
        hide Consistent;
        PrunePeer(ids[k]);
      }
      assert ids[..|ids|] == ids;
    }

    /** The peers of the mesh with a negative score. */
    method NegativePeers() returns (negative: seq<PeerId>)
      ensures Distinct(negative) && ToSet(negative) == Below(peers, inputs.score, 0.0)
    {
      var all := Enumerate(peers);
      negative := [];
      for k := 0 to |all|
        invariant Distinct(negative) && ToSet(negative) == Below(ToSet(all[..k]), inputs.score, 0.0)
      {
        assert all[..k + 1] == all[..k] + [all[k]];
        assert ToSet(all[..k + 1]) == ToSet(all[..k]) + {all[k]};
        assert all[k] !in ToSet(all[..k]);
        if inputs.score(all[k]) < 0.0 {
          assert ToSet(negative + [all[k]]) == ToSet(negative) + {all[k]};
          negative := negative + [all[k]];
        }
      }
      assert all[..|all|] == all;
    }

    /** Drops the peers with a negative score. */
    method DropNegative()
      requires Valid() && pruned == [] && grafted == []
      modifies this
      ensures Valid() && peers == inputs.Survivors() && grafted == []
      ensures ToSet(pruned) == inputs.start - inputs.Survivors()
    {
      assert peers == inputs.start;
      var negative := NegativePeers();
      assert inputs.start - Below(inputs.start, inputs.score, 0.0) == inputs.Survivors();
      hide Consistent;
      PruneAll(negative);
    }

    /** Fills a mesh below `Dlo` up to `D`. */
    method FillMesh() returns (newPeers: seq<PeerId>)
      requires Valid() && grafted == [] && peers == inputs.Survivors() && inputs.params.Dlo <= inputs.params.D
      modifies this, candidates
      ensures Valid() && pruned == old(pruned) && grafted == newPeers && peers == old(peers) + ToSet(newPeers)
      ensures Filled(inputs, newPeers)
    {
      newPeers := [];
      if |peers| < inputs.params.Dlo {
        AllRemain(inputs, peers, gossip, pruned, grafted, candidates.items);
        hide Consistent, inputs.Valid, ToSet, Taken, Satisfying, Distinct, Restrict, FirstOf, Filled;
        var any := (p: PeerId) => true;
        TakenAll(candidates.items, any, inputs.params.D - |peers|);
        FilledBy(inputs, peers);
        newPeers := GraftSome(inputs.params.D - |peers|, any);
      }
    }

    /** Cuts a mesh above `Dhi` down to `D`. */
    method TrimExcess() returns (ghost trim: Option<Trim>)
      requires Valid() && inputs.params.Documented() && (|peers| > inputs.params.Dhi ==> grafted == [])
      requires ToSet(pruned) == inputs.start - inputs.Survivors()
      modifies this
      ensures Valid() && grafted == old(grafted)
      ensures Cut(inputs, old(peers), trim, ToSet(pruned))
    {
      if |peers| <= inputs.params.Dhi {
        return None;
      }
      assert ToSet(grafted) == {} && peers <= inputs.start;
      hide Consistent, inputs.Valid, Selection, ToSet, Distinct, TrimOf, Cut;
      var kept, excess;
      ghost var order;
      var q := inputs.params;
      kept, excess, order := SelectPeers(peers, inputs.score, q.D, q.Dscore, q.Dout, inputs.outbound);
      CutBy(inputs, peers, order, kept, excess, pruned);
      PruneAll(excess);
      return Some(Trim(order, kept, excess));
    }

    /** Grafts outbound candidates when the mesh has fewer than `Dout` outbound peers. */
    method GraftOutbound() returns (newPeers: seq<PeerId>)
      requires Valid()
      modifies this, candidates
      ensures Valid() && pruned == old(pruned) && grafted == old(grafted) + newPeers
      ensures peers == old(peers) + ToSet(newPeers)
      ensures QuotaMade(inputs, old(peers), old(candidates.items), newPeers)
    {
      var count := |peers * inputs.outbound|;
      newPeers := [];
      assert ToSet(newPeers) == {} && count == OutSize(peers, inputs.outbound);
      QuotaIs(inputs, peers, candidates.items);
      hide *;
      if |peers| >= inputs.params.Dlo && count < inputs.params.Dout {
        newPeers := GraftSomeOutbound(inputs.params.Dout - count);
      }
    }

    method GraftSomeOutbound(ineed: int) returns (newPeers: seq<PeerId>)
      requires Valid()
      modifies this, candidates
      ensures Valid() && pruned == old(pruned) && grafted == old(grafted) + newPeers
      ensures peers == old(peers) + ToSet(newPeers)
      ensures newPeers == Taken(old(candidates.items), inputs.outbound, ineed)
    {
      hide Consistent, inputs.Valid, ToSet, Taken, Satisfying, Distinct, Restrict, Min, Max;
      var ob := inputs.outbound;
      var isOutbound := (p: PeerId) => p in ob;
      TakenWhere(candidates.items, isOutbound, ob, ineed);
      newPeers := GraftSome(ineed, isOutbound);
    }

    /** Grafts candidates better than the median, when the median is below the threshold. */
    method GraftOpportunistically(tick: bool) returns (newPeers: seq<PeerId>)
      requires Valid() && tick == inputs.opportunisticTick
      modifies this, candidates
      ensures Valid() && pruned == old(pruned) && grafted == old(grafted) + newPeers
      ensures peers == old(peers) + ToSet(newPeers)
      ensures OpportunisticMade(inputs, old(peers), old(candidates.items), newPeers)
    {
      newPeers := [];
      assert ToSet(newPeers) == {};
      ghost var mesh, left := peers, candidates.items;
      NoOpportunity(inputs, mesh, left);
      hide *;
      if tick && |peers| > 1 {
        var medianScore := Median();
        OpportunityTaken(inputs, mesh, left, medianScore);
        ImproversAre(inputs, left, medianScore);
        if medianScore < inputs.params.opportunisticGraftThreshold {
          var s := inputs.score;
          var better := (p: PeerId) => s(p) > medianScore;
          SatisfyingAbove(left, s, medianScore, better);
          newPeers := GraftSome(inputs.params.opportunisticGraftPeers, better);
        }
      }
    }

    /** The score of the middle peer. */
    method Median() returns (medianScore: real)
      requires |peers| > 0
      ensures MedianOf(peers, inputs.score, medianScore)
    {
      var listed := Enumerate(peers);
      var s := inputs.score;
      var peersList := SortByScore(listed, (p: PeerId) => -s(p));
      PermutationFacts(listed, peersList);
      var medianIndex := |peers| / 2;
      medianScore := inputs.score(peersList[medianIndex]);
      MiddleIsMedian(peers, inputs.score, peersList);
    }

    /** The whole pass. */
    method Maintain(tick: bool) returns (ghost o: Outcome)
      requires Valid() && inputs.params.Documented() && tick == inputs.opportunisticTick
      requires pruned == [] && grafted == []
      modifies this, candidates
      ensures Valid() && Maintained(inputs, o)
      ensures o.peers == peers && o.gossip == gossip && o.pruned == pruned && o.Grafted() == grafted
    {
      hide Consistent, inputs.Valid, Maintained, ToSet, Taken, Distinct, Below, Filled, Cut, QuotaMade,
        OpportunisticMade;
      DropNegative();
      var notEnough := FillMesh();
      FilledSize(inputs, peers, gossip, pruned, grafted, candidates.items);
      ghost var filled := peers;
      ghost var trim := TrimExcess();
      ghost var atQuota, gossipThen, left := peers, gossip, candidates.items;
      var quota := GraftOutbound();
      ghost var afterQuota, gossipAfter, leftAfter := peers, gossip, candidates.items;
      var opportunistic := GraftOpportunistically(tick);
      o := Outcome(peers, gossip, pruned, notEnough, quota, opportunistic, trim);
      assert grafted == o.Grafted();
      Assemble(inputs, o, filled, atQuota, gossipThen, left, afterQuota, gossipAfter, leftAfter, candidates.items);
    }
  }

  lemma AllRemain(i: Inputs, peers: set<PeerId>, gossip: set<PeerId>, pruned: seq<PeerId>, grafted: seq<PeerId>,
                  left: seq<PeerId>)
    requires Consistent(i, peers, gossip, pruned, grafted, left) && grafted == []
    ensures left == i.candidates
  {
    RestrictNone(i.candidates, ToSet(grafted));
    hide Distinct, GossipWorthy;
  }

  lemma FilledBy(i: Inputs, survivors: set<PeerId>)
    requires survivors == i.Survivors() && |survivors| < i.params.Dlo
    ensures Filled(i, FirstOf(i.candidates, i.params.D - |survivors|))
  {
  }

  /** Filling keeps a mesh within `Dhi`; only one not filled can exceed it. */
  lemma FilledSize(i: Inputs, peers: set<PeerId>, gossip: set<PeerId>, pruned: seq<PeerId>,
                   grafted: seq<PeerId>, left: seq<PeerId>)
    requires i.Valid() && Consistent(i, peers, gossip, pruned, grafted, left) && i.params.Documented()
    requires ToSet(pruned) == i.start - i.Survivors() && Filled(i, grafted)
    ensures peers == i.Survivors() + ToSet(grafted) && |peers| == |i.Survivors()| + |grafted|
    ensures |peers| > i.params.Dhi ==> grafted == []
  {
    DistinctCardinality(grafted);
    assert i.Survivors() !! ToSet(grafted);
  }

  /** The facts the five steps establish add up to the pass's contract. */
  lemma Assemble(i: Inputs, o: Outcome, filled: set<PeerId>, atQuota: set<PeerId>, gossipThen: set<PeerId>,
                 left: seq<PeerId>, afterQuota: set<PeerId>, gossipAfter: set<PeerId>, leftAfter: seq<PeerId>,
                 leftNow: seq<PeerId>)
    requires i.Valid() && Filled(i, o.notEnough)
    requires filled == i.Survivors() + ToSet(o.notEnough) && Cut(i, filled, o.trim, ToSet(o.pruned))
    requires Consistent(i, atQuota, gossipThen, o.pruned, o.notEnough, left)
    requires QuotaMade(i, atQuota, left, o.quota) && afterQuota == atQuota + ToSet(o.quota)
    requires Consistent(i, afterQuota, gossipAfter, o.pruned, o.notEnough + o.quota, leftAfter)
    requires OpportunisticMade(i, afterQuota, leftAfter, o.opportunistic)
    requires o.peers == afterQuota + ToSet(o.opportunistic)
    requires Consistent(i, o.peers, o.gossip, o.pruned, o.Grafted(), leftNow)
    ensures Maintained(i, o)
  {
    hide Filled, Cut, QuotaMade, OpportunisticMade, GossipWorthy, Distinct, ToSet, Remaining;
    DistinctConcat(o.notEnough + o.quota, o.opportunistic);
    DistinctConcat(o.notEnough, o.quota);
    SetsAdd(i.start - ToSet(o.pruned), ToSet(o.notEnough), ToSet(o.quota), ToSet(o.opportunistic));
  }

  lemma SetsAdd(base: set<PeerId>, a: set<PeerId>, b: set<PeerId>, c: set<PeerId>)
    requires base !! b && base !! c && a !! b !! c
    ensures base + (a + b + c) - b - c == base + a
    ensures base + (a + b + c) - c == base + a + b
  {
  }

  lemma NoOpportunity(i: Inputs, mesh: set<PeerId>, left: seq<PeerId>)
    ensures !i.opportunisticTick || |mesh| <= 1 ==> OpportunisticMade(i, mesh, left, [])
  {
  }

  lemma OpportunityTaken(i: Inputs, mesh: set<PeerId>, left: seq<PeerId>, median: real)
    requires i.opportunisticTick && |mesh| > 1 && MedianOf(mesh, i.score, median)
    ensures OpportunisticMade(i, mesh, left, Improvers(i, left, median))
  {
    hide MedianOf, Improvers;
  }

  lemma ImproversAre(i: Inputs, left: seq<PeerId>, median: real)
    ensures Improvers(i, left, median)
         == if median < i.params.opportunisticGraftThreshold
            then Taken(left, Above(left, i.score, median), i.params.opportunisticGraftPeers) else []
  {
  }

  lemma SatisfyingAbove(left: seq<PeerId>, score: PeerId -> real, median: real, better: PeerId -> bool)
    requires forall p :: better(p) <==> score(p) > median
    ensures Satisfying(left, better) == Above(left, score, median)
  {
  }

  lemma QuotaIs(i: Inputs, mesh: set<PeerId>, left: seq<PeerId>)
    ensures var have := OutSize(mesh, i.outbound);
            QuotaMade(i, mesh, left, if |mesh| >= i.params.Dlo && have < i.params.Dout
                                     then Taken(left, i.outbound, i.params.Dout - have) else [])
  {
  }

  /** The element in the middle of the ascending list has the median score. */
  lemma MiddleIsMedian(mesh: set<PeerId>, score: PeerId -> real, ascending: seq<PeerId>)
    requires Distinct(ascending) && ToSet(ascending) == mesh && |ascending| == |mesh| > 0
    requires Ranked(ascending, p => -score(p))
    ensures MedianOf(mesh, score, score(ascending[|mesh| / 2]))
  {
    var m := |mesh| / 2;
    var low, high, median := ascending[..m + 1], ascending[m..], score(ascending[m]);
    DistinctCardinality(low);
    DistinctCardinality(high);
    forall p | p in low ensures p in AtMost(mesh, score, median) {
      assert p in ToSet(ascending);
    }
    forall p | p in high ensures p in mesh - Below(mesh, score, median) {
      assert p in ToSet(ascending);
    }
    SubsetCardinality(ToSet(low), AtMost(mesh, score, median));
    SubsetCardinality(ToSet(high), mesh - Below(mesh, score, median));
  }

  lemma CutBy(i: Inputs, mesh: set<PeerId>, order: seq<PeerId>, kept: seq<PeerId>, excess: seq<PeerId>,
              pruned: seq<PeerId>)
    requires ToSet(order) == mesh && |mesh| > i.params.Dhi && ToSet(pruned) == i.start - i.Survivors()
    requires Selection(order, kept, excess, i.score, i.params.D, i.params.Dscore, i.params.Dout, i.outbound)
    ensures Cut(i, mesh, Some(Trim(order, kept, excess)), ToSet(pruned + excess))
    ensures Distinct(excess) && ToSet(excess) <= mesh
  {
    hide Selection, Distinct, ToSet;
    SelectionPartitions(order, kept, excess, i.score, i.params.D, i.params.Dscore, i.params.Dout, i.outbound);
    ToSetConcat(pruned, excess);
  }

  lemma RemainingFacts(was: seq<PeerId>, newPeers: seq<PeerId>)
    ensures ToSet(Without(was, ToSet(newPeers))) == ToSet(was) - ToSet(newPeers)
  {
    WithoutMembers(was, ToSet(newPeers));
  }

  lemma TakenFacts(s: seq<PeerId>, xs: set<PeerId>, ineed: int)
    requires Distinct(s)
    ensures Distinct(Taken(s, xs, ineed)) && ToSet(Taken(s, xs, ineed)) <= ToSet(s) && ToSet(Taken(s, xs, ineed)) <= xs
    ensures |ToSet(Taken(s, xs, ineed))| == |Taken(s, xs, ineed)| == Min(Max(ineed, 0), |ToSet(s) * xs|)
    ensures xs >= ToSet(s) ==> |Taken(s, xs, ineed)| == Min(Max(ineed, 0), |s|)
  {
    RestrictDistinct(s, xs);
    RestrictMembers(s, xs);
    RestrictCardinality(s, xs);
    DistinctCardinality(s);
    assert xs >= ToSet(s) ==> ToSet(s) * xs == ToSet(s);
    DistinctCardinality(Taken(s, xs, ineed));
  }

  /** What is taken when `cond` means membership in `xs`. */
  lemma TakenWhere(s: seq<PeerId>, cond: PeerId -> bool, xs: set<PeerId>, ineed: int)
    requires forall p :: cond(p) <==> p in xs
    ensures Taken(s, Satisfying(s, cond), ineed) == Taken(s, xs, ineed)
  {
    RestrictWithin(s, Satisfying(s, cond), xs);
  }

  lemma TakenAll(s: seq<PeerId>, cond: PeerId -> bool, ineed: int)
    requires forall p :: cond(p)
    ensures Taken(s, Satisfying(s, cond), ineed) == FirstOf(s, ineed)
  {
    RestrictAll(s, Satisfying(s, cond));
  }

  lemma ToSetConcat(a: seq<PeerId>, b: seq<PeerId>)
    ensures ToSet(a + b) == ToSet(a) + ToSet(b)
  {
  }

  lemma ConcatFacts(before: seq<PeerId>, more: seq<PeerId>)
    requires Distinct(before) && Distinct(more) && ToSet(more) !! ToSet(before)
    ensures Distinct(before + more) && ToSet(before + more) == ToSet(before) + ToSet(more)
  {
    forall x, y | 0 <= x < y < |before + more| ensures (before + more)[x] != (before + more)[y] {
      if x < |before| <= y {
        assert before[x] in ToSet(before) && more[y - |before|] in ToSet(more);
      }
    }
  }
}
