/** What peers and publishers can rely on: answers to GRAFT, obedience to PRUNE, reach of a publication. */
module RouterAnswers {
  import opened Types
  import opened Seqs
  import opened RouterModel

  // ----- GRAFT

  predicate Refused(a: Answer) { a == DirectPeer || a == BackedOff || a == NegativeScore || a == MeshFull }

  /** After some topics of a GRAFT: those not named are as before, those named are in force or refused for good. */
  ghost predicate Answered(c: Config, id: PeerId, score: real, now: int, start: State, e: GraftEffect, t: Topic,
                           named: bool) {
    && t in start.mesh && t in e.s.mesh && e.s.outbound == start.outbound
    && (!named ==> t !in e.prune && e.s.mesh[t] == start.mesh[t])
    && (named && t !in e.prune ==> id in e.s.mesh[t])
    && (t in e.prune ==> Refused(AnswerTo(c, e.s, id, score, now, t)))
  }

  lemma RefusedAgain(c: Config, id: PeerId, score: real, now: int, e: GraftEffect, t: Topic)
    requires t in e.s.mesh && Refused(AnswerTo(c, e.s, id, score, now, t))
    ensures var e' := GraftOne(c, id, score, now, e, t);
            t in e'.s.mesh && e'.prune == e.prune + [t] && Refused(AnswerTo(c, e'.s, id, score, now, t))
  {
  }

  lemma OtherTopic(c: Config, id: PeerId, score: real, now: int, e: GraftEffect, t: Topic, other: Topic)
    requires t in e.s.mesh && other != t
    ensures var e' := GraftOne(c, id, score, now, e, other);
            && t in e'.s.mesh && e'.s.mesh[t] == e.s.mesh[t] && e'.s.outbound == e.s.outbound
            && (t in e'.prune <==> t in e.prune)
            && AnswerTo(c, e'.s, id, score, now, t) == AnswerTo(c, e.s, id, score, now, t)
  {
    hide Backed;
  }

  lemma AnsweredNext(c: Config, id: PeerId, score: real, now: int, start: State, e: GraftEffect, t: Topic,
                     named: bool, next: Topic)
    requires Answered(c, id, score, now, start, e, t, named)
    ensures Answered(c, id, score, now, start, GraftOne(c, id, score, now, e, next), t, named || next == t)
  {
    if next != t {
      OtherTopic(c, id, score, now, e, t, next);
      hide GraftOne, AnswerTo;
    } else {
      hide Backed, AddBackoff;
      if Refused(AnswerTo(c, e.s, id, score, now, t)) {
        RefusedAgain(c, id, score, now, e, t);
      } else {
        assert t !in e.prune;
      }
    }
  }

  lemma {:induction false} AllAnswered(c: Config, s: State, id: PeerId, score: real, graft: seq<Option<Topic>>,
                                       now: int, t: Topic)
    requires t in s.mesh
    ensures var e := GraftAll(c, id, score, now, GraftEffect(s, [], c.doPX, 0), graft);
            Answered(c, id, score, now, s, e, t, Some(t) in graft)
  {
    if graft != [] {
      var front, last := graft[..|graft| - 1], graft[|graft| - 1];
      AllAnswered(c, s, id, score, front, now, t);
      assert graft == front + [last];
      hide Answered, GraftOne;
      if last.Some? {
        AnsweredNext(c, id, score, now, s, GraftAll(c, id, score, now, GraftEffect(s, [], c.doPX, 0), front), t,
                     Some(t) in front, last.value);
      }
    }
  }

  /** A GRAFT for a joined topic is either in force or answered with PRUNE: never both, never neither. */
  lemma GraftAnsweredOnce(c: Config, s: State, id: PeerId, score: real, graft: seq<Option<Topic>>, now: int, t: Topic)
    requires t in s.mesh && Some(t) in graft
    ensures var r := GraftAll(c, id, score, now, GraftEffect(s, [], c.doPX, 0), graft);
            t in r.s.mesh && (id in r.s.mesh[t] <==> t !in r.prune)
  {
    AllAnswered(c, s, id, score, graft, now, t);
    var r := GraftAll(c, id, score, now, GraftEffect(s, [], c.doPX, 0), graft);
    hide GraftAll;
    assert Refused(AnswerTo(c, r.s, id, score, now, t)) ==> id !in r.s.mesh[t];
  }

  /** Nothing speaks against the peer in a joined topic. */
  ghost predicate Unsuspected(c: Config, s: State, id: PeerId, score: real, now: int, t: Topic) {
    t in s.mesh
    && (id in s.mesh[t]
        || (id !in c.direct && score >= 0.0 && !(HasBackoff(s.backoff, t, id) && now < s.backoff[t][id])))
  }

  ghost predicate Vouched(c: Config, id: PeerId, score: real, now: int, start: State, e: GraftEffect, t: Topic,
                          named: bool) {
    && e.s.mesh.Keys == start.mesh.Keys && (e.doPX ==> c.doPX)
    && (!named ==> SameEntry(start.backoff, e.s.backoff, t) && (t in start.mesh ==> e.s.mesh[t] == start.mesh[t]))
    && (named && e.doPX ==> Unsuspected(c, start, id, score, now, t))
  }

  lemma VouchedNext(c: Config, id: PeerId, score: real, now: int, start: State, e: GraftEffect, t: Topic, named: bool,
                    next: Topic)
    requires Vouched(c, id, score, now, start, e, t, named)
    ensures Vouched(c, id, score, now, start, GraftOne(c, id, score, now, e, next), t, named || next == t)
  {
    hide Backed;
  }

  lemma {:induction false} AllVouched(c: Config, s: State, id: PeerId, score: real, graft: seq<Option<Topic>>,
                                      now: int, t: Topic)
    ensures var e := GraftAll(c, id, score, now, GraftEffect(s, [], c.doPX, 0), graft);
            Vouched(c, id, score, now, s, e, t, Some(t) in graft)
  {
    if graft != [] {
      var front, last := graft[..|graft| - 1], graft[|graft| - 1];
      AllVouched(c, s, id, score, front, now, t);
      assert graft == front + [last];
      hide Vouched, GraftOne;
      if last.Some? {
        VouchedNext(c, id, score, now, s, GraftAll(c, id, score, now, GraftEffect(s, [], c.doPX, 0), front), t,
                    Some(t) in front, last.value);
      }
    }
  }

  /** Peer exchange is offered only to a peer that nothing speaks against in any of the topics it names. */
  lemma PxForTheUnsuspected(c: Config, s: State, id: PeerId, score: real, graft: seq<Option<Topic>>, now: int, t: Topic)
    requires Some(t) in graft && GraftAll(c, id, score, now, GraftEffect(s, [], c.doPX, 0), graft).doPX
    ensures c.doPX && Unsuspected(c, s, id, score, now, t)
  {
    AllVouched(c, s, id, score, graft, now, t);
    hide GraftAll, Unsuspected;
  }

  // ----- PRUNE

  /** The first entry for a topic that is not joined, where processing stops. */
  function Obeyed(s: State, prune: seq<PruneEntry>): seq<PruneEntry> {
    if prune == [] || PruneStops(s, prune[0]) then [] else [prune[0]] + Obeyed(s, prune[1..])
  }

  lemma StopsAlike(s: State, s': State, prune: seq<PruneEntry>)
    requires s.mesh.Keys == s'.mesh.Keys
    ensures Obeyed(s, prune) == Obeyed(s', prune)
  {
  }

  /** Every entry before that is obeyed: the peer is out of the mesh, and backed off for at least the time it asked. */
  lemma {:induction false} PruneObeyed(c: Config, s: State, id: PeerId, prune: seq<PruneEntry>, now: int, e: PruneEntry)
    requires e in Obeyed(s, prune) && e.topic.Some?
    ensures var s', t := PruneList(c, s, id, prune, now), e.topic.value;
            var asked := if e.backoff.Some? && e.backoff.value > 0 then 1000 * e.backoff.value else c.pruneBackoff;
            && t in s'.mesh && id !in s'.mesh[t]
            && (now + asked > 0 ==> t in s'.backoff && id in s'.backoff[t] && s'.backoff[t][id] >= now + asked)
    decreases |prune|
  {
    var first, rest := prune[0], prune[1..];
    var s1 := PruneOne(c, s, id, first, now);
    assert s1.mesh.Keys == s.mesh.Keys;
    StopsAlike(s, s1, rest);
    if e in Obeyed(s1, rest) {
      PruneObeyed(c, s1, id, rest, now, e);
    } else {
      assert e == first;
      StaysPruned(c, s1, id, rest, now, e.topic.value, PruneExpiry(c, e, now));
    }
  }

  lemma {:induction false} StaysPruned(c: Config, s: State, id: PeerId, prune: seq<PruneEntry>, now: int, t: Topic,
                                       expire: int)
    requires t in s.mesh && id !in s.mesh[t]
    requires expire > 0 ==> HasBackoff(s.backoff, t, id) && s.backoff[t][id] >= expire
    ensures var s' := PruneList(c, s, id, prune, now);
            && t in s'.mesh && id !in s'.mesh[t]
            && (expire > 0 ==> HasBackoff(s'.backoff, t, id) && s'.backoff[t][id] >= expire)
    decreases |prune|
  {
    if prune != [] && !PruneStops(s, prune[0]) {
      StaysPruned(c, PruneOne(c, s, id, prune[0], now), id, prune[1..], now, t, expire);
    }
  }

  // ----- publishing

  /** A publication to mesh peers reaches `D` of them and of the others above the threshold, or all there are. */
  lemma PublishReach(c: Config, s: State, t: Topic, score: PeerId -> real, tosend: set<PeerId>)
    requires ToMesh(c, s, t, score, tosend)
    ensures PeersIn(s.mesh, t) <= tosend
    ensures |tosend| >= Min(c.params.D, |PeersIn(s.mesh, t)| + |ExtraPool(c, s, t, score)|)
  {
    var mesh, pool := PeersIn(s.mesh, t), ExtraPool(c, s, t, score);
    PoolApart(c, s, t, score);
    hide ExtraPool, DirectAndFloodsub, PeersIn, RandomPick, Min;
    var extra :| tosend == DirectAndFloodsub(c, s, t, score) + (mesh + extra)
      && if |mesh| < c.params.D then RandomPick(pool, c.params.D - |mesh|, extra) else extra == {};
    ReachOf(mesh, pool, extra, tosend, c.params.D);
  }

  lemma PoolApart(c: Config, s: State, t: Topic, score: PeerId -> real)
    ensures ExtraPool(c, s, t, score) !! PeersIn(s.mesh, t)
  {
    hide Choosable, FloodsubPeers;
  }

  lemma ReachOf(mesh: set<PeerId>, pool: set<PeerId>, extra: set<PeerId>, tosend: set<PeerId>, D: nat)
    requires pool !! mesh && mesh + extra <= tosend
    requires if |mesh| < D then RandomPick(pool, D - |mesh|, extra) else extra == {}
    ensures mesh <= tosend && |tosend| >= Min(D, |mesh| + |pool|)
  {
    assert extra !! mesh;
    SubsetCardinality(mesh + extra, tosend);
  }
}
