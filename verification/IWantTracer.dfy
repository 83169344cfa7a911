/** Promises to deliver requested messages, and the peers who break them. */
module IWantTracing {
  import opened Types
  import opened Seqs
  import opened TimeCache
  import Deliveries

  /** Per message and peer, when the promise expires. */
  type Promises = map<MsgId, map<PeerId, int>>

  datatype Event =
    | Promise(from: PeerId, msg: MsgId)
    | ReportBroken
    | Delivered(msg: MsgId)
    | Rejected(msg: MsgId, reason: Deliveries.RejectReason)
    | Cleared

  datatype Timed = Timed(e: Event, now: int)

  predicate Outstanding(ps: Promises, m: MsgId, p: PeerId) { m in ps && p in ps[m] }

  predicate IsBroken(ps: Promises, m: MsgId, p: PeerId, now: int) { Outstanding(ps, m, p) && ps[m][p] < now }

  /** A promise already given keeps its expiry. */
  function WithPromise(ps: Promises, m: MsgId, p: PeerId, expire: int): Promises {
    var byPeer := if m in ps then ps[m] else map[];
    ps[m := if p in byPeer then byPeer else byPeer[p := expire]]
  }

  function Unbroken(byPeer: map<PeerId, int>, now: int): map<PeerId, int> {
    map p | p in byPeer && byPeer[p] >= now :: byPeer[p]
  }

  /** What is left when the broken promises are taken away; messages without promises disappear. */
  function Kept(ps: Promises, now: int): Promises {
    map m | m in ps && Unbroken(ps[m], now) != map[] :: Unbroken(ps[m], now)
  }

  function Next(ps: Promises, followupMs: int, e: Event, now: int): Promises {
    match e
    case Promise(from, msg) => WithPromise(ps, msg, from, now + followupMs)
    case ReportBroken => Kept(ps, now)
    case Delivered(msg) => ps - {msg}
    case Rejected(msg, reason) => if reason == Deliveries.Error then ps else ps - {msg}
    case Cleared => map[]
  }

  function Run(followupMs: int, steps: seq<Timed>): Promises {
    if steps == [] then map[]
    else
      var last := steps[|steps| - 1];
      Next(Run(followupMs, steps[..|steps| - 1]), followupMs, last.e, last.now)
  }

  // ----- what becomes of a promise

  ghost predicate NoEmptyMessage(ps: Promises) { forall m :: m in ps ==> ps[m] != map[] }

  /** No run leaves a message without promises in the table. */
  lemma {:induction false} NeverEmpty(followupMs: int, steps: seq<Timed>)
    ensures NoEmptyMessage(Run(followupMs, steps))
  {
    if steps != [] {
      var before, last := Run(followupMs, steps[..|steps| - 1]), steps[|steps| - 1];
      NeverEmpty(followupMs, steps[..|steps| - 1]);
      if last.e.Promise? {
        assert last.e.from in Next(before, followupMs, last.e, last.now)[last.e.msg];
      }
    }
  }

  /**
   * The only ways out of the table: broken after the expiry, delivered, rejected for another reason than Error,
   * cleared.
   */
  predicate MayLeave(ps: Promises, e: Event, now: int, m: MsgId, p: PeerId) {
    || (e.ReportBroken? && IsBroken(ps, m, p, now))
    || (e.Delivered? && e.msg == m)
    || (e.Rejected? && e.msg == m && e.reason != Deliveries.Error)
    || e.Cleared?
  }

  /** A step takes a promise away exactly for one of these reasons, and otherwise keeps it with its expiry. */
  lemma LeavesIff(ps: Promises, followupMs: int, e: Event, now: int, m: MsgId, p: PeerId)
    requires Outstanding(ps, m, p)
    ensures Outstanding(Next(ps, followupMs, e, now), m, p) <==> !MayLeave(ps, e, now, m, p)
    ensures Outstanding(Next(ps, followupMs, e, now), m, p) ==> Next(ps, followupMs, e, now)[m][p] == ps[m][p]
  {
    if e.ReportBroken? {
      KeptIff(ps, now, m, p);
      hide Kept;
    }
  }

  lemma KeptIff(ps: Promises, now: int, m: MsgId, p: PeerId)
    requires Outstanding(ps, m, p)
    ensures Outstanding(Kept(ps, now), m, p) <==> ps[m][p] >= now
    ensures Outstanding(Kept(ps, now), m, p) ==> Kept(ps, now)[m][p] == ps[m][p]
  {
    var left := Unbroken(ps[m], now);
    assert p in left <==> ps[m][p] >= now;
  }

  lemma ComesOnlyByPromise(ps: Promises, followupMs: int, e: Event, now: int, m: MsgId, p: PeerId)
    requires !Outstanding(ps, m, p)
    ensures Outstanding(Next(ps, followupMs, e, now), m, p) <==> e == Promise(p, m)
    ensures Outstanding(Next(ps, followupMs, e, now), m, p) ==> Next(ps, followupMs, e, now)[m][p] == now + followupMs
  {
  }

  /** How often a promise of `p` for `m` entered the table, and how often one left it. */
  function Entered(followupMs: int, steps: seq<Timed>, m: MsgId, p: PeerId): nat {
    if steps == [] then 0
    else
      var n := |steps| - 1;
      var was, now := Outstanding(Run(followupMs, steps[..n]), m, p), Outstanding(Run(followupMs, steps), m, p);
      Entered(followupMs, steps[..n], m, p) + if !was && now then 1 else 0
  }

  function LeftFor(followupMs: int, steps: seq<Timed>, m: MsgId, p: PeerId): nat {
    if steps == [] then 0
    else
      var n := |steps| - 1;
      LeftFor(followupMs, steps[..n], m, p)
      + if Outstanding(Run(followupMs, steps[..n]), m, p)
           && MayLeave(Run(followupMs, steps[..n]), steps[n].e, steps[n].now, m, p)
        then 1 else 0
  }

  /** Every promise that entered has left for one of the reasons, once, or is still outstanding. */
  lemma {:induction false} Conservation(followupMs: int, steps: seq<Timed>, m: MsgId, p: PeerId)
    ensures Entered(followupMs, steps, m, p)
         == LeftFor(followupMs, steps, m, p) + if Outstanding(Run(followupMs, steps), m, p) then 1 else 0
  {
    if steps != [] {
      var n := |steps| - 1;
      var was, last := Run(followupMs, steps[..n]), steps[n];
      Conservation(followupMs, steps[..n], m, p);
      if Outstanding(was, m, p) {
        LeavesIff(was, followupMs, last.e, last.now, m, p);
      }
      hide Next, MayLeave;
    }
  }

  /** The promise was given at step `k` and is still the same one. */
  ghost predicate GivenAt(followupMs: int, steps: seq<Timed>, m: MsgId, p: PeerId, k: nat) {
    && k < |steps| && steps[k].e == Promise(p, m) && !Outstanding(Run(followupMs, steps[..k]), m, p)
    && Outstanding(Run(followupMs, steps), m, p) && Run(followupMs, steps)[m][p] == steps[k].now + followupMs
    && forall i :: k < i <= |steps| ==> Outstanding(Run(followupMs, steps[..i]), m, p)
  }

  /**
   * Every outstanding promise was given at some step, has been outstanding since, and expires `followupMs` after
   * that step.
   */
  lemma {:induction false} OutstandingWasGiven(followupMs: int, steps: seq<Timed>, m: MsgId, p: PeerId)
    requires Outstanding(Run(followupMs, steps), m, p)
    ensures exists k: nat :: GivenAt(followupMs, steps, m, p, k)
  {
    var n := |steps| - 1;
    var before, last := steps[..n], steps[n];
    var was := Run(followupMs, before);
    assert steps[..|steps|] == steps;
    if Outstanding(was, m, p) {
      OutstandingWasGiven(followupMs, before, m, p);
      LeavesIff(was, followupMs, last.e, last.now, m, p);
      assert Run(followupMs, steps) == Next(was, followupMs, last.e, last.now);
      hide Run, Next, MayLeave;
      var k: nat :| GivenAt(followupMs, before, m, p, k);
      assert before[..k] == steps[..k];
      forall i | k < i <= |steps| ensures Outstanding(Run(followupMs, steps[..i]), m, p) {
        if i <= n {
          assert steps[..i] == before[..i];
        }
      }
      assert GivenAt(followupMs, steps, m, p, k);
    } else {
      ComesOnlyByPromise(was, followupMs, last.e, last.now, m, p);
      assert GivenAt(followupMs, steps, m, p, n);
    }
  }

  /** A peer is reported for a promise only once more than `followupMs` have passed since it was given. */
  lemma BrokenOnlyAfterExpiry(followupMs: int, steps: seq<Timed>, m: MsgId, p: PeerId, now: int)
    requires IsBroken(Run(followupMs, steps), m, p, now)
    ensures exists k :: 0 <= k < |steps| && steps[k].e == Promise(p, m) && steps[k].now + followupMs < now
  {
    OutstandingWasGiven(followupMs, steps, m, p);
    var k: nat :| GivenAt(followupMs, steps, m, p, k);
  }

  // ----- counting broken promises

  /** The messages of `ms` for which the peer broke its promise. */
  ghost function BrokenIn(ps: Promises, ms: set<MsgId>, p: PeerId, now: int): set<MsgId> {
    set m | m in ms && IsBroken(ps, m, p, now)
  }

  /** `counts` tells how many promises for messages of `ms` each peer broke; peers who broke none are left out. */
  ghost predicate Counts(ps: Promises, ms: set<MsgId>, now: int, counts: map<PeerId, nat>) {
    forall p :: CountOf(counts, p) == |BrokenIn(ps, ms, p, now)| && (p in counts ==> counts[p] > 0)
  }

  function CountOf(counts: map<PeerId, nat>, p: PeerId): nat { if p in counts then counts[p] else 0 }

  function Expired(byPeer: map<PeerId, int>, now: int): set<PeerId> { set p | p in byPeer && byPeer[p] < now }

  /** One more for each of `ps`. */
  function Incremented(counts: map<PeerId, nat>, ps: set<PeerId>): map<PeerId, nat> {
    map p | p in counts.Keys + ps :: CountOf(counts, p) + if p in ps then 1 else 0
  }

  lemma CountsNext(ps: Promises, ms: set<MsgId>, m: MsgId, now: int, counts: map<PeerId, nat>)
    requires m in ps && m !in ms && Counts(ps, ms, now, counts)
    ensures Counts(ps, ms + {m}, now, Incremented(counts, Expired(ps[m], now)))
  {
    var counts' := Incremented(counts, Expired(ps[m], now));
    forall p ensures CountOf(counts', p) == |BrokenIn(ps, ms + {m}, p, now)| && (p in counts' ==> counts'[p] > 0) {
      BrokenNext(ps, ms, m, p, now);
      assert CountOf(counts, p) == |BrokenIn(ps, ms, p, now)| && (p in counts ==> counts[p] > 0);
      hide BrokenIn, Expired, Counts;
    }
    hide *;
    Counted(ps, ms + {m}, now, counts');
  }

  lemma Counted(ps: Promises, ms: set<MsgId>, now: int, counts: map<PeerId, nat>)
    requires forall p :: CountOf(counts, p) == |BrokenIn(ps, ms, p, now)| && (p in counts ==> counts[p] > 0)
    ensures Counts(ps, ms, now, counts)
  {
  }

  lemma BrokenNext(ps: Promises, ms: set<MsgId>, m: MsgId, p: PeerId, now: int)
    requires m in ps && m !in ms
    ensures |BrokenIn(ps, ms + {m}, p, now)| == |BrokenIn(ps, ms, p, now)| + if p in Expired(ps[m], now) then 1 else 0
  {
    assert BrokenIn(ps, ms + {m}, p, now) == BrokenIn(ps, ms, p, now) + if p in Expired(ps[m], now) then {m} else {};
  }

  lemma IncrementedNext(counts: map<PeerId, nat>, ps: set<PeerId>, p: PeerId)
    requires p !in ps
    ensures Incremented(counts, ps + {p}) == Incremented(counts, ps)[p := CountOf(Incremented(counts, ps), p) + 1]
  {
  }

  /** The table when the messages of `done` have been gone through. */
  function KeptOf(ps: Promises, done: set<MsgId>, now: int): Promises {
    map m | m in ps && !(m in done && Unbroken(ps[m], now) == map[]) ::
      if m in done then Unbroken(ps[m], now) else ps[m]
  }

  lemma KeptNext(ps: Promises, done: set<MsgId>, m: MsgId, now: int)
    requires m in ps && m !in done
    ensures var was, left := KeptOf(ps, done, now), Unbroken(ps[m], now);
            && m in was && was[m] == ps[m]
            && KeptOf(ps, done + {m}, now) == if left == map[] then was - {m} else was[m := left]
  {
    hide Unbroken;
  }

  // ----- the tracer's fields

  class IWantTracer {
    const gossipsubIWantFollowupMs: int
    const requestMsByMsgExpire: int
    /** Whether metrics are kept; only then are request times. */
    const metrics: bool
    var promises: Promises
    /** First request time of each message, with the messages in insertion order. */
    var requestOrder: seq<MsgId>
    var requestMsByMsg: map<MsgId, CacheValue<()>>
    ghost var lastRequest: int

    ghost predicate Valid()
      reads this
    {
      && Distinct(requestOrder) && ToSet(requestOrder) == requestMsByMsg.Keys && Ascending(requestOrder, requestMsByMsg)
      && forall m :: m in requestMsByMsg ==> requestMsByMsg[m].validUntilMs <= lastRequest
    }

    constructor (gossipsubIWantFollowupMs: int, metrics: bool)
      ensures Valid() && promises == map[] && requestMsByMsg == map[]
      ensures this.gossipsubIWantFollowupMs == gossipsubIWantFollowupMs && this.metrics == metrics
      ensures requestMsByMsgExpire == 10 * gossipsubIWantFollowupMs
    {
      this.gossipsubIWantFollowupMs, this.metrics := gossipsubIWantFollowupMs, metrics;
      requestMsByMsgExpire := 10 * gossipsubIWantFollowupMs;
      promises, requestOrder, requestMsByMsg, lastRequest := map[], [], map[], 0;
    }

    /** Tracks a promise for the message at a randomly drawn index. */
    method AddPromise(from: PeerId, msgIds: seq<MsgId>, ix: nat, now: int)
      requires Valid() && ix < |msgIds| && (requestMsByMsg != map[] ==> lastRequest <= now)
      modifies this
      ensures Valid() && promises == Next(old(promises), gossipsubIWantFollowupMs, Promise(from, msgIds[ix]), now)
      ensures requestMsByMsg ==
              if metrics && msgIds[ix] !in old(requestMsByMsg) && !Outstanding(old(promises), msgIds[ix], from)
              then old(requestMsByMsg)[msgIds[ix] := CacheValue((), now)] else old(requestMsByMsg)
    {
      var msgId := msgIds[ix];
      var expireByPeer := if msgId in promises then promises[msgId] else map[];
      if from !in expireByPeer {
        expireByPeer := expireByPeer[from := now + gossipsubIWantFollowupMs];
        NoteRequest(msgId, now);
      }
      promises := promises[msgId := expireByPeer];
    }

    /** Keeps the time of the first request. */
    method NoteRequest(msgId: MsgId, now: int)
      requires Valid() && (requestMsByMsg != map[] ==> lastRequest <= now)
      modifies this`requestOrder, this`requestMsByMsg, this`lastRequest
      ensures Valid()
      ensures requestMsByMsg == if metrics && msgId !in old(requestMsByMsg)
                                then old(requestMsByMsg)[msgId := CacheValue((), now)] else old(requestMsByMsg)
    {
      if metrics && msgId !in requestMsByMsg {
        AppendAscending(requestOrder, requestMsByMsg, msgId, CacheValue((), now));
        hide Ascending;
        requestOrder := requestOrder + [msgId];
        requestMsByMsg := requestMsByMsg[msgId := CacheValue((), now)];
        lastRequest := now;
      }
    }

    /** Takes the broken promises out of the table and counts them by peer. */
    method GetBrokenPromises(now: int) returns (result: map<PeerId, nat>)
      modifies this`promises
      ensures promises == Next(old(promises), gossipsubIWantFollowupMs, ReportBroken, now)
      ensures Counts(old(promises), old(promises).Keys, now, result)
    {
      result := map[];
      ghost var was := promises;
      var todo := promises.Keys;
      assert was.Keys - todo == {};
      assert KeptOf(was, {}, now) == was;
      NothingCounted(was, now);
      hide Counts, KeptOf, Unbroken;
      while todo != {}
        invariant todo <= was.Keys
        invariant promises == KeptOf(was, was.Keys - todo, now)
        invariant Counts(was, was.Keys - todo, now, result)
        decreases todo
      {
        var msgId :| msgId in todo;
        ghost var done := was.Keys - todo;
        KeptNext(was, done, msgId, now);
        CountsNext(was, done, msgId, now, result);
        todo := todo - {msgId};
        assert was.Keys - todo == done + {msgId};
        var expireByPeer;
        expireByPeer, result := BreakPromises(promises[msgId], now, result);
        promises := if expireByPeer == map[] then promises - {msgId} else promises[msgId := expireByPeer];
      }
      assert was.Keys - {} == was.Keys;
      AllKept(was, now);
    }

    /** One message's broken promises. */
    static method BreakPromises(byPeer: map<PeerId, int>, now: int, counts: map<PeerId, nat>)
      returns (left: map<PeerId, int>, result: map<PeerId, nat>)
      ensures left == Unbroken(byPeer, now) && result == Incremented(counts, Expired(byPeer, now))
    {
      left, result := byPeer, counts;
      var todo := byPeer.Keys;
      assert Incremented(counts, {}) == counts;
      hide Incremented;
      while todo != {}
        invariant todo <= byPeer.Keys
        invariant left == map p | p in byPeer && (p in todo || byPeer[p] >= now) :: byPeer[p]
        invariant result == Incremented(counts, Expired(byPeer, now) - todo)
        decreases todo
      {
        var p :| p in todo;
        ghost var done := Expired(byPeer, now) - todo;
        todo := todo - {p};
        if byPeer[p] < now {
          assert Expired(byPeer, now) - todo == done + {p} && p !in done;
          IncrementedNext(counts, done, p);
          result := result[p := CountOf(result, p) + 1];
          left := left - {p};
        } else {
          assert Expired(byPeer, now) - todo == done;
        }
      }
      assert Expired(byPeer, now) - {} == Expired(byPeer, now);
    }

    method DeliverMessage(msgId: MsgId)
      requires Valid()
      modifies this
      ensures Valid() && forall now :: promises == Next(old(promises), gossipsubIWantFollowupMs, Delivered(msgId), now)
      ensures requestMsByMsg == old(requestMsByMsg) - if metrics then {msgId} else {}
    {
      TrackMessage(msgId);
      promises := promises - {msgId};
    }

    method RejectMessage(msgId: MsgId, reason: Deliveries.RejectReason)
      requires Valid()
      modifies this
      ensures Valid()
      ensures forall now :: promises == Next(old(promises), gossipsubIWantFollowupMs, Rejected(msgId, reason), now)
      ensures requestMsByMsg == old(requestMsByMsg) - if metrics then {msgId} else {}
    {
      TrackMessage(msgId);
      if reason == Deliveries.Error {
        return;
      }
      promises := promises - {msgId};
    }

    method Clear()
      modifies this`promises
      ensures forall now :: promises == Next(old(promises), gossipsubIWantFollowupMs, Cleared, now)
    {
      promises := map[];
    }

    method TrackMessage(msgId: MsgId)
      requires Valid()
      modifies this`requestOrder, this`requestMsByMsg
      ensures Valid() && requestMsByMsg == old(requestMsByMsg) - if metrics then {msgId} else {}
    {
      if metrics {
        OrderWithout(requestOrder, requestMsByMsg, msgId);
        hide Ascending;
        requestOrder := Without(requestOrder, {msgId});
        requestMsByMsg := requestMsByMsg - {msgId};
      }
    }

    /** Drops request times from the front until one is recent: that drops every old one, and no other. */
    method Prune(now: int)
      requires Valid()
      modifies this`requestOrder, this`requestMsByMsg
      ensures Valid() && requestMsByMsg == Unexpired(old(requestMsByMsg), now - requestMsByMsgExpire)
    {
      hide Ascending, Distinct, ToSet, Restrict;
      var k, limit := 0, now - requestMsByMsgExpire;
      k, requestMsByMsg := SimpleTimeCache<MsgId, ()>.DeleteFront(requestOrder, requestMsByMsg, limit);
      requestOrder := requestOrder[k..];
    }
  }

  lemma NothingCounted(ps: Promises, now: int)
    ensures Counts(ps, {}, now, map[])
  {
    forall p ensures BrokenIn(ps, {}, p, now) == {} {
    }
  }

  lemma AllKept(ps: Promises, now: int)
    ensures KeptOf(ps, ps.Keys, now) == Kept(ps, now)
  {
    hide Unbroken;
  }

  lemma OrderWithout(order: seq<MsgId>, times: map<MsgId, CacheValue<()>>, m: MsgId)
    requires Distinct(order) && ToSet(order) == times.Keys && Ascending(order, times)
    ensures var order' := Without(order, {m});
            Distinct(order') && ToSet(order') == (times - {m}).Keys && Ascending(order', times - {m})
  {
    WithoutDistinct(order, {m});
    WithoutMembers(order, {m});
    assert ToSet(Without(order, {m})) == (times - {m}).Keys by {
      assert forall x :: x in order <==> x in ToSet(order);
    }
    hide ToSet, Distinct;
    AscendingWithout(order, times, m);
  }

  lemma {:induction false} AscendingWithout(order: seq<MsgId>, times: map<MsgId, CacheValue<()>>, m: MsgId)
    requires Ascending(order, times)
    ensures Ascending(Without(order, {m}), times - {m})
  {
    if order != [] {
      AscendingWithout(order[1..], times, m);
      WithoutMembers(order[1..], {m});
      forall x | x in order[1..] && order[0] in times && x in times
        ensures times[order[0]].validUntilMs <= times[x].validUntilMs
      {
        var i :| 1 <= i < |order| && order[i] == x;
      }
    }
  }
}
