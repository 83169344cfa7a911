/** Delivery records of recent messages: who sent copies of a message, and what validation made of it. */
module Deliveries {
  import opened Types

  const TIME_CACHE_DURATION := 120 * 1000

  datatype Status = Unknown | Valid | Invalid | Ignored

  datatype Record = Record(status: Status, firstSeen: int, validated: int, peers: set<PeerId>)

  datatype QueueEntry = QueueEntry(msgId: MsgId, expire: int)

  type Records = map<MsgId, Record>

  /** The records, with a fresh one for `id` if there was none. */
  function Ensured(records: Records, id: MsgId, now: int): Records {
    if id in records then records else records[id := Record(Unknown, now, 0, {})]
  }

  /** The records that have not expired. */
  function Alive(records: Records, now: int): Records {
    map m | m in records && records[m].firstSeen + TIME_CACHE_DURATION >= now :: records[m]
  }

  ghost function Ids(queue: seq<QueueEntry>): set<MsgId> { set i | 0 <= i < |queue| :: queue[i].msgId }

  ghost predicate Ordered(queue: seq<QueueEntry>) {
    forall i, j :: 0 <= i < j < |queue| ==> queue[i].msgId != queue[j].msgId && queue[i].expire <= queue[j].expire
  }

  ghost predicate Dated(records: Records, queue: seq<QueueEntry>) {
    forall i :: 0 <= i < |queue| ==>
      queue[i].msgId in records && queue[i].expire == records[queue[i].msgId].firstSeen + TIME_CACHE_DURATION
  }

  /** The queue names every record once, in the order in which the records expire. */
  ghost predicate QueueMatches(records: Records, queue: seq<QueueEntry>) {
    Ids(queue) == records.Keys && Ordered(queue) && Dated(records, queue)
  }

  ghost predicate SeenBy(records: Records, now: int) {
    forall m :: m in records ==> records[m].firstSeen <= now
  }

  class MessageDeliveries {
    var records: Records
    var queue: seq<QueueEntry>

    ghost predicate Valid()
      reads this
    {
      QueueMatches(records, queue)
    }

    constructor ()
      ensures Valid() && records == map[]
    {
      records, queue := map[], [];
    }

    method EnsureRecord(msgId: MsgId, now: int) returns (drec: Record)
      requires Valid() && SeenBy(records, now)
      modifies this
      ensures Valid() && SeenBy(records, now)
      ensures records == Ensured(old(records), msgId, now) && drec == records[msgId]
    {
      if msgId in records {
        return records[msgId];
      }
      drec := Record(Unknown, now, 0, {});
      AppendMatches(records, queue, msgId, drec, now);
      records := records[msgId := drec];
      queue := queue + [QueueEntry(msgId, now + TIME_CACHE_DURATION)];
    }

    /** Updates a record; its age does not change. */
    method Update(msgId: MsgId, drec: Record)
      requires Valid() && msgId in records && records[msgId].firstSeen == drec.firstSeen
      modifies this`records
      ensures Valid() && records == old(records)[msgId := drec]
    {
      records := records[msgId := drec];
    }

    /** Stopping at the first entry that has not expired drops every expired record, and no other. */
    method Gc(now: int)
      requires Valid()
      modifies this
      ensures Valid() && records == Alive(old(records), now)
    {
      hide Alive, QueueMatches;
      while queue != [] && queue[0].expire < now
        invariant Valid() && Alive(records, now) == Alive(old(records), now)
        decreases |queue|
      {
        HeadExpired(records, queue, now);
        records := records - {queue[0].msgId};
        queue := queue[1..];
      }
      AllAlive(records, queue, now);
    }

    method Clear()
      modifies this
      ensures Valid() && records == map[]
    {
      records, queue := map[], [];
    }
  }

  lemma AppendMatches(records: Records, queue: seq<QueueEntry>, id: MsgId, drec: Record, now: int)
    requires QueueMatches(records, queue) && SeenBy(records, now) && id !in records && drec.firstSeen == now
    ensures QueueMatches(records[id := drec], queue + [QueueEntry(id, now + TIME_CACHE_DURATION)])
    ensures SeenBy(records[id := drec], now)
  {
    var queue' := queue + [QueueEntry(id, now + TIME_CACHE_DURATION)];
    assert Ids(queue') == Ids(queue) + {id} by {
      assert queue'[|queue|].msgId == id;
      assert forall i :: 0 <= i < |queue| ==> queue'[i] == queue[i];
    }
    hide Ids;
    assert Ordered(queue');
  }

  lemma HeadExpired(records: Records, queue: seq<QueueEntry>, now: int)
    requires QueueMatches(records, queue) && queue != [] && queue[0].expire < now
    ensures QueueMatches(records - {queue[0].msgId}, queue[1..])
    ensures Alive(records - {queue[0].msgId}, now) == Alive(records, now)
  {
    var id := queue[0].msgId;
    TailIds(queue);
    hide Ids;
    assert Ordered(queue[1..]);
    assert Dated(records - {id}, queue[1..]);
    hide Ordered;
    assert records[id].firstSeen + TIME_CACHE_DURATION < now;
  }

  lemma TailIds(queue: seq<QueueEntry>)
    requires queue != [] && Ordered(queue)
    ensures Ids(queue[1..]) == Ids(queue) - {queue[0].msgId}
  {
    var tail := queue[1..];
    forall m | m in Ids(queue) && m != queue[0].msgId ensures m in Ids(tail) {
      var i :| 0 <= i < |queue| && queue[i].msgId == m;
      assert tail[i - 1].msgId == m;
    }
    assert forall i :: 0 <= i < |tail| ==> tail[i] == queue[i + 1];
  }

  lemma AllAlive(records: Records, queue: seq<QueueEntry>, now: int)
    requires QueueMatches(records, queue) && (queue != [] ==> queue[0].expire >= now)
    ensures Alive(records, now) == records
  {
    forall m | m in records.Keys ensures records[m].firstSeen + TIME_CACHE_DURATION >= now {
      assert m in Ids(queue);
      var i :| 0 <= i < |queue| && queue[i].msgId == m;
      assert queue[0].expire <= queue[i].expire;
    }
  }

  // ----- what happens to one record in its lifetime

  datatype RejectReason = Error | Ignore | Reject | Blacklisted

  datatype RecordEvent =
    | Validate
    | Deliver(from: PeerId, now: int)
    | Rejected(from: PeerId, reason: RejectReason)
    | Duplicate(from: PeerId)

  function After(r: Record, e: RecordEvent): Record {
    match e
    case Validate => r
    case Deliver(_, now) => if r.status == Unknown then r.(status := Valid, validated := now) else r
    case Rejected(_, reason) =>
      if reason == Error || reason == Blacklisted || r.status != Unknown then r
      else r.(status := if reason == Ignore then Ignored else Invalid, peers := {})
    case Duplicate(from) => if r.status == Unknown || r.status == Valid then r.(peers := r.peers + {from}) else r
  }

  /** Who is credited with a copy of a valid message. */
  function Credits(r: Record, e: RecordEvent): set<PeerId> {
    match e
    case Deliver(from, _) => if r.status == Unknown then r.peers - {from} else {}
    case Duplicate(from) => if r.status == Valid && from !in r.peers then {from} else {}
    case _ => {}
  }

  /** Who is blamed for an invalid message, and how often: the sender who also sent a copy is blamed for both. */
  function Blames(r: Record, e: RecordEvent): multiset<PeerId> {
    match e
    case Rejected(from, reason) =>
      if reason == Error then multiset{from}
      else if reason == Reject && r.status == Unknown then multiset{from} + multiset(r.peers)
      else multiset{}
    case Duplicate(from) => if r.status == Invalid && from !in r.peers then multiset{from} else multiset{}
    case _ => multiset{}
  }

  /** The record after a run of events. */
  function RunRecord(r: Record, events: seq<RecordEvent>): Record {
    if events == [] then r else After(RunRecord(r, events[..|events| - 1]), events[|events| - 1])
  }

  lemma {:induction false} RunFrom(r: Record, events: seq<RecordEvent>, i: nat)
    requires i <= |events|
    ensures RunRecord(r, events) == RunRecord(RunRecord(r, events[..i]), events[i..])
  {
    var n := |events| - 1;
    if i == |events| {
      assert events[..i] == events;
    } else {
      RunFrom(r, events[..n], i);
      assert events[..n][..i] == events[..i] && events[i..][..|events[i..]| - 1] == events[..n][i..];
    }
  }

  /** Once validation has spoken, the verdict stands. */
  lemma {:induction false} StatusFinal(r: Record, events: seq<RecordEvent>)
    requires r.status != Unknown
    ensures RunRecord(r, events).status == r.status && RunRecord(r, events).validated == r.validated
  {
    if events != [] {
      StatusFinal(r, events[..|events| - 1]);
    }
  }

  /** The status leaves unknown at most once in any run. */
  lemma StatusOnce(r: Record, events: seq<RecordEvent>, i: nat, j: nat)
    requires i <= j <= |events| && RunRecord(r, events[..i]).status != Unknown
    ensures RunRecord(r, events[..j]).status == RunRecord(r, events[..i]).status
  {
    RunFrom(r, events[..j], i);
    assert events[..j][..i] == events[..i];
    StatusFinal(RunRecord(r, events[..i]), events[..j][i..]);
  }

  /** A peer once credited stays on the record, unless it was the deliverer; either way it is not credited again. */
  ghost predicate CannotBeCredited(r: Record, p: PeerId) {
    r.status == Invalid || r.status == Ignored || (r.status == Valid && p in r.peers)
  }

  lemma CreditedOnce(r: Record, e: RecordEvent, p: PeerId)
    ensures p in Credits(r, e) ==> CannotBeCredited(After(r, e), p)
    ensures CannotBeCredited(r, p) ==> CannotBeCredited(After(r, e), p) && p !in Credits(r, e)
  {
  }

  lemma {:induction false} StaysUncredited(r: Record, events: seq<RecordEvent>, p: PeerId)
    requires CannotBeCredited(r, p)
    ensures CannotBeCredited(RunRecord(r, events), p)
  {
    if events != [] {
      StaysUncredited(r, events[..|events| - 1], p);
      CreditedOnce(RunRecord(r, events[..|events| - 1]), events[|events| - 1], p);
    }
  }

  /**
   * In one lifetime of a record, no peer is credited twice: not for validate, deliver, reject and duplicate in any
   * order.
   */
  lemma CreditedAtMostOnce(r: Record, events: seq<RecordEvent>, i: nat, j: nat, p: PeerId)
    requires i < j < |events| && p in Credits(RunRecord(r, events[..i]), events[i])
    ensures p !in Credits(RunRecord(r, events[..j]), events[j])
  {
    var was := RunRecord(r, events[..i]);
    CreditedOnce(was, events[i], p);
    assert events[..i + 1][..i] == events[..i];
    var next := RunRecord(r, events[..i + 1]);
    assert next == After(was, events[i]);
    RunFrom(r, events[..j], i + 1);
    assert events[..j][..i + 1] == events[..i + 1];
    StaysUncredited(next, events[..j][i + 1..], p);
    CreditedOnce(RunRecord(r, events[..j]), events[j], p);
  }

  /** A message is either credited or blamed, never both, apart from rejections with Error, which ignore the record. */
  lemma NotBothCreditedAndBlamed(r: Record, events: seq<RecordEvent>, i: nat, j: nat)
    requires i < |events| && j < |events|
    requires Credits(RunRecord(r, events[..i]), events[i]) != {}
    requires Blames(RunRecord(r, events[..j]), events[j]) != multiset{}
    ensures events[j].Rejected? && events[j].reason == Error
  {
    assert events[..i + 1][..i] == events[..i] && events[..j + 1][..j] == events[..j];
    var credited, blamed := RunRecord(r, events[..i + 1]), RunRecord(r, events[..j + 1]);
    assert credited == After(RunRecord(r, events[..i]), events[i]) && credited.status == Valid;
    assert blamed == After(RunRecord(r, events[..j]), events[j]);
    if i <= j {
      StatusOnce(r, events, i + 1, j + 1);
    } else {
      if !(events[j].Rejected? && events[j].reason == Error) {
        assert blamed.status == Invalid;
        StatusOnce(r, events, j + 1, i + 1);
      }
    }
  }
}
