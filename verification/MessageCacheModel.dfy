/** The sliding-window message cache: what its operations do, and the map of ages it stands for. */
module MessageCacheModel {
  import opened Types

  type Payload(==, !new)

  datatype Message = Message(topic: Topic, payload: Payload)

  datatype Entry = Entry(
    message: Message, validated: bool, originatingPeers: set<PeerId>, iwantCounts: map<PeerId, nat>)

  datatype SlotEntry = SlotEntry(id: MsgId, topic: Topic)

  type Slot = seq<SlotEntry>

  /** `history` holds the newest window first. */
  datatype Cache = Cache(msgs: map<MsgId, Entry>, history: seq<Slot>, notValidatedCount: int)

  datatype Event =
    | Put(id: MsgId, msg: Message, validated: bool)
    | Observe(id: MsgId, from: PeerId)
    | Want(ids: seq<MsgId>, from: PeerId)
    | Validate(id: MsgId)
    | Remove(id: MsgId)
    | Shift

  /** How often a peer may ask for the same message. */
  const RETRANSMISSION: nat := 3

  function Empty(capacity: nat): Cache { Cache(map[], seq(capacity, _ => []), 0) }

  function Ids(slot: Slot): set<MsgId> { set e | e in slot :: e.id }

  function Unvalidated(msgs: map<MsgId, Entry>): set<MsgId> { set m | m in msgs && !msgs[m].validated }

  function WantCount(e: Entry, p: PeerId): nat { if p in e.iwantCounts then e.iwantCounts[p] else 0 }

  /** The message asked for once more. */
  function WantOne(msgs: map<MsgId, Entry>, id: MsgId, p: PeerId): map<MsgId, Entry> {
    if id !in msgs then msgs
    else msgs[id := msgs[id].(iwantCounts := msgs[id].iwantCounts[p := WantCount(msgs[id], p) + 1])]
  }

  function WantAll(msgs: map<MsgId, Entry>, ids: seq<MsgId>, p: PeerId): map<MsgId, Entry> {
    if ids == [] then msgs else WantOne(WantAll(msgs, ids[..|ids| - 1], p), ids[|ids| - 1], p)
  }

  /** Senders are only noted until the message is validated. */
  function Observed(msgs: map<MsgId, Entry>, id: MsgId, from: PeerId): map<MsgId, Entry> {
    if id in msgs && !msgs[id].validated
    then msgs[id := msgs[id].(originatingPeers := msgs[id].originatingPeers + {from})] else msgs
  }

  function Validated(msgs: map<MsgId, Entry>, id: MsgId): map<MsgId, Entry> {
    if id in msgs then msgs[id := msgs[id].(validated := true, originatingPeers := {})] else msgs
  }

  /** The messages sent in answer: those present that the peer has not asked for too often. */
  function Sent(msgs: map<MsgId, Entry>, ids: seq<MsgId>, p: PeerId): set<MsgId> {
    set m | m in ids && m in msgs && WantCount(msgs[m], p) < RETRANSMISSION
  }

  /** A new window comes, the oldest goes. */
  function Rolled(h: seq<Slot>): (r: seq<Slot>)
    requires h != []
    ensures |r| == |h|
  {
    [[]] + h[..|h| - 1]
  }

  /** Whatever the oldest window names is dropped with it. */
  function Shifted(c: Cache): Cache
    requires c.history != []
  {
    var last := Ids(c.history[|c.history| - 1]);
    Cache(c.msgs - last, Rolled(c.history), c.notValidatedCount - |Unvalidated(c.msgs) * last|)
  }

  function Next(c: Cache, e: Event): (r: Cache)
    requires c.history != []
    ensures |r.history| == |c.history|
  {
    match e
    case Put(id, msg, validated) =>
      if id in c.msgs then c
      else Cache(c.msgs[id := Entry(msg, validated, {}, map[])],
                 [c.history[0] + [SlotEntry(id, msg.topic)]] + c.history[1..],
                 c.notValidatedCount + if validated then 0 else 1)
    case Observe(id, from) => c.(msgs := Observed(c.msgs, id, from))
    case Want(ids, p) => c.(msgs := WantAll(c.msgs, ids, p))
    case Validate(id) =>
      if id !in c.msgs then c
      else c.(msgs := Validated(c.msgs, id),
              notValidatedCount := c.notValidatedCount - if c.msgs[id].validated then 0 else 1)
    case Remove(id) => c.(msgs := c.msgs - {id})
    case Shift => Shifted(c)
  }

  function RunOn(c: Cache, events: seq<Event>): (r: Cache)
    requires c.history != []
    ensures |r.history| == |c.history|
  {
    if events == [] then c else Next(RunOn(c, events[..|events| - 1]), events[|events| - 1])
  }

  // ----- the reference: every message has an age

  datatype Aged = Aged(entry: Entry, age: nat)

  type Reference = map<MsgId, Aged>

  function Entries(r: Reference): map<MsgId, Entry> { map m | m in r :: r[m].entry }

  function Older(capacity: nat, r: Reference): Reference {
    map m | m in r && r[m].age + 1 < capacity :: Aged(r[m].entry, r[m].age + 1)
  }

  /** The message once a peer has asked for it so many times more. */
  function AskedFor(e: Entry, p: PeerId, times: nat): Entry {
    if times == 0 then e
    else
      var before := if p in e.iwantCounts then e.iwantCounts[p] else 0;
      e.(iwantCounts := e.iwantCounts[p := before + times])
  }

  /** A message leaves when it is removed, or `capacity` shifts after it was put. */
  function RefNext(capacity: nat, r: Reference, e: Event): Reference {
    match e
    case Put(id, msg, validated) => if id in r then r else r[id := Aged(Entry(msg, validated, {}, map[]), 0)]
    case Observe(id, from) =>
      if id in r && !r[id].entry.validated
      then r[id := r[id].(entry := r[id].entry.(originatingPeers := r[id].entry.originatingPeers + {from}))] else r
    case Want(ids, p) => map m | m in r :: r[m].(entry := AskedFor(r[m].entry, p, multiset(ids)[m]))
    case Validate(id) =>
      if id in r then r[id := r[id].(entry := r[id].entry.(validated := true, originatingPeers := {}))] else r
    case Remove(id) => r - {id}
    case Shift => Older(capacity, r)
  }

  function RefRun(capacity: nat, events: seq<Event>): Reference {
    if events == [] then map[] else RefNext(capacity, RefRun(capacity, events[..|events| - 1]), events[|events| - 1])
  }

  // ----- gossip

  /** The validated messages of a topic among the entries, in their order. */
  function Listed(msgs: map<MsgId, Entry>, slot: Slot, topic: Topic): seq<MsgId> {
    if slot == [] then []
    else
      var e := slot[|slot| - 1];
      Listed(msgs, slot[..|slot| - 1], topic)
      + if e.id in msgs && msgs[e.id].validated && e.topic == topic then [e.id] else []
  }

  /** The ids gossiped about a topic: those of the `n` newest windows, newest window first. */
  function GossipIds(c: Cache, topic: Topic, n: nat): seq<MsgId>
    requires n <= |c.history|
  {
    if n == 0 then [] else GossipIds(c, topic, n - 1) + Listed(c.msgs, c.history[n - 1], topic)
  }
}
