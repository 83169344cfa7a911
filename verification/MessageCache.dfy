/** The message cache's fields and methods, each proved to be a step of the model. */
module MessageCaching {
  import opened Types
  import opened Seqs
  import opened MessageCacheModel
  import opened MessageCacheTheorems

  class MessageCache {
    const gossip: nat
    var msgs: map<MsgId, Entry>
    var history: seq<Slot>
    var notValidatedCount: int

    function Now(): Cache
      reads this
    {
      Cache(msgs, history, notValidatedCount)
    }

    /** There is a newest window, and the gossip windows are among those kept. */
    ghost predicate Valid()
      reads this
    {
      history != [] && gossip <= |history|
    }

    constructor (gossip: nat, historyCapacity: nat)
      requires historyCapacity >= 1 && gossip <= historyCapacity
      ensures Valid() && this.gossip == gossip && Now() == Empty(historyCapacity)
    {
      this.gossip := gossip;
      msgs, notValidatedCount := map[], 0;
      history := [];
      new;
      for i := 0 to historyCapacity
        modifies this`history
        invariant history == seq(i, _ => [])
      {
        history := history + [[]];
      }
    }

    method Put(msgId: MsgId, msg: Message, validated: bool) returns (added: bool)
      requires Valid()
      modifies this
      ensures Valid() && Now() == Next(old(Now()), Event.Put(msgId, msg, validated)) && added == (msgId !in old(msgs))
    {
      if msgId in msgs {
        return false;
      }
      msgs := msgs[msgId := Entry(msg, validated, {}, map[])];
      history := [history[0] + [SlotEntry(msgId, msg.topic)]] + history[1..];
      if !validated {
        notValidatedCount := notValidatedCount + 1;
      }
      return true;
    }

    method ObserveDuplicate(msgId: MsgId, from: PeerId)
      requires Valid()
      modifies this`msgs
      ensures Valid() && Now() == Next(old(Now()), Observe(msgId, from))
    {
      if msgId in msgs && !msgs[msgId].validated {
        var entry := msgs[msgId];
        msgs := msgs[msgId := entry.(originatingPeers := entry.originatingPeers + {from})];
      }
    }

    method GetWithIWantCount(msgId: MsgId, p: PeerId) returns (r: Option<(Message, nat)>)
      modifies this`msgs
      ensures msgs == WantOne(old(msgs), msgId, p)
      ensures r == if msgId !in old(msgs) then None
                   else Some((old(msgs)[msgId].message, WantCount(old(msgs)[msgId], p) + 1))
    {
      if msgId !in msgs {
        return None;
      }
      var entry := msgs[msgId];
      var count := (if p in entry.iwantCounts then entry.iwantCounts[p] else 0) + 1;
      msgs := msgs[msgId := entry.(iwantCounts := entry.iwantCounts[p := count])];
      return Some((entry.message, count));
    }

    /** Marks the message validated; returns it with the peers already known to have it. */
    method Validate(msgId: MsgId) returns (r: Option<(Message, set<PeerId>)>)
      requires Valid()
      modifies this
      ensures Valid() && Now() == Next(old(Now()), Event.Validate(msgId))
      ensures r == if msgId !in old(msgs) then None
                   else Some((old(msgs)[msgId].message, old(msgs)[msgId].originatingPeers))
    {
      if msgId !in msgs {
        return None;
      }
      var entry := msgs[msgId];
      if !entry.validated {
        notValidatedCount := notValidatedCount - 1;
      }
      msgs := msgs[msgId := entry.(validated := true, originatingPeers := {})];
      return Some((entry.message, entry.originatingPeers));
    }

    /** Removes the message; its name stays in its window, and the count of messages not validated stays as it is. */
    method Remove(msgId: MsgId) returns (r: Option<(Message, set<PeerId>)>)
      requires Valid()
      modifies this`msgs
      ensures Valid() && Now() == Next(old(Now()), Event.Remove(msgId))
      ensures r == if msgId !in old(msgs) then None
                   else Some((old(msgs)[msgId].message, old(msgs)[msgId].originatingPeers))
    {
      if msgId !in msgs {
        return None;
      }
      var entry := msgs[msgId];
      msgs := msgs - {msgId};
      return Some((entry.message, entry.originatingPeers));
    }

    /** Drops what the oldest window names, and opens a new window. */
    method Shift()
      requires Valid()
      modifies this
      ensures Valid() && Now() == Next(old(Now()), Event.Shift)
    {
      var last := history[|history| - 1];
      msgs, notValidatedCount := Evict(last, msgs, notValidatedCount);
      history := [[]] + history[..|history| - 1];
    }

    static method Evict(last: Slot, was: map<MsgId, Entry>, count: int)
      returns (msgs: map<MsgId, Entry>, notValidatedCount: int)
      ensures msgs == was - Ids(last) && notValidatedCount == count - |Unvalidated(was) * Ids(last)|
    {
      msgs, notValidatedCount := was, count;
      for k := 0 to |last|
        invariant msgs == was - Ids(last[..k])
        invariant notValidatedCount == count - |Unvalidated(was) * Ids(last[..k])|
      {
        ShiftNext(was, last, k);
        hide Unvalidated, Ids;
        var id := last[k].id;
        if id in msgs {
          if !msgs[id].validated {
            notValidatedCount := notValidatedCount - 1;
          }
          msgs := msgs - {id};
        }
      }
      assert last[..|last|] == last;
    }

    /** Answers a peer's requests: what it may still have, each message once. */
    method HandleIWant(id: PeerId, score: real, gossipThreshold: real, iwant: seq<seq<MsgId>>)
      returns (ihave: map<MsgId, Message>)
      requires Valid()
      modifies this`msgs
      ensures Valid()
      ensures score < gossipThreshold ==> Now() == old(Now()) && ihave == map[]
      ensures score >= gossipThreshold ==> Now() == Next(old(Now()), Want(Flat(iwant), id))
      ensures score >= gossipThreshold ==> ihave == Answer(old(msgs), Sent(old(msgs), Flat(iwant), id))
    {
      ihave := map[];
      if iwant == [] || score < gossipThreshold {
        return;
      }
      ghost var was := msgs;
      hide Sent, Answer;
      NothingSent(was, id);
      for i := 0 to |iwant|
        invariant msgs == WantAll(was, Flat(iwant[..i]), id)
        invariant ihave == Answer(was, Sent(was, Flat(iwant[..i]), id))
      {
        FlatNext(iwant, i);
        hide Flat, WantAll;
        ihave := AnswerList(id, iwant[i], was, Flat(iwant[..i]), ihave);
      }
      assert iwant[..|iwant|] == iwant;
    }

    /** One list of requests, after those of `before`. */
    method AnswerList(id: PeerId, messageIDs: seq<MsgId>, ghost was: map<MsgId, Entry>, ghost before: seq<MsgId>,
                      answers: map<MsgId, Message>) returns (ihave: map<MsgId, Message>)
      requires msgs == WantAll(was, before, id) && answers == Answer(was, Sent(was, before, id))
      modifies this`msgs
      ensures msgs == WantAll(was, before + messageIDs, id)
      ensures ihave == Answer(was, Sent(was, before + messageIDs, id))
    {
      ihave := answers;
      assert before + messageIDs[..0] == before;
      hide WantAll, Sent, Answer;
      for k := 0 to |messageIDs|
        invariant msgs == WantAll(was, before + messageIDs[..k], id)
        invariant ihave == Answer(was, Sent(was, before + messageIDs[..k], id))
      {
        WantedSoFar(was, before + messageIDs[..k], messageIDs[k], id);
        assert before + messageIDs[..k + 1] == before + messageIDs[..k] + [messageIDs[k]];
        var entry := GetWithIWantCount(messageIDs[k], id);
        if entry.Some? && entry.value.1 <= RETRANSMISSION {
          ihave := ihave[messageIDs[k] := entry.value.0];
        }
      }
      assert messageIDs[..|messageIDs|] == messageIDs;
    }

    /** The ids to gossip about, topic by topic. */
    method GetGossipIDs(topics: set<Topic>) returns (msgIdsByTopic: map<Topic, seq<MsgId>>)
      requires Valid()
      ensures forall t :: t in msgIdsByTopic <==> t in topics && GossipIds(Now(), t, gossip) != []
      ensures forall t :: t in msgIdsByTopic ==> msgIdsByTopic[t] == GossipIds(Now(), t, gossip)
    {
      msgIdsByTopic := map[];
      forall i, t | 0 <= i <= gossip ensures SoFar(Now(), i, [], t) == GossipIds(Now(), t, i) {
        assert GossipIds(Now(), t, i) + [] == GossipIds(Now(), t, i);
      }
      for i := 0 to gossip
        invariant Gathered(Now(), topics, i, [], msgIdsByTopic)
      {
        msgIdsByTopic := GatherWindow(topics, i, msgIdsByTopic);
      }
    }

    /** Adds what one window has to offer. */
    method GatherWindow(topics: set<Topic>, i: nat, before: map<Topic, seq<MsgId>>)
      returns (msgIds: map<Topic, seq<MsgId>>)
      requires i < |history| && Gathered(Now(), topics, i, [], before)
      ensures Gathered(Now(), topics, i + 1, [], msgIds)
    {
      msgIds := before;
      var slot := history[i];
      hide SoFar;
      for j := 0 to |slot|
        invariant Gathered(Now(), topics, i, slot[..j], msgIds)
      {
        var entry := slot[j];
        GatherNext(Now(), topics, i, slot, j, msgIds);
        if entry.id in msgs && msgs[entry.id].validated && entry.topic in topics {
          var some := if entry.topic in msgIds then msgIds[entry.topic] else [];
          msgIds := msgIds[entry.topic := some + [entry.id]];
        }
      }
      assert slot[..|slot|] == slot;
      GatheredWindow(Now(), topics, i, msgIds);
    }
  }

  // ----- eviction

  lemma ShiftNext(was: map<MsgId, Entry>, slot: Slot, k: nat)
    requires k < |slot|
    ensures var id, gone, gone' := slot[k].id, Ids(slot[..k]), Ids(slot[..k + 1]);
            && (was - gone) - {id} == was - gone'
            && (id !in was - gone ==> was - gone == was - gone')
            && |Unvalidated(was) * gone'|
               == |Unvalidated(was) * gone| + if id in was - gone && !was[id].validated then 1 else 0
  {
    IdsNext(slot, k);
    LessByOne(was, Ids(slot[..k]), slot[k].id);
    hide *;
  }

  lemma IdsNext(slot: Slot, k: nat)
    requires k < |slot|
    ensures Ids(slot[..k + 1]) == Ids(slot[..k]) + {slot[k].id}
  {
    assert slot[..k + 1] == slot[..k] + [slot[k]];
  }

  lemma LessByOne(was: map<MsgId, Entry>, gone: set<MsgId>, id: MsgId)
    ensures (was - gone) - {id} == was - (gone + {id})
    ensures id !in was - gone ==> was - gone == was - (gone + {id})
    ensures |Unvalidated(was) * (gone + {id})|
         == |Unvalidated(was) * gone| + if id in was - gone && !was[id].validated then 1 else 0
  {
    assert id in Unvalidated(was) <==> id in was && !was[id].validated;
    hide Unvalidated;
    OneMoreShared(Unvalidated(was), gone, id);
    KeysLess(was, gone, id);
    hide *;
  }

  lemma KeysLess<V>(was: map<MsgId, V>, gone: set<MsgId>, id: MsgId)
    ensures (was - gone) - {id} == was - (gone + {id})
    ensures id !in was - gone ==> was - gone == was - (gone + {id})
    ensures id in was - gone <==> id in was && id !in gone
  {
  }

  lemma OneMoreShared<T>(u: set<T>, gone: set<T>, x: T)
    ensures |u * (gone + {x})| == |u * gone| + if x in u && x !in gone then 1 else 0
  {
    assert u * (gone + {x}) == if x in u && x !in gone then u * gone + {x} else u * gone;
  }

  // ----- gossip

  /** The ids of the first `i` windows and of `slot`, by topic; topics without any are left out. */
  ghost predicate Gathered(c: Cache, topics: set<Topic>, i: nat, slot: Slot, found: map<Topic, seq<MsgId>>)
    requires i <= |c.history|
  {
    && (forall t :: t in found <==> t in topics && SoFar(c, i, slot, t) != [])
    && (forall t :: t in found ==> found[t] == SoFar(c, i, slot, t))
  }

  function SoFar(c: Cache, i: nat, slot: Slot, t: Topic): seq<MsgId>
    requires i <= |c.history|
  {
    GossipIds(c, t, i) + Listed(c.msgs, slot, t)
  }

  lemma SoFarNext(c: Cache, i: nat, slot: Slot, j: nat, t: Topic)
    requires i <= |c.history| && j < |slot|
    ensures var e := slot[j];
            SoFar(c, i, slot[..j + 1], t) == SoFar(c, i, slot[..j], t)
              + if e.id in c.msgs && c.msgs[e.id].validated && e.topic == t then [e.id] else []
  {
    assert slot[..j + 1][..j] == slot[..j];
    hide GossipIds;
  }

  lemma GatherNext(c: Cache, topics: set<Topic>, i: nat, slot: Slot, j: nat, found: map<Topic, seq<MsgId>>)
    requires i <= |c.history| && j < |slot| && Gathered(c, topics, i, slot[..j], found)
    ensures var e := slot[j];
            var found' := if e.id in c.msgs && c.msgs[e.id].validated && e.topic in topics
                          then found[e.topic := (if e.topic in found then found[e.topic] else []) + [e.id]] else found;
            Gathered(c, topics, i, slot[..j + 1], found')
  {
    var e := slot[j];
    var good := e.id in c.msgs && c.msgs[e.id].validated;
    hide SoFar;
    forall t
      ensures SoFar(c, i, slot[..j + 1], t)
           == SoFar(c, i, slot[..j], t) + if good && e.topic == t then [e.id] else []
    {
      SoFarNext(c, i, slot, j, t);
    }
  }

  lemma GatheredWindow(c: Cache, topics: set<Topic>, i: nat, found: map<Topic, seq<MsgId>>)
    requires i < |c.history| && Gathered(c, topics, i, c.history[i], found)
    ensures Gathered(c, topics, i + 1, [], found)
  {
    forall t ensures SoFar(c, i + 1, [], t) == SoFar(c, i, c.history[i], t) {
    }
    hide SoFar;
  }

  // ----- answers to requests

  function Answer(msgs: map<MsgId, Entry>, sent: set<MsgId>): map<MsgId, Message> {
    map m | m in sent && m in msgs :: msgs[m].message
  }

  /**
   * The next id is answered if it was already to be, or its count is still low: the same as before the whole
   * request.
   */
  lemma WantedSoFar(was: map<MsgId, Entry>, before: seq<MsgId>, m: MsgId, p: PeerId)
    ensures WantAll(was, before + [m], p) == WantOne(WantAll(was, before, p), m, p)
    ensures var now := WantAll(was, before, p);
            Answer(was, Sent(was, before + [m], p))
              == if m in now && WantCount(now[m], p) + 1 <= RETRANSMISSION
                 then Answer(was, Sent(was, before, p))[m := now[m].message] else Answer(was, Sent(was, before, p))
  {
    var now := WantAll(was, before, p);
    assert (before + [m])[..|before|] == before;
    WantKeepsMessages(was, before, p);
    if m in was {
      WantCounts(was, before, p, m, p);
      assert multiset(before)[m] == 0 <==> m !in before;
    }
    hide WantAll, WantCount, WantOne;
    assert Sent(was, before + [m], p)
        == Sent(was, before, p) + if m in was && WantCount(was[m], p) < RETRANSMISSION then {m} else {};
    hide Sent;
  }

  lemma NothingSent(was: map<MsgId, Entry>, p: PeerId)
    ensures Answer(was, Sent(was, [], p)) == map[]
  {
  }
}
