/** How many advertised messages are requested from a peer between two heartbeats. */
module IHave {
  import opened Types
  import opened Seqs
  import opened MeshSelection

  const MAX_IHAVE_MESSAGES: nat := 10
  const MAX_IHAVE_LENGTH: nat := 5000

  /** IHAVEs received from, and ids asked from, each peer since the last heartbeat. */
  datatype State = State(peerhave: map<PeerId, nat>, iasked: map<PeerId, nat>)

  datatype Advert = Advert(topicID: Option<Topic>, messageIDs: seq<MsgId>)

  function Count(m: map<PeerId, nat>, p: PeerId): nat { if p in m then m[p] else 0 }

  /** Advertised ids for joined topics that have not been seen. */
  function Wanted(ihave: seq<Advert>, joined: set<Topic>, seen: set<MsgId>): set<MsgId> {
    set a, m | a in ihave && a.topicID.Some? && a.topicID.value in joined && m in a.messageIDs && m !in seen :: m
  }

  /** One received IHAVE with its answer, the ids requested; an empty batch is no request. */
  datatype Call = Call(from: PeerId, lowScore: bool, wanted: set<MsgId>, batch: seq<MsgId>)

  ghost predicate Answered(s: State, call: Call, s': State) {
    var p := call.from;
    var asked := Count(s.iasked, p);
    var counted := s.(peerhave := s.peerhave[p := Count(s.peerhave, p) + 1]);
    if call.lowScore then s' == s && call.batch == []
    else if Count(s.peerhave, p) >= MAX_IHAVE_MESSAGES || asked >= MAX_IHAVE_LENGTH || call.wanted == {} then
      s' == counted && call.batch == []
    else
      && Distinct(call.batch) && ToSet(call.batch) <= call.wanted
      && |call.batch| == Min(|call.wanted|, MAX_IHAVE_LENGTH - asked)
      && s' == counted.(iasked := s.iasked[p := asked + |call.batch|])
  }

  /** The calls between two heartbeats, with the states before, between and after them. */
  ghost predicate IsRun(states: seq<State>, calls: seq<Call>) {
    && |states| == |calls| + 1 && states[0] == State(map[], map[])
    && forall k :: 0 <= k < |calls| ==> Answered(states[k], calls[k], states[k + 1])
  }

  /** Ids requested from `p`, and requests made to it. */
  ghost function Total(calls: seq<Call>, p: PeerId): nat {
    if calls == [] then 0
    else
      var last := calls[|calls| - 1];
      Total(calls[..|calls| - 1], p) + if last.from == p then |last.batch| else 0
  }

  ghost function Batches(calls: seq<Call>, p: PeerId): nat {
    if calls == [] then 0
    else
      var last := calls[|calls| - 1];
      Batches(calls[..|calls| - 1], p) + if last.from == p && last.batch != [] then 1 else 0
  }

  /** A request is never empty, never repeats an id, and asks only for wanted ids. */
  lemma BatchFacts(s: State, call: Call, s': State)
    requires Answered(s, call, s')
    ensures Distinct(call.batch) && ToSet(call.batch) <= call.wanted
    ensures call.batch == [] <==> || call.lowScore || call.wanted == {}
                                  || Count(s.peerhave, call.from) >= MAX_IHAVE_MESSAGES
                                  || Count(s.iasked, call.from) >= MAX_IHAVE_LENGTH
  {
  }

  /** The counter is exactly what was requested; neither limit is exceeded, whatever the peers advertise. */
  lemma {:induction false} RequestsLimited(states: seq<State>, calls: seq<Call>, p: PeerId)
    requires IsRun(states, calls)
    ensures Total(calls, p) == Count(states[|calls|].iasked, p) <= 5000
    ensures Batches(calls, p) <= Min(Count(states[|calls|].peerhave, p), 10)
  {
    if calls != [] {
      var n := |calls| - 1;
      assert IsRun(states[..|states| - 1], calls[..n]);
      RequestsLimited(states[..|states| - 1], calls[..n], p);
      assert Answered(states[n], calls[n], states[n + 1]);
    }
  }

  /**
   * What one IHAVE is answered with, in numbers: up to the tenth from a peer since the last heartbeat, as many of
   * the wanted ids as there are, or as are missing to 5000 asked of it.
   */
  lemma BatchSize(s: State, call: Call, s': State)
    requires Answered(s, call, s')
    ensures var p := call.from;
            var have := if p in s.peerhave then s.peerhave[p] else 0;
            var asked := if p in s.iasked then s.iasked[p] else 0;
            && |call.batch| == (if call.lowScore || have >= 10 || asked >= 5000 then 0
                                else Min(|call.wanted|, 5000 - asked))
            && s'.peerhave == (if call.lowScore then s.peerhave else s.peerhave[p := have + 1])
            && s'.iasked == if call.batch == [] then s.iasked else s.iasked[p := asked + |call.batch|]
  {
  }

  /** What is wanted: ids advertised under a joined topic that have not been seen. */
  lemma WantedIff(ihave: seq<Advert>, joined: set<Topic>, seen: set<MsgId>, m: MsgId)
    ensures m in Wanted(ihave, joined, seen) <==>
              m !in seen && exists k :: 0 <= k < |ihave| && AdvertisesIn(ihave[k], joined, m)
  {
    if m in Wanted(ihave, joined, seen) {
      var a :| a in ihave && AdvertisesIn(a, joined, m);
    }
  }

  predicate AdvertisesIn(a: Advert, joined: set<Topic>, m: MsgId) {
    a.topicID.Some? && a.topicID.value in joined && m in a.messageIDs
  }

  class IHaveTracker {
    var peerhave: map<PeerId, nat>
    var iasked: map<PeerId, nat>

    constructor ()
      ensures Now() == State(map[], map[])
    {
      peerhave, iasked := map[], map[];
    }

    function Now(): State
      reads this
    {
      State(peerhave, iasked)
    }

    /** Heartbeat: the counters start again. */
    method Clear()
      modifies this
      ensures Now() == State(map[], map[])
    {
      peerhave, iasked := map[], map[];
    }

    /** Decides which of the advertised ids to request. */
    method HandleIHave(id: PeerId, score: real, gossipThreshold: real, joined: set<Topic>, seen: set<MsgId>,
                       ihave: seq<Advert>) returns (batch: seq<MsgId>)
      modifies this
      ensures if ihave == [] then Now() == old(Now()) && batch == []
              else Answered(old(Now()), Call(id, score < gossipThreshold, Wanted(ihave, joined, seen), batch), Now())
    {
      if ihave == [] || score < gossipThreshold {
        return [];
      }
      var have := Count(peerhave, id) + 1;
      peerhave := peerhave[id := have];
      if have > MAX_IHAVE_MESSAGES {
        return [];
      }
      var asked := Count(iasked, id);
      if asked >= MAX_IHAVE_LENGTH {
        return [];
      }
      var iwant := CollectWanted(ihave, joined, seen);
      hide Wanted;
      if iwant == {} {
        return [];
      }
      var iask := |iwant|;
      if iask + asked > MAX_IHAVE_LENGTH {
        iask := MAX_IHAVE_LENGTH - asked;
      }
      batch := PickSome(iwant, iask);
      iasked := iasked[id := asked + iask];
    }

    /** The first `iask` of the ids in random order. */
    method PickSome(iwant: set<MsgId>, iask: nat) returns (batch: seq<MsgId>)
      requires iask <= |iwant|
      ensures Distinct(batch) && ToSet(batch) <= iwant && |batch| == iask
    {
      var listed := Enumerate(iwant);
      var iwantList := ShuffledSlice(listed, 0);
      assert listed[0..] == listed;
      PermutationFacts(listed, iwantList);
      batch := iwantList[..iask];
    }

    method CollectWanted(ihave: seq<Advert>, joined: set<Topic>, seen: set<MsgId>) returns (iwant: set<MsgId>)
      ensures iwant == Wanted(ihave, joined, seen)
    {
      iwant := {};
      for i := 0 to |ihave|
        invariant iwant == Wanted(ihave[..i], joined, seen)
      {
        var Advert(topicID, messageIDs) := ihave[i];
        ghost var before := iwant;
        WantedNext(ihave, i, joined, seen);
        if topicID.Some? && topicID.value in joined {
          for j := 0 to |messageIDs|
            invariant iwant == before + set m | m in messageIDs[..j] && m !in seen
          {
            assert messageIDs[..j + 1] == messageIDs[..j] + [messageIDs[j]];
            if messageIDs[j] !in seen {
              iwant := iwant + {messageIDs[j]};
            }
          }
          assert messageIDs[..|messageIDs|] == messageIDs;
        }
      }
      assert ihave[..|ihave|] == ihave;
    }
  }

  lemma WantedNext(ihave: seq<Advert>, i: nat, joined: set<Topic>, seen: set<MsgId>)
    requires i < |ihave|
    ensures var a := ihave[i];
            Wanted(ihave[..i + 1], joined, seen)
            == Wanted(ihave[..i], joined, seen)
               + if a.topicID.Some? && a.topicID.value in joined then set m | m in a.messageIDs && m !in seen else {}
  {
    assert ihave[..i + 1] == ihave[..i] + [ihave[i]];
  }
}
