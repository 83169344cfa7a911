/** What joining, leaving, a received PRUNE and publishing come to, said of the router's fields. */
module RouterRules {
  import opened Types
  import opened Seqs
  import opened MeshPass
  import opened RouterModel
  import opened HeartbeatRules
  import opened GraftRules

  // ----- joining

  /** Fanout peers of the topic that may go into its mesh: not configured peers, not negative, never backed off. */
  ghost function Promoted(c: Config, s: State, t: Topic, score: PeerId -> real): set<PeerId> {
    set p | t in s.fanout && p in s.fanout[t] && p !in c.direct && score(p) >= 0.0
            && !(t in s.backoff && p in s.backoff[t])
  }

  ghost function Newcomers(c: Config, s: State, t: Topic, score: PeerId -> real): set<PeerId> {
    set p | p in s.streams && Reaches(c, s, t, p, score, 0.0) && !(t in s.backoff && p in s.backoff[t])
            && p !in Promoted(c, s, t, score)
  }

  /**
   * A topic joined starts with its fit fanout peers and, if these are fewer than `D`, up to `D` random others that
   * can be reached; fanout forgets the topic. Nothing else changes.
   */
  lemma JoinRule(c: Config, s: State, t: Topic, score: PeerId -> real, now: int, s': State)
    requires Step(c, s, Subscribe(t, score), now, s') && t !in s.mesh
    ensures t in s'.mesh && s'.subscriptions == s.subscriptions + {t}
    ensures var fit, others := Promoted(c, s, t, score), Newcomers(c, s, t, score);
            && fit <= s'.mesh[t] <= fit + others
            && |s'.mesh[t]| == |fit| + if |fit| < c.params.D then Min(c.params.D, |others|) else 0
    ensures s'.mesh == s.mesh[t := s'.mesh[t]] && s'.fanout == s.fanout - {t} && s'.backoff == s.backoff
    ensures s'.topics == s.topics && s'.streams == s.streams && s'.outbound == s.outbound && s'.known == s.known
  {
    var s0 := s.(subscriptions := s.subscriptions + {t});
    assert Joined(c, s0, t, score, s');
    PoolsAre(c, s, s0, t, score);
    hide Promoted, Newcomers, FanoutFit, WithoutBackoff, Choosable, JoinChoice;
    ChosenSize(c, s0, t, score, s'.mesh[t]);
  }

  lemma PoolsAre(c: Config, s: State, s0: State, t: Topic, score: PeerId -> real)
    requires s0 == s.(subscriptions := s0.subscriptions)
    ensures FanoutFit(c, s0, t, score) == Promoted(c, s, t, score)
    ensures WithoutBackoff(s0, t, Choosable(c, s0, t, score, 0.0)) - FanoutFit(c, s0, t, score)
         == Newcomers(c, s, t, score)
  {
    assert FanoutFit(c, s0, t, score) == Promoted(c, s, t, score);
    hide FanoutFit, Promoted;
  }

  lemma ChosenSize(c: Config, s: State, t: Topic, score: PeerId -> real, chosen: set<PeerId>)
    requires JoinChoice(c, s, t, score, chosen)
    ensures var fit := FanoutFit(c, s, t, score);
            var others := WithoutBackoff(s, t, Choosable(c, s, t, score, 0.0)) - fit;
            && fit <= chosen <= fit + others
            && |chosen| == |fit| + if |fit| < c.params.D then Min(c.params.D, |others|) else 0
  {
    hide FanoutFit, WithoutBackoff, Choosable;
    var fit := FanoutFit(c, s, t, score);
    assert fit <= chosen;
    assert chosen * fit == fit;
    SplitCardinality(chosen, fit);
  }

  // ----- leaving

  /** The entry once `expire` is recorded: the later of the two counts. */
  predicate Raised(b: Backoffs, b': Backoffs, t: Topic, p: PeerId, expire: int) {
    t in b' && p in b'[t] && b'[t][p] == if t in b && p in b[t] && b[t][p] > expire then b[t][p] else expire
  }

  predicate Kept(b: Backoffs, b': Backoffs, t: Topic, p: PeerId) {
    && (t in b' && p in b'[t] <==> t in b && p in b[t])
    && (t in b && p in b[t] ==> b'[t][p] == b[t][p])
  }

  lemma BackoffAdded(b: Backoffs, u: Topic, ids: set<PeerId>, expire: int, t: Topic, p: PeerId)
    requires expire > 0
    ensures if t == u && p in ids then Raised(b, AddBackoff(b, u, ids, expire), t, p, expire)
            else Kept(b, AddBackoff(b, u, ids, expire), t, p)
  {
  }

  /**
   * A topic left has no mesh; its peers that can be told are backed off for the unsubscribe backoff, nobody else is.
   */
  lemma LeaveRule(c: Config, s: State, t: Topic, now: int, s': State, u: Topic, p: PeerId)
    requires Step(c, s, Unsubscribe(t), now, s') && now + c.unsubscribeBackoff > 0
    ensures s'.mesh == s.mesh - {t} && s'.subscriptions == s.subscriptions - {t}
    ensures s'.fanout == s.fanout && s'.topics == s.topics && s'.streams == s.streams
    ensures if u == t && t in s.mesh && p in s.mesh[t] && !(p in s.streams && s.streams[p] == GossipsubV10)
            then Raised(s.backoff, s'.backoff, u, p, now + c.unsubscribeBackoff) else Kept(s.backoff, s'.backoff, u, p)
  {
    var s0 := s.(subscriptions := s.subscriptions - {t});
    if t in s.mesh {
      BackoffAdded(s.backoff, t, Told(s0, s.mesh[t]), now + c.unsubscribeBackoff, u, p);
    }
    hide AddBackoff;
    assert t !in s.mesh ==> s.mesh - {t} == s.mesh;
  }

  /** A PRUNE sent backs the peer off for the prune backoff, unless it cannot be told. */
  lemma SendPruneRule(c: Config, s: State, id: PeerId, t: Topic, now: int, s': State, u: Topic, p: PeerId)
    requires Step(c, s, SendPrune(id, t), now, s') && now + c.pruneBackoff > 0
    ensures s'.mesh == s.mesh && s'.fanout == s.fanout
    ensures if u == t && p == id && !(p in s.streams && s.streams[p] == GossipsubV10)
            then Raised(s.backoff, s'.backoff, u, p, now + c.pruneBackoff) else Kept(s.backoff, s'.backoff, u, p)
  {
    SendPruneIs(c, s, id, t, now, s');
    hide Step;
    PruneMade(c, s, id, t, now, u, p);
  }

  lemma SendPruneIs(c: Config, s: State, id: PeerId, t: Topic, now: int, s': State)
    requires Step(c, s, SendPrune(id, t), now, s')
    ensures s' == MakePrune(c, s, id, t, false, now)
  {
    hide MakePrune;
  }

  lemma PruneMade(c: Config, s: State, id: PeerId, t: Topic, now: int, u: Topic, p: PeerId)
    requires now + c.pruneBackoff > 0
    ensures var s' := MakePrune(c, s, id, t, false, now);
            && s'.mesh == s.mesh && s'.fanout == s.fanout
            && if u == t && p == id && !(p in s.streams && s.streams[p] == GossipsubV10)
               then Raised(s.backoff, s'.backoff, u, p, now + c.pruneBackoff) else Kept(s.backoff, s'.backoff, u, p)
  {
    hide AddBackoff, Raised, Kept;
    if id in s.streams && s.streams[id] == GossipsubV10 {
      NothingAdded(s.backoff, u, p);
    } else {
      BackoffAdded(s.backoff, t, {id}, now + c.pruneBackoff, u, p);
    }
  }

  lemma NothingAdded(b: Backoffs, t: Topic, p: PeerId)
    ensures Kept(b, b, t, p)
  {
  }

  // ----- a received PRUNE

  /** The entry is processed: no topic up to it is one that is not joined. */
  ghost predicate Processed(s: State, prune: seq<PruneEntry>, k: nat) {
    k < |prune| && forall j :: 0 <= j <= k && prune[j].topic.Some? ==> prune[j].topic.value in s.mesh
  }

  /** The processed entries name the topic. */
  ghost predicate Named(s: State, prune: seq<PruneEntry>, t: Topic) {
    exists k: nat :: Processed(s, prune, k) && prune[k].topic == Some(t)
  }

  /** A positive number of seconds asked for is obeyed, in milliseconds; otherwise the prune backoff applies. */
  function Asked(c: Config, e: PruneEntry): int {
    if e.backoff.Some? && e.backoff.value > 0 then 1000 * e.backoff.value else c.pruneBackoff
  }

  lemma ProcessedLater(s: State, prune: seq<PruneEntry>, k: nat)
    requires prune != []
    ensures Processed(s, prune, 0) <==> !PruneStops(s, prune[0])
    ensures Processed(s, prune, k + 1) <==> !PruneStops(s, prune[0]) && Processed(s, prune[1..], k)
  {
    var rest := prune[1..];
    if Processed(s, rest, k) {
      assert forall j :: 1 <= j <= k + 1 ==> prune[j] == rest[j - 1];
    }
    if Processed(s, prune, k + 1) {
      assert forall j :: 0 <= j <= k ==> rest[j] == prune[j + 1];
    }
  }

  lemma NamedLater(s: State, prune: seq<PruneEntry>, t: Topic)
    requires prune != []
    ensures Named(s, prune, t) <==>
              !PruneStops(s, prune[0]) && (prune[0].topic == Some(t) || Named(s, prune[1..], t))
  {
    ProcessedLater(s, prune, 0);
    hide Processed, PruneStops;
    if k: nat :| Processed(s, prune, k) && prune[k].topic == Some(t) {
      if k > 0 {
        ProcessedLater(s, prune, k - 1);
        assert prune[1..][k - 1] == prune[k];
      }
    }
    if k: nat :| Processed(s, prune[1..], k) && prune[1..][k].topic == Some(t) {
      ProcessedLater(s, prune, k);
      assert PruneStops(s, prune[0]) || prune[k + 1].topic == Some(t);
    }
  }

  /** After a PRUNE the peer is out of exactly the meshes that the entries name, up to the first topic not joined. */
  lemma {:induction false} PruneMeshes(c: Config, s: State, id: PeerId, prune: seq<PruneEntry>, now: int, t: Topic)
    requires t in s.mesh
    ensures var s' := PruneList(c, s, id, prune, now);
            && s'.mesh.Keys == s.mesh.Keys
            && s'.mesh[t] == if Named(s, prune, t) then s.mesh[t] - {id} else s.mesh[t]
    decreases |prune|
  {
    if prune == [] {
      assert !Named(s, prune, t);
    } else {
      NamedLater(s, prune, t);
      if !PruneStops(s, prune[0]) {
        var s1 := PruneOne(c, s, id, prune[0], now);
        assert s1.mesh.Keys == s.mesh.Keys;
        SameNames(s, s1, prune[1..], t);
        PruneMeshes(c, s1, id, prune[1..], now, t);
        hide Named, AddBackoff;
        assert s.mesh[t] - {id} - {id} == s.mesh[t] - {id};
      }
    }
  }

  lemma SameNames(s: State, s1: State, prune: seq<PruneEntry>, t: Topic)
    requires s1.mesh.Keys == s.mesh.Keys
    ensures forall k: nat :: Processed(s1, prune, k) <==> Processed(s, prune, k)
    ensures Named(s1, prune, t) <==> Named(s, prune, t)
  {
  }

  /** And backed off in each of their topics for the time it asked, at least. */
  lemma {:induction false} PruneBacksOff(c: Config, s: State, id: PeerId, prune: seq<PruneEntry>, now: int, k: nat)
    requires Processed(s, prune, k) && prune[k].topic.Some? && now + Asked(c, prune[k]) > 0
    ensures HeldOff(PruneList(c, s, id, prune, now).backoff, prune[k].topic.value, id, now + Asked(c, prune[k]))
    decreases |prune|
  {
    ProcessedLater(s, prune, 0);
    assert Processed(s, prune, 0);
    var s1 := PruneOne(c, s, id, prune[0], now);
    assert s1.mesh.Keys == s.mesh.Keys;
    if k == 0 {
      var t, expire := prune[0].topic.value, now + Asked(c, prune[0]);
      hide HeldOff, AddBackoff, Processed;
      FirstHeld(c, s, id, prune[0], now);
      ListKeepsHeld(c, s1, id, prune[1..], now, t, expire);
    } else {
      ProcessedLater(s, prune, k - 1);
      SameNames(s, s1, prune[1..], prune[k].topic.value);
      assert prune[1..][k - 1] == prune[k];
      hide HeldOff, AddBackoff, Processed;
      PruneBacksOff(c, s1, id, prune[1..], now, k - 1);
    }
  }

  lemma FirstHeld(c: Config, s: State, id: PeerId, e: PruneEntry, now: int)
    requires !PruneStops(s, e) && e.topic.Some? && now + Asked(c, e) > 0
    ensures HeldOff(PruneOne(c, s, id, e, now).backoff, e.topic.value, id, now + Asked(c, e))
  {
    AddingHolds(s.backoff, e.topic.value, {id}, now + Asked(c, e), id);
    hide HeldOff, AddBackoff;
  }

  lemma {:induction false} ListKeepsHeld(c: Config, s: State, id: PeerId, prune: seq<PruneEntry>, now: int, t: Topic,
                                         least: int)
    requires HeldOff(s.backoff, t, id, least)
    ensures HeldOff(PruneList(c, s, id, prune, now).backoff, t, id, least)
    decreases |prune|
  {
    hide HeldOff, AddBackoff;
    if prune != [] && !PruneStops(s, prune[0]) {
      if prune[0].topic.Some? {
        AddingKeeps(s.backoff, prune[0].topic.value, {id}, PruneExpiry(c, prune[0], now), t, id, least);
      }
      ListKeepsHeld(c, PruneOne(c, s, id, prune[0], now), id, prune[1..], now, t, least);
    }
  }

  /** A received PRUNE, all in all. */
  lemma PruneRule(c: Config, s: State, id: PeerId, prune: seq<PruneEntry>, now: int, s': State)
    requires Step(c, s, Prune(id, prune), now, s')
    ensures s'.mesh.Keys == s.mesh.Keys
    ensures forall t :: t in s.mesh ==> s'.mesh[t] == if Named(s, prune, t) then s.mesh[t] - {id} else s.mesh[t]
    ensures forall k: nat :: k < |prune| && Processed(s, prune, k) && prune[k].topic.Some? ==>
              now + Asked(c, prune[k]) > 0 ==> HeldOff(s'.backoff, prune[k].topic.value, id, now + Asked(c, prune[k]))
  {
    hide PruneList, Named, Processed, HeldOff;
    MeshKeysStay(c, s, id, prune, now);
    forall t | t in s.mesh ensures s'.mesh[t] == if Named(s, prune, t) then s.mesh[t] - {id} else s.mesh[t] {
      PruneMeshes(c, s, id, prune, now, t);
    }
    forall k: nat | k < |prune| && Processed(s, prune, k) && prune[k].topic.Some? && now + Asked(c, prune[k]) > 0
      ensures HeldOff(s'.backoff, prune[k].topic.value, id, now + Asked(c, prune[k]))
    {
      PruneBacksOff(c, s, id, prune, now, k);
    }
  }

  lemma {:induction false} MeshKeysStay(c: Config, s: State, id: PeerId, prune: seq<PruneEntry>, now: int)
    ensures PruneList(c, s, id, prune, now).mesh.Keys == s.mesh.Keys
    decreases |prune|
  {
    if prune != [] && !PruneStops(s, prune[0]) {
      MeshKeysStay(c, PruneOne(c, s, id, prune[0], now), id, prune[1..], now);
    }
  }
}
