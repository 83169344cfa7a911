/** Safety of the router over whole runs. */
module RouterTheorems {
  import opened Types
  import opened Seqs
  import opened MeshPass
  import opened RouterModel

  // ----- backoff

  /** No entry is lost or lowered. */
  ghost predicate Grows(b: Backoffs, b': Backoffs) {
    forall t, p :: HasBackoff(b, t, p) ==> HasBackoff(b', t, p) && b[t][p] <= b'[t][p]
  }

  /** Only expired entries are lost. */
  ghost predicate KeptUntilExpiry(b: Backoffs, b': Backoffs, now: int) {
    forall t, p :: HasBackoff(b, t, p) ==> b[t][p] < now || (HasBackoff(b', t, p) && b[t][p] <= b'[t][p])
  }

  /** Peers enter a mesh only once their backoff is over. */
  ghost predicate EntersAfterBackoff(s: State, now: int, s': State) {
    forall t, p :: InMesh(s', t, p) && !InMesh(s, t, p) && HasBackoff(s.backoff, t, p) ==> s.backoff[t][p] <= now
  }

  lemma AddBackoffGrows(b: Backoffs, t: Topic, ids: set<PeerId>, expire: int)
    ensures Grows(b, AddBackoff(b, t, ids, expire))
  {
  }

  lemma GrowsTrans(a: Backoffs, b: Backoffs, c: Backoffs)
    requires Grows(a, b) && Grows(b, c)
    ensures Grows(a, c)
  {
  }

  lemma GraftOneSafe(c: Config, id: PeerId, score: real, now: int, e: GraftEffect, t: Topic)
    ensures Grows(e.s.backoff, GraftOne(c, id, score, now, e, t).s.backoff)
    ensures EntersAfterBackoff(e.s, now, GraftOne(c, id, score, now, e, t).s)
  {
    AddBackoffGrows(e.s.backoff, t, {id}, now + c.pruneBackoff);
    hide AddBackoff;
  }

  /** Steps that only let backoffs grow can be chained. */
  lemma SafeTrans(s: State, m: State, s': State, now: int)
    requires Grows(s.backoff, m.backoff) && EntersAfterBackoff(s, now, m)
    requires Grows(m.backoff, s'.backoff) && EntersAfterBackoff(m, now, s')
    ensures Grows(s.backoff, s'.backoff) && EntersAfterBackoff(s, now, s')
  {
    forall t, p | InMesh(s', t, p) && !InMesh(s, t, p) && HasBackoff(s.backoff, t, p)
      ensures s.backoff[t][p] <= now
    {
      assert HasBackoff(m.backoff, t, p) && s.backoff[t][p] <= m.backoff[t][p];
    }
  }

  lemma {:induction false} GraftAllSafe(c: Config, id: PeerId, score: real, now: int, e: GraftEffect,
                                        graft: seq<Option<Topic>>)
    ensures Grows(e.s.backoff, GraftAll(c, id, score, now, e, graft).s.backoff)
    ensures EntersAfterBackoff(e.s, now, GraftAll(c, id, score, now, e, graft).s)
  {
    if graft != [] {
      var front, last := graft[..|graft| - 1], graft[|graft| - 1];
      var m := GraftAll(c, id, score, now, e, front);
      GraftAllSafe(c, id, score, now, e, front);
      if last.Some? {
        GraftOneSafe(c, id, score, now, m, last.value);
        SafeTrans(e.s, m.s, GraftOne(c, id, score, now, m, last.value).s, now);
      }
    }
  }

  lemma {:induction false} MakePrunesSafe(c: Config, s: State, id: PeerId, topics: seq<Topic>, now: int)
    ensures Grows(s.backoff, MakePrunes(c, s, id, topics, now).backoff)
    ensures MakePrunes(c, s, id, topics, now).mesh == s.mesh
    ensures MakePrunes(c, s, id, topics, now) == s.(backoff := MakePrunes(c, s, id, topics, now).backoff)
  {
    if topics != [] {
      var before, t := topics[..|topics| - 1], topics[|topics| - 1];
      var m := MakePrunes(c, s, id, before, now);
      hide MakePrune, Grows;
      MakePrunesSafe(c, s, id, before, now);
      MakePruneSafe(c, m, id, t, now);
      GrowsTrans(s.backoff, m.backoff, MakePrune(c, m, id, t, false, now).backoff);
    }
  }

  lemma MakePruneSafe(c: Config, s: State, id: PeerId, t: Topic, now: int)
    ensures var s' := MakePrune(c, s, id, t, false, now);
            Grows(s.backoff, s'.backoff) && s' == s.(backoff := s'.backoff)
    ensures Grows(s.backoff, s.backoff)
  {
    AddBackoffGrows(s.backoff, t, {id}, now + c.pruneBackoff);
    hide AddBackoff;
  }

  lemma {:induction false} PruneListSafe(c: Config, s: State, id: PeerId, prune: seq<PruneEntry>, now: int)
    ensures Grows(s.backoff, PruneList(c, s, id, prune, now).backoff)
    ensures forall t, p :: InMesh(PruneList(c, s, id, prune, now), t, p) ==> InMesh(s, t, p)
    decreases |prune|
  {
    if prune != [] && !PruneStops(s, prune[0]) {
      PruneOneSafe(c, s, id, prune[0], now);
      hide PruneOne;
      PruneListSafe(c, PruneOne(c, s, id, prune[0], now), id, prune[1..], now);
    }
  }

  lemma PruneOneSafe(c: Config, s: State, id: PeerId, e: PruneEntry, now: int)
    requires !PruneStops(s, e)
    ensures Grows(s.backoff, PruneOne(c, s, id, e, now).backoff)
    ensures forall t, p :: InMesh(PruneOne(c, s, id, e, now), t, p) ==> InMesh(s, t, p)
  {
    if e.topic.Some? {
      AddBackoffGrows(s.backoff, e.topic.value, {id}, PruneExpiry(c, e, now));
      hide AddBackoff;
    }
  }

  lemma BeatenSafe(c: Config, s: State, score: PeerId -> real, passes: map<Topic, Pass>, now: int, s': State)
    requires Beaten(c, s, score, passes, now, s')
    ensures KeptUntilExpiry(s.backoff, s'.backoff, now) && EntersAfterBackoff(s, now, s')
  {
    hide ClearBackoff, PrunesBacked, FanoutMaintained, PassStarts, Maintained;
    var s1 := Ticked(c, s, now);
    ClearKeepsLive(c, s.backoff, s1.ticks, now);
    PrunesGrow(s1.backoff, passes, now + c.pruneBackoff, s'.backoff);
    forall t, p | InMesh(s', t, p) && !InMesh(s, t, p) && HasBackoff(s.backoff, t, p)
      ensures s.backoff[t][p] <= now
    {
      PassAdmits(c, s1, t, score, passes[t], p);
    }
  }

  /** A pass adds candidates only, and those have no backoff. */
  lemma PassAdmits(c: Config, s: State, t: Topic, score: PeerId -> real, pass: Pass, p: PeerId)
    requires t in s.mesh && p in pass.outcome.peers && p !in s.mesh[t]
    requires PassStarts(c, s, t, score, OpportunisticTick(c, s.ticks), pass.inputs)
    requires Maintained(pass.inputs, pass.outcome)
    ensures p in Choosable(c, s, t, score, 0.0) && !HasBackoff(s.backoff, t, p)
  {
    hide Filled, Cut, QuotaMade, OpportunisticMade, Distinct, Choosable, GossipWorthy;
    assert p in ToSet(pass.outcome.Grafted());
  }

  lemma ClearKeepsLive(c: Config, b: Backoffs, ticks: nat, now: int)
    ensures KeptUntilExpiry(b, ClearBackoff(c, b, ticks, now), now)
    ensures forall t, p :: HasBackoff(ClearBackoff(c, b, ticks, now), t, p) ==> HasBackoff(b, t, p)
  {
    forall t, p | HasBackoff(b, t, p) && !(b[t][p] < now)
      ensures HasBackoff(ClearBackoff(c, b, ticks, now), t, p) && b[t][p] <= ClearBackoff(c, b, ticks, now)[t][p]
    {
      assert p in Live(c, b[t], now);
    }
  }

  lemma PrunesGrow(b: Backoffs, passes: map<Topic, Pass>, expire: int, b': Backoffs)
    requires PrunesBacked(b, passes, expire, b')
    ensures Grows(b, b')
  {
    forall t, p | HasBackoff(b, t, p) ensures HasBackoff(b', t, p) && b[t][p] <= b'[t][p] {
      assert EntryBacked(b, passes, expire, b', t);
    }
  }

  /** Whatever happens, backoffs are kept until they expire and bar the mesh until then. */
  lemma StepSafe(c: Config, s: State, e: Event, now: int, s': State)
    requires Step(c, s, e, now, s')
    ensures KeptUntilExpiry(s.backoff, s'.backoff, now) && EntersAfterBackoff(s, now, s')
  {
    hide Beaten;
    match e
    case Heartbeat(score, passes) => BeatenSafe(c, s, score, passes, now, s');
    case _ => GrowingStep(c, s, e, now, s');
  }

  /** All steps but the heartbeat only let backoffs grow. */
  lemma GrowingStep(c: Config, s: State, e: Event, now: int, s': State)
    requires Step(c, s, e, now, s') && !e.Heartbeat?
    ensures Grows(s.backoff, s'.backoff) && EntersAfterBackoff(s, now, s')
  {
    hide GraftAll, MakePrunes, MakePrune, PruneList, Beaten, Left, Joined, Published, Grows, EntersAfterBackoff,
      PeerAdded, StreamOpened, TopicAnnounced, PeerRemoved;
    match e
    case Graft(id, score, graft) => GraftSafe(c, s, id, score, graft, now);
    case Prune(id, prune) =>
      PruneListSafe(c, s, id, prune, now);
      NobodyEnters(s, now, s');
    case Unsubscribe(t) => LeftSafe(c, s, s.subscriptions - {t}, t, now);
    case SendPrune(id, t) =>
      OnePrune(c, s, id, t, now);
      MakePrunesSafe(c, s, id, [t], now);
      NobodyEnters(s, now, s');
    case Subscribe(t, score) => JoinedSafe(c, s, s.subscriptions + {t}, t, score, now, s');
    case Publish(t, score) =>
      PublishedSafe(c, s, t, score, now, s');
      Untouched(s, now, s');
    case _ =>
      PeerStepSafe(c, s, e, now, s');
  }

  lemma NobodyEnters(s: State, now: int, s': State)
    requires forall t, p :: InMesh(s', t, p) ==> InMesh(s, t, p)
    ensures EntersAfterBackoff(s, now, s')
  {
  }

  lemma Untouched(s: State, now: int, s': State)
    requires s'.backoff == s.backoff && forall t, p :: InMesh(s', t, p) ==> InMesh(s, t, p)
    ensures Grows(s.backoff, s'.backoff) && EntersAfterBackoff(s, now, s')
  {
  }

  lemma PeerStepSafe(c: Config, s: State, e: Event, now: int, s': State)
    requires Step(c, s, e, now, s') && (e.AddPeer? || e.OpenStream? || e.Announce? || e.RemovePeer?)
    ensures Grows(s.backoff, s'.backoff) && EntersAfterBackoff(s, now, s')
  {
    hide Grows, EntersAfterBackoff, Beaten, Joined, Published, Left, GraftAll, PruneList, MakePrune;
    Untouched(s, now, s');
  }

  lemma OnePrune(c: Config, s: State, id: PeerId, t: Topic, now: int)
    ensures MakePrunes(c, s, id, [t], now) == MakePrune(c, s, id, t, false, now)
  {
    hide MakePrune;
    assert [t][..0] == [];
  }

  lemma GraftSafe(c: Config, s: State, id: PeerId, score: real, graft: seq<Option<Topic>>, now: int)
    ensures var r := GraftAll(c, id, score, now, GraftEffect(s, [], c.doPX, 0), graft);
            var s' := MakePrunes(c, r.s, id, r.prune, now);
            Grows(s.backoff, s'.backoff) && EntersAfterBackoff(s, now, s')
  {
    hide GraftAll, MakePrunes;
    var start := GraftEffect(s, [], c.doPX, 0);
    var r := GraftAll(c, id, score, now, start, graft);
    GraftAllSafe(c, id, score, now, start, graft);
    MakePrunesSafe(c, r.s, id, r.prune, now);
    GrowsTrans(s.backoff, r.s.backoff, MakePrunes(c, r.s, id, r.prune, now).backoff);
  }

  lemma LeftSafe(c: Config, s: State, subscribed: set<Topic>, t: Topic, now: int)
    ensures var s' := Left(c, s.(subscriptions := subscribed), t, now);
            Grows(s.backoff, s'.backoff) && EntersAfterBackoff(s, now, s')
  {
    hide AddBackoff, Told;
    if t in s.mesh {
      AddBackoffGrows(s.backoff, t, Told(s.(subscriptions := subscribed), s.mesh[t]), now + c.unsubscribeBackoff);
    }
  }

  lemma JoinedSafe(c: Config, s: State, subscribed: set<Topic>, t: Topic, score: PeerId -> real, now: int, s': State)
    requires Joined(c, s.(subscriptions := subscribed), t, score, s')
    ensures Grows(s.backoff, s'.backoff) && EntersAfterBackoff(s, now, s')
  {
    hide Choosable;
    if t !in s.mesh {
      forall p | p in s'.mesh[t] ensures !HasBackoff(s.backoff, t, p) {
        var s0 := s.(subscriptions := subscribed);
        assert p in FanoutFit(c, s0, t, score) || p in s'.mesh[t] - FanoutFit(c, s0, t, score);
      }
    }
  }

  lemma PublishedSafe(c: Config, s: State, t: Topic, score: PeerId -> real, now: int, s': State)
    requires Published(c, s, t, score, now, s')
    ensures s'.backoff == s.backoff && s'.mesh == s.mesh && s'.subscriptions == s.subscriptions
  {
    hide Reachable, RandomPick;
  }

  /**
   * Once an expiry is on record for a peer and topic, every later entry of that peer into that mesh, by any
   * step of any run, happens no earlier.
   */
  lemma {:induction false} BackoffHonoured(c: Config, run: seq<Moment>, i: nat, j: nat, t: Topic, p: PeerId)
    requires IsRun(c, run) && i < j < |run|
    requires HasBackoff(run[i].state.backoff, t, p)
    requires InMesh(run[j].state, t, p) && !InMesh(run[j - 1].state, t, p)
    ensures run[j].now >= run[i].state.backoff[t][p]
  {
    hide Step;
    BackoffPersists(c, run, i, j - 1, t, p);
    StepSafe(c, run[j - 1].state, run[j].event, run[j].now, run[j].state);
  }

  lemma {:induction false} BackoffPersists(c: Config, run: seq<Moment>, i: nat, k: nat, t: Topic, p: PeerId)
    requires IsRun(c, run) && i <= k < |run| && HasBackoff(run[i].state.backoff, t, p)
    ensures var e := run[i].state.backoff[t][p];
            || e <= run[k].now
            || (HasBackoff(run[k].state.backoff, t, p) && e <= run[k].state.backoff[t][p])
  {
    hide Step;
    if i < k {
      BackoffPersists(c, run, i, k - 1, t, p);
      StepSafe(c, run[k - 1].state, run[k].event, run[k].now, run[k].state);
    }
  }
}
