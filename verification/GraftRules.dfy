/** What a GRAFT comes to, said of the router's fields: who gets in, and who is penalised. */
module GraftRules {
  import opened Types
  import opened Seqs
  import opened RouterModel
  import opened RouterAnswers

  /** An unexpired backoff of the peer in the topic. */
  ghost predicate BackedOffNow(s: State, t: Topic, id: PeerId, now: int) {
    t in s.backoff && id in s.backoff[t] && now < s.backoff[t][id]
  }

  /** What lets a peer into a mesh it is not in: we dialled it, or there is room, and nothing speaks against it. */
  ghost predicate MayEnter(c: Config, s: State, id: PeerId, score: real, now: int, t: Topic)
    requires t in s.mesh
  {
    && id !in c.direct && !BackedOffNow(s, t, id, now) && score >= 0.0
    && (|s.mesh[t]| < c.params.Dhi || (id in s.outbound && s.outbound[id]))
  }

  /** A topic after some of a GRAFT: as before if not named, else with the peer in exactly if it may enter. */
  ghost predicate Ruled(c: Config, s: State, id: PeerId, score: real, now: int, s': State, t: Topic, named: bool)
    requires t in s.mesh
  {
    && t in s'.mesh && s'.outbound == s.outbound
    && s'.mesh[t] == (if named && MayEnter(c, s, id, score, now, t) then s.mesh[t] + {id} else s.mesh[t])
    && (BackedOffNow(s, t, id, now) ==> BackedOffNow(s', t, id, now))
    && (!named ==> SameEntry(s.backoff, s'.backoff, t))
  }

  lemma RuledNext(c: Config, s: State, id: PeerId, score: real, now: int, e: GraftEffect, t: Topic, named: bool,
                  next: Topic)
    requires t in s.mesh && Ruled(c, s, id, score, now, e.s, t, named)
    ensures Ruled(c, s, id, score, now, GraftOne(c, id, score, now, e, next).s, t, named || next == t)
  {
    AcceptedIff(c, e.s, id, score, now, t);
    OneEntry(c, id, score, now, e, next, t);
    assert id in s.mesh[t] ==> s.mesh[t] + {id} == s.mesh[t];
    hide GraftOne, AnswerTo, AddBackoff;
  }

  lemma AcceptedIff(c: Config, s: State, id: PeerId, score: real, now: int, t: Topic)
    requires t in s.mesh
    ensures AnswerTo(c, s, id, score, now, t) == Accepted <==>
              id !in s.mesh[t] && MayEnter(c, s, id, score, now, t)
  {
  }

  /** What one topic of a GRAFT does to another, or to itself. */
  lemma OneEntry(c: Config, id: PeerId, score: real, now: int, e: GraftEffect, next: Topic, t: Topic)
    requires t in e.s.mesh
    ensures var s' := GraftOne(c, id, score, now, e, next).s;
            && t in s'.mesh && s'.outbound == e.s.outbound
            && s'.mesh[t] == (if next == t && AnswerTo(c, e.s, id, score, now, t) == Accepted then e.s.mesh[t] + {id}
                              else e.s.mesh[t])
            && (BackedOffNow(e.s, t, id, now) ==> BackedOffNow(s', t, id, now))
            && (next != t ==> SameEntry(e.s.backoff, s'.backoff, t))
  {
    hide AnswerTo;
  }

  lemma {:induction false} AllRuled(c: Config, s: State, id: PeerId, score: real, graft: seq<Option<Topic>>, now: int,
                                    t: Topic)
    requires t in s.mesh
    ensures var e := GraftAll(c, id, score, now, GraftEffect(s, [], c.doPX, 0), graft);
            Ruled(c, s, id, score, now, e.s, t, Some(t) in graft)
  {
    if graft != [] {
      var front, last := graft[..|graft| - 1], graft[|graft| - 1];
      AllRuled(c, s, id, score, front, now, t);
      assert graft == front + [last];
      hide Ruled, GraftOne, MayEnter;
      if last.Some? {
        RuledNext(c, s, id, score, now, GraftAll(c, id, score, now, GraftEffect(s, [], c.doPX, 0), front), t,
                  Some(t) in front, last.value);
      }
    }
  }

  lemma {:induction false} PrunesLeaveMeshes(c: Config, s: State, id: PeerId, topics: seq<Topic>, now: int)
    ensures MakePrunes(c, s, id, topics, now).mesh == s.mesh && MakePrunes(c, s, id, topics, now).outbound == s.outbound
  {
    if topics != [] {
      PrunesLeaveMeshes(c, s, id, topics[..|topics| - 1], now);
    }
  }

  /**
   * After a GRAFT the peer is in a joined topic's mesh exactly if it was, or if the topic is named and the peer is not
   * direct, has no unexpired backoff and no negative score, and there is room or we dialled it. Nobody else moves.
   */
  lemma AdmittedIff(c: Config, s: State, id: PeerId, score: real, graft: seq<Option<Topic>>, now: int, s': State,
                    t: Topic)
    requires Step(c, s, Graft(id, score, graft), now, s') && t in s.mesh
    ensures t in s'.mesh && s'.mesh[t] - {id} == s.mesh[t] - {id}
    ensures id in s'.mesh[t] <==>
              || id in s.mesh[t]
              || (&& Some(t) in graft && id !in c.direct && score >= 0.0
                  && !(t in s.backoff && id in s.backoff[t] && now < s.backoff[t][id])
                  && (|s.mesh[t]| < c.params.Dhi || (id in s.outbound && s.outbound[id])))
  {
    var r := GraftAll(c, id, score, now, GraftEffect(s, [], c.doPX, 0), graft);
    AllRuled(c, s, id, score, graft, now, t);
    PrunesLeaveMeshes(c, r.s, id, r.prune, now);
    hide GraftAll, MakePrunes;
  }

  // ----- over runs

  /** Only GRAFTs, of peers we did not dial. */
  ghost predicate OnlyDialledUs(run: seq<Moment>) {
    forall k :: 0 < k < |run| ==>
      run[k].event.Graft? && !(run[k].event.from in run[0].state.outbound && run[0].state.outbound[run[k].event.from])
  }

  /** However many peers that dialled us send GRAFTs, they do not make a mesh grow past `Dhi`. */
  lemma {:induction false} GraftsFillUpTo(c: Config, run: seq<Moment>, t: Topic)
    requires run != [] && IsRun(c, run) && OnlyDialledUs(run) && t in run[0].state.mesh
    ensures var last := run[|run| - 1].state;
            && last.outbound == run[0].state.outbound && t in last.mesh
            && |last.mesh[t]| <= Max(c.params.Dhi, |run[0].state.mesh[t]|)
  {
    if |run| > 1 {
      var before := run[..|run| - 1];
      GraftsFillUpTo(c, before, t);
      var was, m := before[|before| - 1].state, run[|run| - 1];
      assert run[|before| - 1].state == was && Step(c, was, m.event, m.now, m.state);
      hide Step, IsRun;
      GraftGrows(c, was, m.event, m.now, m.state, t);
    }
  }

  lemma GraftGrows(c: Config, s: State, e: Event, now: int, s': State, t: Topic)
    requires e.Graft? && Step(c, s, e, now, s') && t in s.mesh
    ensures t in s'.mesh && s'.outbound == s.outbound
    ensures !(e.from in s.outbound && s.outbound[e.from]) ==> |s'.mesh[t]| <= Max(c.params.Dhi, |s.mesh[t]|)
  {
    AdmittedIff(c, s, e.from, e.peerScore, e.graft, now, s', t);
    var r := GraftAll(c, e.from, e.peerScore, now, GraftEffect(s, [], c.doPX, 0), e.graft);
    AllRuled(c, s, e.from, e.peerScore, e.graft, now, t);
    PrunesLeaveMeshes(c, r.s, e.from, r.prune, now);
    hide GraftAll, MakePrunes;
    if e.from in s'.mesh[t] && e.from !in s.mesh[t] {
      assert s'.mesh[t] == s.mesh[t] + {e.from};
    } else {
      assert s'.mesh[t] == s.mesh[t];
    }
  }

  // ----- penalties, peer exchange and backoff

  /** No topic is named twice. */
  ghost predicate NoRepeats(graft: seq<Option<Topic>>) {
    forall i, j :: 0 <= i < j < |graft| && graft[i].Some? ==> graft[i] != graft[j]
  }

  /** What asking for one topic during a backoff costs: a point, and another if the peer was just pruned. */
  function Charge(c: Config, s: State, id: PeerId, now: int, t: Topic): nat {
    if t in s.mesh && id !in s.mesh[t] && id !in c.direct && t in s.backoff && id in s.backoff[t]
       && now < s.backoff[t][id]
    then 1 + (if now < s.backoff[t][id] + c.graftFloodThreshold - c.pruneBackoff then 1 else 0)
    else 0
  }

  function Charges(c: Config, s: State, id: PeerId, now: int, graft: seq<Option<Topic>>): nat {
    if graft == [] then 0
    else
      var last := graft[|graft| - 1];
      Charges(c, s, id, now, graft[..|graft| - 1]) + if last.Some? then Charge(c, s, id, now, last.value) else 0
  }

  /** Nothing speaks against the peer in a joined topic. */
  ghost predicate Clean(c: Config, s: State, id: PeerId, score: real, now: int, t: Topic) {
    t in s.mesh
    && (id in s.mesh[t] || (id !in c.direct && score >= 0.0 && !BackedOffNow(s, t, id, now)))
  }

  /** A GRAFT costs the sum of its topics' charges, and earns peer exchange exactly if all its topics are clean. */
  lemma {:induction false} GraftCosts(c: Config, s: State, id: PeerId, score: real, graft: seq<Option<Topic>>, now: int)
    requires NoRepeats(graft)
    ensures var e := GraftAll(c, id, score, now, GraftEffect(s, [], c.doPX, 0), graft);
            && e.penalties == Charges(c, s, id, now, graft) && e.s.mesh.Keys == s.mesh.Keys
            && (e.doPX <==> c.doPX && forall t :: Some(t) in graft ==> Clean(c, s, id, score, now, t))
  {
    if graft != [] {
      var front, last := graft[..|graft| - 1], graft[|graft| - 1];
      GraftCosts(c, s, id, score, front, now);
      assert graft == front + [last] && last in graft;
      var e := GraftAll(c, id, score, now, GraftEffect(s, [], c.doPX, 0), front);
      if last.Some? {
        var t := last.value;
        assert last !in front;
        if t in s.mesh {
          AllRuled(c, s, id, score, front, now, t);
        }
        hide Ruled, MayEnter, GraftOne, Charge, Clean, NoRepeats;
        OneCosts(c, s, id, score, now, e, t);
        assert forall u :: Some(u) in graft <==> u == t || Some(u) in front;
      }
    }
  }

  lemma OneCosts(c: Config, s: State, id: PeerId, score: real, now: int, e: GraftEffect, t: Topic)
    requires e.s.mesh.Keys == s.mesh.Keys && (t in s.mesh ==> Ruled(c, s, id, score, now, e.s, t, false))
    ensures var e' := GraftOne(c, id, score, now, e, t);
            && e'.penalties == e.penalties + Charge(c, s, id, now, t) && e'.s.mesh.Keys == s.mesh.Keys
            && (e'.doPX <==> e.doPX && Clean(c, s, id, score, now, t))
  {
    hide AddBackoff;
  }

  /** A recorded backoff of at least `expire`. */
  ghost predicate HeldOff(b: Backoffs, t: Topic, id: PeerId, expire: int) {
    t in b && id in b[t] && b[t][id] >= expire
  }

  lemma AddingKeeps(b: Backoffs, u: Topic, ids: set<PeerId>, expire: int, t: Topic, id: PeerId, least: int)
    requires HeldOff(b, t, id, least)
    ensures HeldOff(AddBackoff(b, u, ids, expire), t, id, least)
  {
  }

  lemma AddingHolds(b: Backoffs, t: Topic, ids: set<PeerId>, expire: int, id: PeerId)
    requires id in ids && expire > 0
    ensures HeldOff(AddBackoff(b, t, ids, expire), t, id, expire)
  {
  }

  lemma {:induction false} PrunedAreHeldOff(c: Config, s: State, id: PeerId, topics: seq<Topic>, now: int, t: Topic)
    requires t in topics && now + c.pruneBackoff > 0 && !(id in s.streams && s.streams[id] == GossipsubV10)
    ensures HeldOff(MakePrunes(c, s, id, topics, now).backoff, t, id, now + c.pruneBackoff)
    ensures MakePrunes(c, s, id, topics, now).streams == s.streams
  {
    var front, last := topics[..|topics| - 1], topics[|topics| - 1];
    var before := MakePrunes(c, s, id, front, now);
    StreamsStay(c, s, id, front, now);
    hide AddBackoff, HeldOff;
    if last == t {
      AddingHolds(before.backoff, t, {id}, now + c.pruneBackoff, id);
    } else {
      assert t in front;
      PrunedAreHeldOff(c, s, id, front, now, t);
      AddingKeeps(before.backoff, last, {id}, now + c.pruneBackoff, t, id, now + c.pruneBackoff);
    }
  }

  lemma {:induction false} StreamsStay(c: Config, s: State, id: PeerId, topics: seq<Topic>, now: int)
    ensures MakePrunes(c, s, id, topics, now).streams == s.streams
  {
    if topics != [] {
      StreamsStay(c, s, id, topics[..|topics| - 1], now);
    }
  }

  lemma {:induction false} RefusalHolds(c: Config, s: State, id: PeerId, score: real, graft: seq<Option<Topic>>,
                                        now: int, t: Topic)
    requires t in s.mesh && Some(t) in graft && !MayEnter(c, s, id, score, now, t) && id !in s.mesh[t]
    requires id !in c.direct && now + c.pruneBackoff > 0
    ensures var e := GraftAll(c, id, score, now, GraftEffect(s, [], c.doPX, 0), graft);
            HeldOff(e.s.backoff, t, id, now + c.pruneBackoff)
  {
    var front, last := graft[..|graft| - 1], graft[|graft| - 1];
    var e := GraftAll(c, id, score, now, GraftEffect(s, [], c.doPX, 0), front);
    AllRuled(c, s, id, score, front, now, t);
    if last == Some(t) {
      OneHolds(c, s, id, score, now, e, t, Some(t) in front);
    } else {
      assert Some(t) in front;
      RefusalHolds(c, s, id, score, front, now, t);
      if last.Some? {
        OneKeepsHeld(c, id, score, now, e, last.value, t, now + c.pruneBackoff);
      }
    }
    hide Ruled, MayEnter, GraftOne, HeldOff;
  }

  lemma OneHolds(c: Config, s: State, id: PeerId, score: real, now: int, e: GraftEffect, t: Topic, named: bool)
    requires t in s.mesh && Ruled(c, s, id, score, now, e.s, t, named)
    requires !MayEnter(c, s, id, score, now, t) && id !in s.mesh[t] && id !in c.direct && now + c.pruneBackoff > 0
    ensures HeldOff(GraftOne(c, id, score, now, e, t).s.backoff, t, id, now + c.pruneBackoff)
  {
    AddingHolds(e.s.backoff, t, {id}, now + c.pruneBackoff, id);
    hide AddBackoff, HeldOff;
  }

  lemma OneKeepsHeld(c: Config, id: PeerId, score: real, now: int, e: GraftEffect, next: Topic, t: Topic, least: int)
    requires HeldOff(e.s.backoff, t, id, least)
    ensures HeldOff(GraftOne(c, id, score, now, e, next).s.backoff, t, id, least)
  {
    AddingKeeps(e.s.backoff, next, {id}, now + c.pruneBackoff, t, id, least);
    hide AddBackoff, HeldOff;
  }

  lemma {:induction false} PrunesKeepHeld(c: Config, s: State, id: PeerId, topics: seq<Topic>, now: int, t: Topic,
                                          least: int)
    requires HeldOff(s.backoff, t, id, least)
    ensures HeldOff(MakePrunes(c, s, id, topics, now).backoff, t, id, least)
  {
    if topics != [] {
      var front, last := topics[..|topics| - 1], topics[|topics| - 1];
      PrunesKeepHeld(c, s, id, front, now, t, least);
      AddingKeeps(MakePrunes(c, s, id, front, now).backoff, last, {id}, now + c.pruneBackoff, t, id, least);
      hide AddBackoff, HeldOff;
    }
  }

  lemma {:induction false} GraftKeepsStreams(c: Config, id: PeerId, score: real, now: int, e: GraftEffect,
                                             graft: seq<Option<Topic>>)
    ensures GraftAll(c, id, score, now, e, graft).s.streams == e.s.streams
  {
    if graft != [] {
      GraftKeepsStreams(c, id, score, now, e, graft[..|graft| - 1]);
      hide AddBackoff, AnswerTo;
    }
  }

  /** A peer turned down is backed off for the prune backoff, except a direct peer that could not be told of it. */
  lemma TurnedDownIsBackedOff(c: Config, s: State, id: PeerId, score: real, graft: seq<Option<Topic>>, now: int,
                              s': State, t: Topic)
    requires Step(c, s, Graft(id, score, graft), now, s') && t in s.mesh && Some(t) in graft && now + c.pruneBackoff > 0
    requires t in s'.mesh && id !in s'.mesh[t]
    requires id !in c.direct || !(id in s.streams && s.streams[id] == GossipsubV10)
    ensures t in s'.backoff && id in s'.backoff[t] && s'.backoff[t][id] >= now + c.pruneBackoff
  {
    var r := GraftAll(c, id, score, now, GraftEffect(s, [], c.doPX, 0), graft);
    GraftAnsweredOnce(c, s, id, score, graft, now, t);
    PrunesLeaveMeshes(c, r.s, id, r.prune, now);
    GraftKeepsStreams(c, id, score, now, GraftEffect(s, [], c.doPX, 0), graft);
    if id !in c.direct {
      AllRuled(c, s, id, score, graft, now, t);
      hide GraftAll, MakePrunes, HeldOff;
      RefusalHolds(c, s, id, score, graft, now, t);
      PrunesKeepHeld(c, r.s, id, r.prune, now, t, now + c.pruneBackoff);
    } else {
      hide GraftAll, MakePrunes, HeldOff;
      PrunedAreHeldOff(c, r.s, id, r.prune, now, t);
    }
    assert HeldOff(s'.backoff, t, id, now + c.pruneBackoff);
    HeldOffIs(s'.backoff, t, id, now + c.pruneBackoff);
  }

  lemma HeldOffIs(b: Backoffs, t: Topic, id: PeerId, least: int)
    ensures HeldOff(b, t, id, least) <==> t in b && id in b[t] && b[t][id] >= least
  {
  }
}
