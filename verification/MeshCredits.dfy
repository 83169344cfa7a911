/** What deliveries in the mesh and invalid deliveries add up to, copies of messages included. */
module MeshCredits {
  import opened Types
  import opened Seqs
  import opened ScoreParams
  import opened ComputeScore
  import opened Deliveries
  import opened PeerScoreModel
  import opened PeerScoreTheorems
  import opened DeliveryCounts

  // ----- one peer's stats of one topic through marks

  lemma ThroughMark(params: Params, stats: Stats, who: set<PeerId>, u: Topic, m: Mark, p: PeerId, t: Topic)
    requires p in stats && t in params.topics
    ensures var stats' := MarkAll(params, stats, who, u, m);
            && p in stats'
            && TopicOf(stats'[p], t)
               == if p in who && u == t then MarkedTopic(params.topics[t], TopicOf(stats[p], t), m)
                  else TopicOf(stats[p], t)
  {
    hide MarkedTopic;
  }

  lemma ThroughBlame(params: Params, stats: Stats, blames: multiset<PeerId>, u: Topic, p: PeerId, t: Topic)
    requires p in stats && t in params.topics
    ensures var stats' := BlameAll(params, stats, blames, u);
            && p in stats'
            && TopicOf(stats'[p], t)
               == if p in blames && u == t then MarkedTopic(params.topics[t], TopicOf(stats[p], t), Blame(blames[p]))
                  else TopicOf(stats[p], t)
  {
    hide MarkedTopic;
  }

  lemma ThroughMessage(params: Params, s: State, msg: MsgId, u: Topic, e: RecordEvent, now: int, p: PeerId, t: Topic)
    requires p in s.peerStats && t in params.topics
    ensures var r := Ensured(s.records, msg, now)[msg];
            var delay := if e.Duplicate? then Some(now - r.validated) else None;
            var stats, blames := AfterMessage(params, s, msg, u, e, now).peerStats, Blames(r, e);
            var was := TopicOf(s.peerStats[p], t);
            var copied := if p in Credits(r, e) && u == t then MarkedTopic(params.topics[t], was, Copy(delay)) else was;
            && p in stats
            && TopicOf(stats[p], t)
               == if p in blames && u == t then MarkedTopic(params.topics[t], copied, Blame(blames[p])) else copied
  {
    var r := Ensured(s.records, msg, now)[msg];
    var delay := if e.Duplicate? then Some(now - r.validated) else None;
    var copied := MarkAll(params, s.peerStats, Credits(r, e), u, Copy(delay));
    assert AfterMessage(params, s, msg, u, e, now).peerStats == BlameAll(params, copied, Blames(r, e), u);
    hide MarkAll, BlameAll, MarkedTopic, TopicOf, Credits, Blames, Ensured, AfterMessage;
    ThroughMark(params, s.peerStats, Credits(r, e), u, Copy(delay), p, t);
    ThroughBlame(params, copied, Blames(r, e), u, p, t);
  }

  lemma RecordFound(records: Records, msg: MsgId, now: int)
    ensures var all := Ensured(records, msg, now);
            && msg in all
            && if msg in records then all[msg] == records[msg] else all[msg].status == Unknown && all[msg].peers == {}
  {
  }

  // ----- deliveries in the mesh

  /**
   * What counts as a delivery in the mesh: delivering the message, having sent a copy before it was delivered, or
   * sending the first copy once it is valid, no later than the window allows.
   */
  predicate Earns(c: Config, s: State, e: Event, now: int, p: PeerId, t: Topic)
    requires t in c.params.topics
  {
    match e
    case DeliverMessage(from, msg, u) =>
      u == t && (from == p || (msg in s.records && s.records[msg].status == Unknown && p in s.records[msg].peers))
    case DuplicateMessage(from, msg, u) =>
      u == t && from == p && msg in s.records && s.records[msg].status == Valid && p !in s.records[msg].peers
      && now - s.records[msg].validated <= c.params.topics[t].meshMessageDeliveriesWindow
    case _ => false
  }

  /** The events that decay or reset the counter, or end the peer's time in the mesh. */
  predicate EndsStay(e: Event, p: PeerId, t: Topic) { Interrupts(e, p) || e == Event.Pruned(p, t) }

  /** Each event of a peer's stay in the mesh raises its counter by one, up to the cap, if it counts; else not. */
  lemma MeshCounterNext(c: Config, s: State, e: Event, now: int, p: PeerId, t: Topic)
    requires Scorable(c.params) && p in s.peerStats && t in c.params.topics && !EndsStay(e, p, t)
    requires TopicOf(s.peerStats[p], t).inMesh
    ensures var s', m := Next(c, s, e, now), TopicOf(s.peerStats[p], t).meshMessageDeliveries;
            && p in s'.peerStats && TopicOf(s'.peerStats[p], t).inMesh
            && TopicOf(s'.peerStats[p], t).meshMessageDeliveries
               == if Earns(c, s, e, now, p, t)
                  then (if m + 1.0 < c.params.topics[t].meshMessageDeliveriesCap then m + 1.0
                        else c.params.topics[t].meshMessageDeliveriesCap)
                  else m
  {
    hide Scorable, Unlist, ScoreRead, ScoreNow, MarkAll, AfterMessage, DepartedPeer, TopicOf, Ensured, Credits, Blames;
    match e
    case Grafted(id, u) => ThroughMark(c.params, s.peerStats, {id}, u, Mark.Graft(now), p, t);
    case Pruned(id, u) => ThroughMark(c.params, s.peerStats, {id}, u, Mark.Prune, p, t);
    case DeliverMessage(id, msg, u) => DeliveryInMesh(c, s, id, msg, u, now, p, t);
    case RejectMessage(id, msg, u, reason) => RejectionNext(c, s, id, msg, u, reason, now, p, t);
    case RejectInvalid(id, u) => ThroughMark(c.params, s.peerStats, {id}, u, Blame(1), p, t);
    case DuplicateMessage(id, msg, u) => DuplicateNext(c, s, id, msg, u, now, p, t);
    case _ => SameTopicsOf(c, s, e, now, p, t);
  }

  lemma SameTopicsOf(c: Config, s: State, e: Event, now: int, p: PeerId, t: Topic)
    requires Scorable(c.params) && p in s.peerStats && !Interrupts(e, p)
    requires !(e.Grafted? || e.Pruned? || e.DeliverMessage? || e.RejectMessage? || e.RejectInvalid?)
    requires !e.DuplicateMessage?
    ensures p in Next(c, s, e, now).peerStats
    ensures TopicOf(Next(c, s, e, now).peerStats[p], t) == TopicOf(s.peerStats[p], t)
  {
    SameTopics(c, s, e, now, p);
    hide Next, Scorable;
  }

  lemma DeliveryInMesh(c: Config, s: State, id: PeerId, msg: MsgId, u: Topic, now: int, p: PeerId, t: Topic)
    requires Scorable(c.params) && p in s.peerStats && t in c.params.topics && TopicOf(s.peerStats[p], t).inMesh
    ensures var e := DeliverMessage(id, msg, u);
            var s', m := Next(c, s, e, now), TopicOf(s.peerStats[p], t).meshMessageDeliveries;
            && p in s'.peerStats && TopicOf(s'.peerStats[p], t).inMesh
            && TopicOf(s'.peerStats[p], t).meshMessageDeliveries
               == (if Earns(c, s, e, now, p, t) then Least(c.params.topics[t].meshMessageDeliveriesCap, m + 1.0) else m)
            && TopicOf(s'.peerStats[p], t).invalidMessageDeliveries
               == TopicOf(s.peerStats[p], t).invalidMessageDeliveries
  {
    var counted := s.(peerStats := MarkAll(c.params, s.peerStats, {id}, u, First));
    var r := Ensured(s.records, msg, now)[msg];
    RecordFound(s.records, msg, now);
    assert Credits(r, Deliver(id, now)) == (if r.status == Unknown then r.peers - {id} else {});
    assert Blames(r, Deliver(id, now)) == multiset{};
    DeliverIs(c, s, id, msg, u, now);
    hide Next, Scorable, MarkAll, AfterMessage, TopicOf, Ensured, Credits, Blames;
    ThroughMark(c.params, s.peerStats, {id}, u, First, p, t);
    ThroughMessage(c.params, counted, msg, u, Deliver(id, now), now, p, t);
  }

  lemma DeliverIs(c: Config, s: State, id: PeerId, msg: MsgId, u: Topic, now: int)
    requires Scorable(c.params)
    ensures Next(c, s, DeliverMessage(id, msg, u), now)
         == AfterMessage(c.params, s.(peerStats := MarkAll(c.params, s.peerStats, {id}, u, First)), msg, u,
                         Deliver(id, now), now)
  {
    hide MarkAll, AfterMessage, Scorable;
  }

  lemma DuplicateNext(c: Config, s: State, id: PeerId, msg: MsgId, u: Topic, now: int, p: PeerId, t: Topic)
    requires Scorable(c.params) && p in s.peerStats && t in c.params.topics
    ensures var e := DuplicateMessage(id, msg, u);
            var s', was := Next(c, s, e, now), TopicOf(s.peerStats[p], t);
            && p in s'.peerStats
            && TopicOf(s'.peerStats[p], t)
               == was.(meshMessageDeliveries :=
                         if was.inMesh && Earns(c, s, e, now, p, t)
                         then Least(c.params.topics[t].meshMessageDeliveriesCap, was.meshMessageDeliveries + 1.0)
                         else was.meshMessageDeliveries,
                       invalidMessageDeliveries :=
                         was.invalidMessageDeliveries
                         + if u == t && id == p && msg in s.records && s.records[msg].status == Invalid
                              && p !in s.records[msg].peers then 1.0 else 0.0)
  {
    var r := Ensured(s.records, msg, now)[msg];
    RecordFound(s.records, msg, now);
    assert Credits(r, Duplicate(id)) == (if r.status == Valid && id !in r.peers then {id} else {});
    assert Blames(r, Duplicate(id)) == if r.status == Invalid && id !in r.peers then multiset{id} else multiset{};
    assert Next(c, s, DuplicateMessage(id, msg, u), now) == AfterMessage(c.params, s, msg, u, Duplicate(id), now);
    hide Next, Scorable, MarkAll, AfterMessage, TopicOf, Ensured, Credits, Blames;
    ThroughMessage(c.params, s, msg, u, Duplicate(id), now, p, t);
  }

  lemma RejectionNext(c: Config, s: State, id: PeerId, msg: MsgId, u: Topic, reason: RejectReason, now: int, p: PeerId,
                      t: Topic)
    requires Scorable(c.params) && p in s.peerStats && t in c.params.topics
    ensures var s', was := Next(c, s, RejectMessage(id, msg, u, reason), now), TopicOf(s.peerStats[p], t);
            && p in s'.peerStats
            && TopicOf(s'.peerStats[p], t)
               == was.(invalidMessageDeliveries :=
                         was.invalidMessageDeliveries + RejectionBlame(s, id, msg, u, reason, p, t) as real)
  {
    if reason == Error {
      hide MarkAll, TopicOf, Scorable;
      ThroughMark(c.params, s.peerStats, {id}, u, Blame(1), p, t);
    } else if reason != Blacklisted {
      hide Next, Scorable, AfterMessage, TopicOf, MarkedTopic;
      RejectionIs(c, s, id, msg, u, reason, now);
      VerdictNext(c, s, id, msg, u, reason, now, p, t);
    }
  }

  lemma RejectionIs(c: Config, s: State, id: PeerId, msg: MsgId, u: Topic, reason: RejectReason, now: int)
    requires Scorable(c.params) && reason != Error && reason != Blacklisted
    ensures Next(c, s, RejectMessage(id, msg, u, reason), now)
         == AfterMessage(c.params, s, msg, u, RecordEvent.Rejected(id, reason), now)
  {
    hide AfterMessage, Scorable;
  }

  lemma VerdictNext(c: Config, s: State, id: PeerId, msg: MsgId, u: Topic, reason: RejectReason, now: int, p: PeerId,
                    t: Topic)
    requires p in s.peerStats && t in c.params.topics && (reason == Ignore || reason == Reject)
    ensures var stats := AfterMessage(c.params, s, msg, u, RecordEvent.Rejected(id, reason), now).peerStats;
            var was := TopicOf(s.peerStats[p], t);
            && p in stats
            && TopicOf(stats[p], t)
               == was.(invalidMessageDeliveries :=
                         was.invalidMessageDeliveries + RejectionBlame(s, id, msg, u, reason, p, t) as real)
  {
    var r, e := Ensured(s.records, msg, now)[msg], RecordEvent.Rejected(id, reason);
    RecordFound(s.records, msg, now);
    assert Credits(r, e) == {};
    assert Blames(r, e) == if reason == Reject && r.status == Unknown then multiset{id} + multiset(r.peers)
                           else multiset{};
    hide AfterMessage, TopicOf, Ensured, Credits, Blames;
    ThroughMessage(c.params, s, msg, u, e, now, p, t);
  }

  /** How often a rejection is held against a peer: once as the source, once for a copy before the verdict. */
  function RejectionBlame(s: State, from: PeerId, msg: MsgId, u: Topic, reason: RejectReason, p: PeerId,
                          t: Topic): nat {
    if u != t || reason == Blacklisted || reason == Ignore then 0
    else if reason == Error then (if from == p then 1 else 0)
    else if msg in s.records && s.records[msg].status != Unknown then 0
    else (if from == p then 1 else 0) + (if msg in s.records && p in s.records[msg].peers then 1 else 0)
  }

  /** How many of the steps count, each judged in the state it finds. */
  ghost function EarnedIn(c: Config, s: State, steps: seq<Timed>, p: PeerId, t: Topic): nat
    requires Scorable(c.params) && t in c.params.topics
  {
    if steps == [] then 0
    else
      var before, last := steps[..|steps| - 1], steps[|steps| - 1];
      EarnedIn(c, s, before, p, t) + if Earns(c, RunOn(c, s, before), last.e, last.now, p, t) then 1 else 0
  }

  /**
   * During a peer's stay in the mesh, between decays, its counter is what it was plus the deliveries, the copies
   * sent before a delivery and the first copies within the window, up to the cap.
   */
  lemma {:induction false} MeshDeliveriesCounted(c: Config, s: State, steps: seq<Timed>, p: PeerId, t: Topic)
    requires Scorable(c.params) && p in s.peerStats && t in c.params.topics && TopicOf(s.peerStats[p], t).inMesh
    requires forall k :: 0 <= k < |steps| ==> !EndsStay(steps[k].e, p, t)
    ensures var s' := RunOn(c, s, steps);
            && p in s'.peerStats && TopicOf(s'.peerStats[p], t).inMesh
            && TopicOf(s'.peerStats[p], t).meshMessageDeliveries
               == CountUpTo(TopicOf(s.peerStats[p], t).meshMessageDeliveries, EarnedIn(c, s, steps, p, t),
                            c.params.topics[t].meshMessageDeliveriesCap)
  {
    if steps != [] {
      var before, last := steps[..|steps| - 1], steps[|steps| - 1];
      MeshDeliveriesCounted(c, s, before, p, t);
      MeshCounterNext(c, RunOn(c, s, before), last.e, last.now, p, t);
      hide Next, Scorable, TopicOf, Earns, EndsStay;
    }
  }

  // ----- invalid deliveries

  /** How often an event is held against a peer as an invalid delivery. */
  function Held(s: State, e: Event, p: PeerId, t: Topic): nat {
    match e
    case RejectMessage(from, msg, u, reason) => RejectionBlame(s, from, msg, u, reason, p, t)
    case RejectInvalid(from, u) => if u == t && from == p then 1 else 0
    case DuplicateMessage(from, msg, u) =>
      if u == t && from == p && msg in s.records && s.records[msg].status == Invalid && p !in s.records[msg].peers
      then 1 else 0
    case _ => 0
  }

  lemma InvalidCounterNext(c: Config, s: State, e: Event, now: int, p: PeerId, t: Topic)
    requires Scorable(c.params) && p in s.peerStats && t in c.params.topics && !Interrupts(e, p)
    ensures var s' := Next(c, s, e, now);
            && p in s'.peerStats
            && TopicOf(s'.peerStats[p], t).invalidMessageDeliveries
               == TopicOf(s.peerStats[p], t).invalidMessageDeliveries + Held(s, e, p, t) as real
  {
    hide Scorable, Unlist, ScoreRead, ScoreNow, MarkAll, AfterMessage, DepartedPeer, TopicOf, Ensured, Credits, Blames;
    match e
    case Grafted(id, u) => ThroughMark(c.params, s.peerStats, {id}, u, Mark.Graft(now), p, t);
    case Pruned(id, u) => ThroughMark(c.params, s.peerStats, {id}, u, Mark.Prune, p, t);
    case DeliverMessage(id, msg, u) => DeliveryNotInvalid(c, s, id, msg, u, now, p, t);
    case RejectMessage(id, msg, u, reason) => RejectionNext(c, s, id, msg, u, reason, now, p, t);
    case RejectInvalid(id, u) => ThroughMark(c.params, s.peerStats, {id}, u, Blame(1), p, t);
    case DuplicateMessage(id, msg, u) => DuplicateNext(c, s, id, msg, u, now, p, t);
    case _ => SameTopicsOf(c, s, e, now, p, t);
  }

  lemma DeliveryNotInvalid(c: Config, s: State, id: PeerId, msg: MsgId, u: Topic, now: int, p: PeerId, t: Topic)
    requires Scorable(c.params) && p in s.peerStats && t in c.params.topics
    ensures var s' := Next(c, s, DeliverMessage(id, msg, u), now);
            && p in s'.peerStats
            && TopicOf(s'.peerStats[p], t).invalidMessageDeliveries
               == TopicOf(s.peerStats[p], t).invalidMessageDeliveries
  {
    var counted := s.(peerStats := MarkAll(c.params, s.peerStats, {id}, u, First));
    var r := Ensured(s.records, msg, now)[msg];
    assert Blames(r, Deliver(id, now)) == multiset{};
    DeliverIs(c, s, id, msg, u, now);
    hide Next, Scorable, MarkAll, AfterMessage, TopicOf, Ensured, Credits, Blames;
    ThroughMark(c.params, s.peerStats, {id}, u, First, p, t);
    ThroughMessage(c.params, counted, msg, u, Deliver(id, now), now, p, t);
  }

  ghost function HeldIn(c: Config, s: State, steps: seq<Timed>, p: PeerId, t: Topic): nat
    requires Scorable(c.params)
  {
    if steps == [] then 0
    else
      var before, last := steps[..|steps| - 1], steps[|steps| - 1];
      HeldIn(c, s, before, p, t) + Held(RunOn(c, s, before), last.e, p, t)
  }

  /** Between decays a peer's invalid deliveries are what they were plus what is held against it, all of it. */
  lemma {:induction false} InvalidDeliveriesCounted(c: Config, s: State, steps: seq<Timed>, p: PeerId, t: Topic)
    requires Scorable(c.params) && p in s.peerStats && t in c.params.topics && Uninterrupted(steps, p)
    ensures var s' := RunOn(c, s, steps);
            && p in s'.peerStats
            && TopicOf(s'.peerStats[p], t).invalidMessageDeliveries
               == TopicOf(s.peerStats[p], t).invalidMessageDeliveries + HeldIn(c, s, steps, p, t) as real
  {
    if steps != [] {
      var before, last := steps[..|steps| - 1], steps[|steps| - 1];
      InvalidDeliveriesCounted(c, s, before, p, t);
      InvalidCounterNext(c, RunOn(c, s, before), last.e, last.now, p, t);
      hide Next, Scorable, TopicOf, Held, Interrupts;
    }
  }
}
