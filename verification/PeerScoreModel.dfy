/** The state behind the peer scores and what each scoring event does to it. */
module PeerScoreModel {
  import opened Types
  import opened Seqs
  import opened ScoreParams
  import opened ComputeScore
  import opened Decay
  import opened Deliveries

  /** Scores are remembered for `cacheValidityMs`. */
  datatype Config = Config(params: Params, cacheValidityMs: int)

  datatype CacheEntry = CacheEntry(score: real, cacheUntil: int)

  type Stats = map<PeerId, PeerStats>

  type IpIndex = map<IP, set<PeerId>>

  datatype State = State(peerStats: Stats, peerIPs: IpIndex, scoreCache: map<PeerId, CacheEntry>, records: Records)

  const INITIAL := State(map[], map[], map[], map[])

  datatype Event =
    | Refresh
    | Collect
    | ReadScore(id: PeerId)
    | Penalty(id: PeerId, penalty: real)
    | PeerAdded(id: PeerId)
    | PeerRemoved(id: PeerId)
    | IpAdded(id: PeerId, ip: IP)
    | IpRemoved(id: PeerId, ip: IP)
    | Grafted(id: PeerId, topic: Topic)
    | Pruned(id: PeerId, topic: Topic)
    | ValidateMessage(msg: MsgId)
    | DeliverMessage(from: PeerId, msg: MsgId, topic: Topic)
    | RejectMessage(from: PeerId, msg: MsgId, topic: Topic, reason: RejectReason)
    | RejectInvalid(from: PeerId, topic: Topic)
    | DuplicateMessage(from: PeerId, msg: MsgId, topic: Topic)

  // ----- counters of one topic

  const NO_TOPIC_STATS := TopicStats(false, 0, 0, 0.0, 0.0, false, 0.0, 0.0)

  const NEW_PEER := PeerStats(true, 0, map[], {}, 0.0)

  /** What can be recorded about a peer in a topic. A copy received after validation comes with its delay. */
  datatype Mark = First | Copy(delay: Option<int>) | Blame(times: nat) | Graft(now: int) | Prune

  function Least(a: real, b: real): real { if a <= b then a else b }

  function OneMore(counter: real, cap: real): real { Least(cap, counter + 1.0) }

  function MarkedTopic(p: TopicParams, t: TopicStats, m: Mark): TopicStats {
    match m
    case First =>
      t.(firstMessageDeliveries := OneMore(t.firstMessageDeliveries, p.firstMessageDeliveriesCap),
         meshMessageDeliveries := if t.inMesh then OneMore(t.meshMessageDeliveries, p.meshMessageDeliveriesCap)
                                  else t.meshMessageDeliveries)
    case Copy(delay) =>
      if t.inMesh && (delay.None? || delay.value <= p.meshMessageDeliveriesWindow)
      then t.(meshMessageDeliveries := OneMore(t.meshMessageDeliveries, p.meshMessageDeliveriesCap)) else t
    case Blame(times) => t.(invalidMessageDeliveries := t.invalidMessageDeliveries + times as real)
    case Graft(now) => t.(inMesh := true, graftTime := now, meshTime := 0, meshMessageDeliveriesActive := false)
    case Prune =>
      t.(meshFailurePenalty := t.meshFailurePenalty + P3(p, t), meshMessageDeliveriesActive := false, inMesh := false)
  }

  function RefreshedTopic(p: TopicParams, z: real, t: TopicStats, now: int): TopicStats {
    TopicStats(
      t.inMesh, t.graftTime, if t.inMesh then now - t.graftTime else t.meshTime,
      Decayed(t.firstMessageDeliveries, p.firstMessageDeliveriesDecay, z),
      Decayed(t.meshMessageDeliveries, p.meshMessageDeliveriesDecay, z),
      t.meshMessageDeliveriesActive || (t.inMesh && now - t.graftTime > p.meshMessageDeliveriesActivation),
      Decayed(t.meshFailurePenalty, p.meshFailurePenaltyDecay, z),
      Decayed(t.invalidMessageDeliveries, p.invalidMessageDeliveriesDecay, z))
  }

  /** Leaving with a mesh deficit is punished like a prune; good deliveries are forgotten. */
  function DepartedTopic(p: TopicParams, t: TopicStats): TopicStats {
    t.(firstMessageDeliveries := 0.0,
       meshFailurePenalty := t.meshFailurePenalty + if t.inMesh then P3(p, t) else 0.0,
       inMesh := false, meshMessageDeliveriesActive := false)
  }

  // ----- one peer

  function TopicOf(s: PeerStats, topic: Topic): TopicStats {
    if topic in s.topics then s.topics[topic] else NO_TOPIC_STATS
  }

  /** Only scored topics are recorded. */
  function MarkedPeer(params: Params, s: PeerStats, topic: Topic, m: Mark): PeerStats {
    if topic !in params.topics then s
    else s.(topics := s.topics[topic := MarkedTopic(params.topics[topic], TopicOf(s, topic), m)])
  }

  function RefreshedPeer(params: Params, s: PeerStats, now: int): PeerStats {
    if !s.connected then s
    else s.(topics := map t | t in s.topics ::
                if t in params.topics then RefreshedTopic(params.topics[t], params.decayToZero, s.topics[t], now)
                else s.topics[t],
            behaviourPenalty := Decayed(s.behaviourPenalty, params.behaviourPenaltyDecay, params.decayToZero))
  }

  function DepartedPeer(params: Params, s: PeerStats, now: int): PeerStats {
    s.(topics := map t | t in s.topics ::
           if t in params.topics then DepartedTopic(params.topics[t], s.topics[t]) else s.topics[t],
       connected := false, expire := now + params.retainScore)
  }

  predicate Forgotten(s: PeerStats, now: int) { !s.connected && now > s.expire }

  // ----- all peers

  /** Marks every peer in `who` that has stats. */
  function MarkAll(params: Params, stats: Stats, who: set<PeerId>, topic: Topic, m: Mark): Stats {
    map p | p in stats :: if p in who then MarkedPeer(params, stats[p], topic, m) else stats[p]
  }

  function BlameAll(params: Params, stats: Stats, blames: multiset<PeerId>, topic: Topic): Stats {
    map p | p in stats :: if p in blames then MarkedPeer(params, stats[p], topic, Blame(blames[p])) else stats[p]
  }

  function PeersOf(index: IpIndex, ip: IP): set<PeerId> { if ip in index then index[ip] else {} }

  /** The peers left at an address once each of the `gone` is taken off its addresses. */
  function Left(index: IpIndex, gone: map<PeerId, set<IP>>, ip: IP): set<PeerId> {
    set p | p in PeersOf(index, ip) && !(p in gone && ip in gone[p])
  }

  /** Addresses without peers disappear. */
  function Unlist(index: IpIndex, gone: map<PeerId, set<IP>>): IpIndex {
    map ip | ip in index && Left(index, gone, ip) != {} :: Left(index, gone, ip)
  }

  function ForgottenIPs(stats: Stats, now: int): map<PeerId, set<IP>> {
    map p | p in stats && Forgotten(stats[p], now) :: stats[p].knownIPs
  }

  function RefreshedStats(params: Params, stats: Stats, now: int): Stats {
    map p | p in stats && !Forgotten(stats[p], now) :: RefreshedPeer(params, stats[p], now)
  }

  function CacheWithout(cache: map<PeerId, CacheEntry>, ps: set<PeerId>): map<PeerId, CacheEntry> {
    map p | p in cache && p !in ps :: cache[p]
  }

  // ----- the score as others read it

  predicate CacheFresh(s: State, id: PeerId, now: int) { id in s.scoreCache && s.scoreCache[id].cacheUntil > now }

  ghost function ScoreNow(c: Config, s: State, id: PeerId): real
    requires Scorable(c.params) && id in s.peerStats
  {
    ScoreOf(id, s.peerStats[id], c.params, s.peerIPs)
  }

  ghost function ScoreRead(c: Config, s: State, id: PeerId, now: int): real
    requires Scorable(c.params)
  {
    if id !in s.peerStats then 0.0
    else if CacheFresh(s, id, now) then s.scoreCache[id].score
    else ScoreNow(c, s, id)
  }

  ghost function AfterRead(c: Config, s: State, id: PeerId, now: int): State
    requires Scorable(c.params)
  {
    if id !in s.peerStats || CacheFresh(s, id, now) then s
    else s.(scoreCache := s.scoreCache[id := CacheEntry(ScoreNow(c, s, id), now + c.cacheValidityMs)])
  }

  /**
   * The stats go at once if the score read is positive, and are kept for the retention period if not. Either way the
   * score just read stays remembered until it runs out.
   */
  ghost function AfterRemoval(c: Config, s: State, id: PeerId, now: int): State
    requires Scorable(c.params)
  {
    if id !in s.peerStats then s
    else
      var read := AfterRead(c, s, id, now);
      if ScoreRead(c, s, id, now) > 0.0
      then read.(peerStats := s.peerStats - {id}, peerIPs := Unlist(s.peerIPs, map[id := s.peerStats[id].knownIPs]))
      else read.(peerStats := s.peerStats[id := DepartedPeer(c.params, s.peerStats[id], now)])
  }

  // ----- messages

  /** The marks an event of a message earns, given the message's record. */
  function MessageStats(params: Params, stats: Stats, r: Record, topic: Topic, e: RecordEvent, now: int): Stats {
    var delay := if e.Duplicate? then Some(now - r.validated) else None;
    BlameAll(params, MarkAll(params, stats, Credits(r, e), topic, Copy(delay)), Blames(r, e), topic)
  }

  /** An event of a message; its record is made if need be. */
  function AfterMessage(params: Params, s: State, msg: MsgId, topic: Topic, e: RecordEvent, now: int): State {
    var records := Ensured(s.records, msg, now);
    s.(records := records[msg := After(records[msg], e)],
       peerStats := MessageStats(params, s.peerStats, records[msg], topic, e, now))
  }

  ghost function Next(c: Config, s: State, e: Event, now: int): State
    requires Scorable(c.params)
  {
    match e
    case Refresh =>
      var gone := ForgottenIPs(s.peerStats, now);
      State(RefreshedStats(c.params, s.peerStats, now), Unlist(s.peerIPs, gone), CacheWithout(s.scoreCache, gone.Keys),
            s.records)
    case Collect => s.(records := Alive(s.records, now))
    case ReadScore(id) => AfterRead(c, s, id, now)
    case Penalty(id, penalty) =>
      if id !in s.peerStats then s
      else s.(peerStats := s.peerStats[id := s.peerStats[id].(
                behaviourPenalty := s.peerStats[id].behaviourPenalty + penalty)])
    case PeerAdded(id) => s.(peerStats := s.peerStats[id := NEW_PEER])
    case PeerRemoved(id) => AfterRemoval(c, s, id, now)
    case IpAdded(id, ip) =>
      s.(peerStats := if id !in s.peerStats then s.peerStats
           else s.peerStats[id := s.peerStats[id].(knownIPs := s.peerStats[id].knownIPs + {ip})],
         peerIPs := s.peerIPs[ip := PeersOf(s.peerIPs, ip) + {id}])
    case IpRemoved(id, ip) =>
      s.(peerStats := if id !in s.peerStats then s.peerStats
           else s.peerStats[id := s.peerStats[id].(knownIPs := s.peerStats[id].knownIPs - {ip})],
         peerIPs := Unlist(s.peerIPs, map[id := {ip}]))
    case Grafted(id, topic) => s.(peerStats := MarkAll(c.params, s.peerStats, {id}, topic, Graft(now)))
    case Pruned(id, topic) => s.(peerStats := MarkAll(c.params, s.peerStats, {id}, topic, Prune))
    case ValidateMessage(msg) => s.(records := Ensured(s.records, msg, now))
    case DeliverMessage(from, msg, topic) =>
      // the first delivery is counted whatever the record says
      var counted := s.(peerStats := MarkAll(c.params, s.peerStats, {from}, topic, First));
      AfterMessage(c.params, counted, msg, topic, Deliver(from, now), now)
    case RejectMessage(from, msg, topic, reason) =>
      if reason == Blacklisted then s
      else if reason == Error then s.(peerStats := MarkAll(c.params, s.peerStats, {from}, topic, Blame(1)))
      else AfterMessage(c.params, s, msg, topic, RecordEvent.Rejected(from, reason), now)
    case RejectInvalid(from, topic) => s.(peerStats := MarkAll(c.params, s.peerStats, {from}, topic, Blame(1)))
    case DuplicateMessage(from, msg, topic) => AfterMessage(c.params, s, msg, topic, Duplicate(from), now)
  }

  // ----- runs

  datatype Timed = Timed(e: Event, now: int)

  ghost predicate Chronological(steps: seq<Timed>) {
    forall i, j :: 0 <= i < j < |steps| ==> steps[i].now <= steps[j].now
  }

  ghost function RunOn(c: Config, s: State, steps: seq<Timed>): State
    requires Scorable(c.params)
  {
    if steps == [] then s
    else
      var last := steps[|steps| - 1];
      Next(c, RunOn(c, s, steps[..|steps| - 1]), last.e, last.now)
  }

  ghost function Run(c: Config, steps: seq<Timed>): State
    requires Scorable(c.params)
  {
    RunOn(c, INITIAL, steps)
  }
}
