/** The router's mesh state and the effect of each of its steps, one atomic step at a time. */
module RouterModel {
  import opened Types
  import opened Seqs
  import opened MeshPass

  datatype Protocol = GossipsubV10 | GossipsubV11 | GossipsubV12 | Floodsub

  datatype Config = Config(
    params: MeshParams, direct: set<PeerId>, multicodecs: set<Protocol>, pruneBackoff: int,
    unsubscribeBackoff: int, graftFloodThreshold: int, heartbeatInterval: nat, fanoutTTL: int,
    opportunisticGraftTicks: nat, floodPublish: bool, publishThreshold: real, doPX: bool)

  const PRUNE_BACKOFF_TICKS: nat := 15
  const BACKOFF_SLACK: nat := 1

  type Backoffs = map<Topic, map<PeerId, int>>

  datatype State = State(
    subscriptions: set<Topic>, mesh: map<Topic, set<PeerId>>, fanout: map<Topic, set<PeerId>>,
    fanoutLastpub: map<Topic, int>, topics: map<Topic, set<PeerId>>, backoff: Backoffs,
    known: set<PeerId>, outbound: map<PeerId, bool>, streams: map<PeerId, Protocol>, ticks: nat)

  function PeersIn(m: map<Topic, set<PeerId>>, t: Topic): set<PeerId> { if t in m then m[t] else {} }

  function Outbound(s: State): set<PeerId> { set p | p in s.outbound && s.outbound[p] }

  predicate HasBackoff(b: Backoffs, t: Topic, p: PeerId) { t in b && p in b[t] }

  /** A topic's subscribers that can be sent gossipsub messages. */
  function Reachable(c: Config, s: State, t: Topic): set<PeerId> {
    set p | p in PeersIn(s.topics, t) && p in s.streams && s.streams[p] in c.multicodecs
  }

  function Where(xs: set<PeerId>, keep: PeerId -> bool): set<PeerId> { set p | p in xs && keep(p) }

  /** Configured peers and peers that cannot be reached are never chosen; `bar` is the least score. */
  function Choosable(c: Config, s: State, t: Topic, score: PeerId -> real, bar: real): set<PeerId> {
    set p | p in Reachable(c, s, t) && p !in c.direct && score(p) >= bar
  }

  // ----- backoff

  /** Records `expire` for `ids`, unless a later expiry is there. */
  function Backed(b: map<PeerId, int>, ids: set<PeerId>, expire: int): map<PeerId, int> {
    map p | p in b.Keys + (if expire > 0 then ids else {}) ::
      if p in ids && (if p in b then b[p] else 0) < expire then expire else b[p]
  }

  function AddBackoff(b: Backoffs, t: Topic, ids: set<PeerId>, expire: int): Backoffs {
    if ids == {} then b else b[t := Backed(if t in b then b[t] else map[], ids, expire)]
  }

  /** Forgets the entries that expired more than the slack ago, once every few ticks. */
  function ClearBackoff(c: Config, b: Backoffs, ticks: nat, now: int): Backoffs {
    if ticks % PRUNE_BACKOFF_TICKS != 0 then b
    else map t | t in b && Live(c, b[t], now) != map[] :: Live(c, b[t], now)
  }

  function Live(c: Config, b: map<PeerId, int>, now: int): map<PeerId, int> {
    map p | p in b && !(b[p] + BACKOFF_SLACK * c.heartbeatInterval < now) :: b[p]
  }

  /** Preparing a PRUNE: a peer that speaks v1.0 cannot be told a backoff and gets none. */
  function MakePrune(c: Config, s: State, id: PeerId, t: Topic, onUnsubscribe: bool, now: int): State {
    if id in s.streams && s.streams[id] == GossipsubV10 then s
    else s.(backoff := AddBackoff(s.backoff, t, {id},
                                  now + if onUnsubscribe then c.unsubscribeBackoff else c.pruneBackoff))
  }

  // ----- received GRAFT and PRUNE

  /** State, topics to answer with PRUNE, whether to offer peer exchange, behaviour penalties. */
  datatype GraftEffect = GraftEffect(s: State, prune: seq<Topic>, doPX: bool, penalties: nat)

  datatype Answer = UnknownTopic | AlreadyIn | DirectPeer | BackedOff | NegativeScore | MeshFull | Accepted

  /** How a GRAFT is answered; full meshes still take peers we connected to ourselves. */
  function AnswerTo(c: Config, s: State, id: PeerId, score: real, now: int, t: Topic): (a: Answer)
    ensures a == UnknownTopic <==> t !in s.mesh
  {
    if t !in s.mesh then UnknownTopic
    else if id in s.mesh[t] then AlreadyIn
    else if id in c.direct then DirectPeer
    else if HasBackoff(s.backoff, t, id) && now < s.backoff[t][id] then BackedOff
    else if score < 0.0 then NegativeScore
    else if |s.mesh[t]| >= c.params.Dhi && id !in Outbound(s) then MeshFull
    else Accepted
  }

  /** A GRAFT much too early counts twice. */
  function Penalty(c: Config, expiry: int, now: int): nat {
    if now < expiry + c.graftFloodThreshold - c.pruneBackoff then 2 else 1
  }

  function GraftOne(c: Config, id: PeerId, score: real, now: int, e: GraftEffect, t: Topic): GraftEffect {
    var s := e.s;
    var a := AnswerTo(c, s, id, score, now, t);
    GraftEffect(
      s.(mesh := if a == Accepted then s.mesh[t := s.mesh[t] + {id}] else s.mesh,
         backoff := if a == BackedOff || a == NegativeScore || a == MeshFull
                    then AddBackoff(s.backoff, t, {id}, now + c.pruneBackoff) else s.backoff),
      if a == UnknownTopic || a == AlreadyIn || a == Accepted then e.prune else e.prune + [t],
      e.doPX && (a == AlreadyIn || a == MeshFull || a == Accepted),
      e.penalties + if a == BackedOff then Penalty(c, s.backoff[t][id], now) else 0)
  }

  /** All the topics of a GRAFT, an entry without a topic having no effect. */
  function GraftAll(c: Config, id: PeerId, score: real, now: int, e: GraftEffect,
                    graft: seq<Option<Topic>>): GraftEffect {
    if graft == [] then e
    else
      var before := GraftAll(c, id, score, now, e, graft[..|graft| - 1]);
      match graft[|graft| - 1]
      case None => before
      case Some(t) => GraftOne(c, id, score, now, before, t)
  }

  function MakePrunes(c: Config, s: State, id: PeerId, topics: seq<Topic>, now: int): State {
    if topics == [] then s
    else MakePrune(c, MakePrunes(c, s, id, topics[..|topics| - 1], now), id, topics[|topics| - 1], false, now)
  }

  datatype PruneEntry = PruneEntry(topic: Option<Topic>, backoff: Option<int>)

  /** The peer's own backoff is obeyed when it is a positive number of seconds. */
  function PruneExpiry(c: Config, e: PruneEntry, now: int): int {
    match e.backoff
    case Some(b) => if b > 0 then now + b * 1000 else now + c.pruneBackoff
    case None => now + c.pruneBackoff
  }

  /** An entry without a topic is passed over; one for a topic not in the mesh ends the processing. */
  predicate PruneStops(s: State, e: PruneEntry) { e.topic.Some? && e.topic.value !in s.mesh }

  function PruneOne(c: Config, s: State, id: PeerId, e: PruneEntry, now: int): State
    requires !PruneStops(s, e)
  {
    match e.topic
    case None => s
    case Some(t) =>
      s.(mesh := s.mesh[t := s.mesh[t] - {id}],
         backoff := AddBackoff(s.backoff, t, {id}, PruneExpiry(c, e, now)))
  }

  function PruneList(c: Config, s: State, id: PeerId, prune: seq<PruneEntry>, now: int): State
    decreases |prune|
  {
    if prune == [] || PruneStops(s, prune[0]) then s
    else PruneList(c, PruneOne(c, s, id, prune[0], now), id, prune[1..], now)
  }

  // ----- join, leave, publish

  /** A random choice of up to `count` peers of a pool, all of it when `count` is no limit. */
  ghost predicate RandomPick(pool: set<PeerId>, count: int, chosen: set<PeerId>) {
    chosen <= pool && |chosen| == if count > 0 && |pool| > count then count else |pool|
  }

  function WithoutBackoff(s: State, t: Topic, ids: set<PeerId>): set<PeerId> {
    set p | p in ids && !HasBackoff(s.backoff, t, p)
  }

  /** Fanout peers fit for the mesh. */
  function FanoutFit(c: Config, s: State, t: Topic, score: PeerId -> real): set<PeerId> {
    set p | p in PeersIn(s.fanout, t) && p !in c.direct && score(p) >= 0.0 && !HasBackoff(s.backoff, t, p)
  }

  /** The peers a join puts in the mesh: the fit fanout peers and, below `D` of them, up to `D` others. */
  ghost predicate JoinChoice(c: Config, s: State, t: Topic, score: PeerId -> real, chosen: set<PeerId>) {
    var fit := FanoutFit(c, s, t, score);
    if |fit| < c.params.D
    then fit <= chosen
      && RandomPick(WithoutBackoff(s, t, Choosable(c, s, t, score, 0.0)) - fit, c.params.D, chosen - fit)
    else chosen == fit
  }

  ghost predicate Joined(c: Config, s: State, t: Topic, score: PeerId -> real, s': State) {
    if t in s.mesh then s' == s
    else && t in s'.mesh && JoinChoice(c, s, t, score, s'.mesh[t])
         && s' == s.(mesh := s.mesh[t := s'.mesh[t]], fanout := s.fanout - {t},
                     fanoutLastpub := if t in s.fanout then s.fanoutLastpub - {t} else s.fanoutLastpub)
  }

  /** Peers that can be told a backoff in a PRUNE. */
  function Told(s: State, ids: set<PeerId>): set<PeerId> {
    set p | p in ids && !(p in s.streams && s.streams[p] == GossipsubV10)
  }

  /** The mesh is given up; its peers are sent PRUNE with the unsubscribe backoff. */
  function Left(c: Config, s: State, t: Topic, now: int): State {
    if t !in s.mesh then s
    else s.(mesh := s.mesh - {t},
            backoff := AddBackoff(s.backoff, t, Told(s, s.mesh[t]), now + c.unsubscribeBackoff))
  }

  function PublishPool(c: Config, s: State, t: Topic, score: PeerId -> real): set<PeerId> {
    set p | p in Reachable(c, s, t) && score(p) >= c.publishThreshold
  }

  /** Publishing outside the flood mode and without mesh peers goes to fanout peers, chosen if there are none. */
  ghost predicate Published(c: Config, s: State, t: Topic, score: PeerId -> real, now: int, s': State) {
    if t !in s.topics || c.floodPublish || PeersIn(s.mesh, t) != {} then s' == s
    else if PeersIn(s.fanout, t) != {} then s' == s.(fanoutLastpub := s.fanoutLastpub[t := now])
    else
      var pool := PublishPool(c, s, t, score);
      if pool == {} then s' == s.(fanoutLastpub := s.fanoutLastpub[t := now])
      else && t in s'.fanout && RandomPick(pool, c.params.D, s'.fanout[t])
           && s' == s.(fanout := s.fanout[t := s'.fanout[t]], fanoutLastpub := s.fanoutLastpub[t := now])
  }

  /** Peers whose stream speaks floodsub. */
  function FloodsubPeers(s: State): set<PeerId> { set p | p in s.streams && s.streams[p] == Floodsub }

  /** In the flood mode: direct peers and all peers above the threshold. */
  function FloodTargets(c: Config, s: State, t: Topic, score: PeerId -> real): set<PeerId> {
    set p | p in PeersIn(s.topics, t) && (p in c.direct || score(p) >= c.publishThreshold)
  }

  function DirectAndFloodsub(c: Config, s: State, t: Topic, score: PeerId -> real): set<PeerId> {
    set p | p in PeersIn(s.topics, t) && (p in c.direct || (p in FloodsubPeers(s) && score(p) >= c.publishThreshold))
  }

  function ExtraPool(c: Config, s: State, t: Topic, score: PeerId -> real): set<PeerId> {
    Choosable(c, s, t, score, c.publishThreshold) - PeersIn(s.mesh, t) - FloodsubPeers(s)
  }

  /** With mesh peers: these, topped up to `D` by others above the threshold. */
  ghost predicate ToMesh(c: Config, s: State, t: Topic, score: PeerId -> real, tosend: set<PeerId>) {
    exists extra ::
      && tosend == DirectAndFloodsub(c, s, t, score) + (PeersIn(s.mesh, t) + extra)
      && if |PeersIn(s.mesh, t)| < c.params.D
         then RandomPick(ExtraPool(c, s, t, score), c.params.D - |PeersIn(s.mesh, t)|, extra)
         else extra == {}
  }

  // ----- heartbeat

  datatype Pass = Pass(inputs: Inputs, outcome: Outcome)

  /** What the pass over a topic starts from, once expired backoffs are cleared. */
  ghost predicate PassStarts(c: Config, s: State, t: Topic, score: PeerId -> real, tick: bool, i: Inputs)
    requires t in s.mesh
  {
    && i.start == s.mesh[t] && i.score == score && i.outbound == Outbound(s)
    && i.params == c.params && i.opportunisticTick == tick && Distinct(i.candidates)
    && ToSet(i.candidates) == Candidates(c, s, t, score)
    && i.gossip == GossipTargets(c, s, t, score)
  }

  /** Peers a mesh may take. */
  function Candidates(c: Config, s: State, t: Topic, score: PeerId -> real): set<PeerId> {
    WithoutBackoff(s, t, Choosable(c, s, t, score, 0.0)) - PeersIn(s.mesh, t)
  }

  function GossipTargets(c: Config, s: State, t: Topic, score: PeerId -> real): set<PeerId> {
    Choosable(c, s, t, score, c.params.gossipThreshold) - PeersIn(s.mesh, t)
  }

  function FanoutStaying(c: Config, s: State, t: Topic, score: PeerId -> real): set<PeerId> {
    set p | p in PeersIn(s.fanout, t) && p in PeersIn(s.topics, t) && score(p) >= c.publishThreshold
  }

  /** Fanout peers that left the topic or fell below the threshold go; others fill up to `D`. */
  ghost predicate FanoutKept(c: Config, s: State, t: Topic, score: PeerId -> real, now: set<PeerId>)
    requires t in s.fanout
  {
    var kept := FanoutStaying(c, s, t, score);
    var pool := Choosable(c, s, t, score, c.publishThreshold) - kept;
    && kept <= now && now - kept <= pool
    && |now - kept| == if |kept| < c.params.D then Min(c.params.D - |kept|, |pool|) else 0
  }

  function FanoutExpired(c: Config, s: State, now: int): set<Topic> {
    set t | t in s.fanoutLastpub && s.fanoutLastpub[t] + c.fanoutTTL < now
  }

  /** The backoffs after every topic's prunes. */
  ghost predicate PrunesBacked(b: Backoffs, passes: map<Topic, Pass>, expire: int, b': Backoffs) {
    forall t :: EntryBacked(b, passes, expire, b', t)
  }

  ghost predicate EntryBacked(b: Backoffs, passes: map<Topic, Pass>, expire: int, b': Backoffs, t: Topic) {
    if t in passes && passes[t].outcome.pruned != []
    then t in b' && b'[t] == Backed(if t in b then b[t] else map[], ToSet(passes[t].outcome.pruned), expire)
    else SameEntry(b, b', t)
  }

  ghost predicate SameEntry(b: Backoffs, b': Backoffs, t: Topic) {
    (t in b <==> t in b') && (t in b ==> b[t] == b'[t])
  }

  /** The state once the tick is counted and expired backoffs are cleared. */
  function Ticked(c: Config, s: State, now: int): State {
    s.(ticks := s.ticks + 1, backoff := ClearBackoff(c, s.backoff, s.ticks + 1, now))
  }

  predicate OpportunisticTick(c: Config, ticks: nat) {
    c.opportunisticGraftTicks != 0 && ticks % c.opportunisticGraftTicks == 0
  }

  /** Every topic's mesh goes through its pass. */
  ghost predicate MeshesMaintained(c: Config, s: State, score: PeerId -> real, passes: map<Topic, Pass>,
                                   mesh: map<Topic, set<PeerId>>) {
    && passes.Keys == s.mesh.Keys == mesh.Keys
    && forall t :: t in passes ==>
         && PassStarts(c, s, t, score, OpportunisticTick(c, s.ticks), passes[t].inputs)
         && Maintained(passes[t].inputs, passes[t].outcome)
         && mesh[t] == passes[t].outcome.peers
  }

  ghost predicate FanoutMaintained(c: Config, s: State, score: PeerId -> real, now: int,
                                   fanout: map<Topic, set<PeerId>>) {
    && fanout.Keys == s.fanout.Keys - FanoutExpired(c, s, now)
    && forall t :: t in fanout ==> FanoutKept(c, s, t, score, fanout[t])
  }

  ghost predicate Beaten(c: Config, s: State, score: PeerId -> real, passes: map<Topic, Pass>, now: int, s': State) {
    var s1 := Ticked(c, s, now);
    && MeshesMaintained(c, s1, score, passes, s'.mesh)
    && PrunesBacked(s1.backoff, passes, now + c.pruneBackoff, s'.backoff)
    && FanoutMaintained(c, s, score, now, s'.fanout)
    && s' == s1.(mesh := s'.mesh, backoff := s'.backoff, fanout := s'.fanout,
                 fanoutLastpub := s.fanoutLastpub - FanoutExpired(c, s, now))
  }

  /** Peers to gossip to about a fanout topic: those above the threshold that are not in fanout. */
  function FanoutGossip(c: Config, s: State, t: Topic, score: PeerId -> real, fanout: set<PeerId>): set<PeerId> {
    Choosable(c, s, t, score, c.params.gossipThreshold) - fanout
  }

  /**
   * Whom the heartbeat gossips to, topic by topic: what the pass over the mesh left, unless the topic is in fanout as
   * well, where the fanout upkeep has its own targets.
   */
  ghost predicate GossipsTo(c: Config, s: State, score: PeerId -> real, passes: map<Topic, Pass>,
                            fanout: map<Topic, set<PeerId>>, gossip: map<Topic, set<PeerId>>) {
    && gossip.Keys == passes.Keys + fanout.Keys
    && (forall t :: t in fanout ==> gossip[t] == FanoutGossip(c, s, t, score, fanout[t]))
    && (forall t :: t in passes && t !in fanout ==> gossip[t] == passes[t].outcome.gossip)
  }

  /** The peers each topic's pass grafted, and those it pruned, in order. */
  function GraftedBy(passes: map<Topic, Pass>): map<Topic, seq<PeerId>> {
    map t | t in passes :: passes[t].outcome.Grafted()
  }

  function PrunedBy(passes: map<Topic, Pass>): map<Topic, seq<PeerId>> {
    map t | t in passes :: passes[t].outcome.pruned
  }

  /** The peers whose scores the heartbeat asks for: mesh and fanout peers, and everyone else who could be chosen. */
  function Consulted(c: Config, s: State, now: int): set<PeerId> {
    (set t, p | t in s.mesh && p in MeshConsulted(c, s, t) :: p)
    + (set t, p | t in s.fanout && t !in FanoutExpired(c, s, now) && p in FanoutConsulted(c, s, t) :: p)
  }

  function MeshConsulted(c: Config, s: State, t: Topic): set<PeerId> {
    PeersIn(s.mesh, t) + (Reachable(c, s, t) - c.direct)
  }

  function FanoutConsulted(c: Config, s: State, t: Topic): set<PeerId> {
    PeersIn(s.fanout, t) * PeersIn(s.topics, t) + (Reachable(c, s, t) - c.direct)
  }

  /** Peers looked at for peer exchange when a PRUNE is made: none for a peer of v1.0, or without peer exchange. */
  function ExchangePool(c: Config, s: State, id: PeerId, t: Topic, doPX: bool): set<PeerId> {
    if doPX && !(id in s.streams && s.streams[id] == GossipsubV10) then Reachable(c, s, t) - {id} else {}
  }

  // ----- peers

  /** The first connection of a peer fixes its direction. */
  function PeerAdded(s: State, id: PeerId, isOutbound: bool): State {
    if id in s.known then s
    else s.(known := s.known + {id}, outbound := if id in s.outbound then s.outbound else s.outbound[id := isOutbound])
  }

  function StreamOpened(s: State, id: PeerId, protocol: Protocol): State {
    if id !in s.known || id in s.streams then s else s.(streams := s.streams[id := protocol])
  }

  function Dropped(m: map<Topic, set<PeerId>>, id: PeerId): map<Topic, set<PeerId>> { map t | t in m :: m[t] - {id} }

  function PeerRemoved(s: State, id: PeerId): State {
    if id !in s.known then s
    else s.(known := s.known - {id}, streams := s.streams - {id}, outbound := s.outbound - {id},
            topics := Dropped(s.topics, id), mesh := Dropped(s.mesh, id), fanout := Dropped(s.fanout, id))
  }

  function TopicAnnounced(s: State, id: PeerId, t: Topic, subscribe: bool): State {
    s.(topics := s.topics[t := if subscribe then PeersIn(s.topics, t) + {id} else PeersIn(s.topics, t) - {id}])
  }

  // ----- steps

  datatype Event =
    | Subscribe(topic: Topic, score: PeerId -> real)
    | Unsubscribe(topic: Topic)
    | Graft(from: PeerId, peerScore: real, graft: seq<Option<Topic>>)
    | Prune(from: PeerId, prune: seq<PruneEntry>)
    | SendPrune(to: PeerId, topic: Topic)
    | Publish(topic: Topic, score: PeerId -> real)
    | Heartbeat(score: PeerId -> real, passes: map<Topic, Pass>)
    | AddPeer(peer: PeerId, isOutbound: bool)
    | OpenStream(peer: PeerId, protocol: Protocol)
    | Announce(from: PeerId, topic: Topic, subscribe: bool)
    | RemovePeer(peer: PeerId)

  /** `s'` can follow `s` when `e` happens at time `now`. */
  ghost predicate Step(c: Config, s: State, e: Event, now: int, s': State) {
    match e
    case Subscribe(t, score) => Joined(c, s.(subscriptions := s.subscriptions + {t}), t, score, s')
    case Unsubscribe(t) => s' == Left(c, s.(subscriptions := s.subscriptions - {t}), t, now)
    case Graft(id, score, graft) =>
      var r := GraftAll(c, id, score, now, GraftEffect(s, [], c.doPX, 0), graft);
      s' == MakePrunes(c, r.s, id, r.prune, now)
    case Prune(id, prune) => s' == PruneList(c, s, id, prune, now)
    case SendPrune(id, t) => s' == MakePrune(c, s, id, t, false, now)
    case Publish(t, score) => Published(c, s, t, score, now, s')
    case Heartbeat(score, passes) => Beaten(c, s, score, passes, now, s')
    case AddPeer(id, dir) => s' == PeerAdded(s, id, dir)
    case OpenStream(id, protocol) => s' == StreamOpened(s, id, protocol)
    case Announce(id, t, subscribe) => s' == TopicAnnounced(s, id, t, subscribe)
    case RemovePeer(id) => s' == PeerRemoved(s, id)
  }

  const INITIAL := State({}, map[], map[], map[], map[], map[], {}, map[], map[], 0)

  datatype Moment = Moment(now: int, event: Event, state: State)

  /** Any number of steps from any state, with a clock that does not go back. */
  ghost predicate IsRun(c: Config, run: seq<Moment>) {
    forall k :: 0 < k < |run| ==>
      run[k - 1].now <= run[k].now && Step(c, run[k - 1].state, run[k].event, run[k].now, run[k].state)
  }

  ghost predicate InMesh(s: State, t: Topic, p: PeerId) { t in s.mesh && p in s.mesh[t] }
}
