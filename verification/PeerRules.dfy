/** What the router knows of a peer, read off the run: its direction, its stream, the topics it is in. */
module PeerRules {
  import opened Types
  import opened Seqs
  import opened RouterModel

  /** What only the events of peers change. */
  ghost predicate SamePeers(s: State, s': State) {
    s'.known == s.known && s'.outbound == s.outbound && s'.streams == s.streams && s'.topics == s.topics
  }

  predicate OfPeers(e: Event) { e.AddPeer? || e.OpenStream? || e.Announce? || e.RemovePeer? }

  lemma OthersKeepPeers(c: Config, s: State, e: Event, now: int, s': State)
    requires Step(c, s, e, now, s') && !OfPeers(e)
    ensures SamePeers(s, s')
  {
    hide GraftAll, MakePrunes, PruneList, Beaten, Joined, Published, Left, AddBackoff, MakePrune;
    match e
    case Graft(id, score, graft) =>
      var start := GraftEffect(s, [], c.doPX, 0);
      GraftPeers(c, id, score, now, start, graft);
      var r := GraftAll(c, id, score, now, start, graft);
      PrunesPeers(c, r.s, id, r.prune, now);
    case Prune(id, prune) => PrunePeers(c, s, id, prune, now);
    case SendPrune(id, t) => OnePrunePeers(c, s, id, t, now);
    case Heartbeat(score, passes) => BeatPeers(c, s, score, passes, now, s');
    case Subscribe(t, score) => JoinPeers(c, s.(subscriptions := s.subscriptions + {t}), t, score, s');
    case Unsubscribe(t) => LeavePeers(c, s.(subscriptions := s.subscriptions - {t}), t, now);
    case Publish(t, score) => PublishPeers(c, s, t, score, now, s');
  }

  lemma {:induction false} GraftPeers(c: Config, id: PeerId, score: real, now: int, e: GraftEffect,
                                      graft: seq<Option<Topic>>)
    ensures SamePeers(e.s, GraftAll(c, id, score, now, e, graft).s)
  {
    if graft != [] {
      GraftPeers(c, id, score, now, e, graft[..|graft| - 1]);
      hide AddBackoff, AnswerTo;
    }
  }

  lemma OnePrunePeers(c: Config, s: State, id: PeerId, t: Topic, now: int)
    ensures SamePeers(s, MakePrune(c, s, id, t, false, now))
  {
    hide AddBackoff;
  }

  lemma {:induction false} PrunesPeers(c: Config, s: State, id: PeerId, topics: seq<Topic>, now: int)
    ensures SamePeers(s, MakePrunes(c, s, id, topics, now))
  {
    if topics != [] {
      PrunesPeers(c, s, id, topics[..|topics| - 1], now);
      OnePrunePeers(c, MakePrunes(c, s, id, topics[..|topics| - 1], now), id, topics[|topics| - 1], now);
      hide MakePrune;
    }
  }

  lemma {:induction false} PrunePeers(c: Config, s: State, id: PeerId, prune: seq<PruneEntry>, now: int)
    ensures SamePeers(s, PruneList(c, s, id, prune, now))
    decreases |prune|
  {
    if prune != [] && !PruneStops(s, prune[0]) {
      PrunePeers(c, PruneOne(c, s, id, prune[0], now), id, prune[1..], now);
      hide AddBackoff;
    }
  }

  lemma BeatPeers(c: Config, s: State, score: PeerId -> real, passes: map<Topic, Pass>, now: int, s': State)
    requires Beaten(c, s, score, passes, now, s')
    ensures SamePeers(s, s')
  {
    hide MeshesMaintained, PrunesBacked, FanoutMaintained, ClearBackoff;
  }

  lemma JoinPeers(c: Config, s: State, t: Topic, score: PeerId -> real, s': State)
    requires Joined(c, s, t, score, s')
    ensures SamePeers(s, s')
  {
    hide JoinChoice;
  }

  lemma LeavePeers(c: Config, s: State, t: Topic, now: int)
    ensures SamePeers(s, Left(c, s, t, now))
  {
    hide AddBackoff;
  }

  lemma PublishPeers(c: Config, s: State, t: Topic, score: PeerId -> real, now: int, s': State)
    requires Published(c, s, t, score, now, s')
    ensures SamePeers(s, s')
  {
    hide RandomPick, PublishPool;
  }

  // ----- read off the run

  /** Step `k` disconnects a peer that was known. */
  predicate Leaves(run: seq<Moment>, k: nat, p: PeerId)
    requires 0 < k < |run|
  {
    run[k].event == RemovePeer(p) && Present(run, k - 1, p)
  }

  /** The peer has connected, and not disconnected since. */
  predicate Present(run: seq<Moment>, k: nat, p: PeerId)
    requires k < |run|
  {
    if k == 0 then false
    else if run[k].event.AddPeer? && run[k].event.peer == p then true
    else Present(run, k - 1, p) && run[k].event != RemovePeer(p)
  }

  /** The direction of the first connection since the peer was last away. */
  function Direction(run: seq<Moment>, k: nat, p: PeerId): Option<bool>
    requires k < |run|
  {
    if k == 0 || Leaves(run, k, p) then None
    else if run[k].event.AddPeer? && run[k].event.peer == p && !Present(run, k - 1, p)
    then Some(run[k].event.isOutbound)
    else Direction(run, k - 1, p)
  }

  /** The protocol of the first stream since then. */
  function Stream(run: seq<Moment>, k: nat, p: PeerId): Option<Protocol>
    requires k < |run|
  {
    if k == 0 || Leaves(run, k, p) then None
    else
      var before := Stream(run, k - 1, p);
      if run[k].event.OpenStream? && run[k].event.peer == p && Present(run, k - 1, p) && before == None
      then Some(run[k].event.protocol) else before
  }

  /** The peer last announced that it is in the topic, and has not left us since. */
  predicate Subscribed(run: seq<Moment>, k: nat, p: PeerId, t: Topic)
    requires k < |run|
  {
    if k == 0 || Leaves(run, k, p) then false
    else
      match run[k].event
      case Announce(from, u, subscribe) => if from == p && u == t then subscribe else Subscribed(run, k - 1, p, t)
      case _ => Subscribed(run, k - 1, p, t)
  }

  ghost predicate AsRead(run: seq<Moment>, k: nat, p: PeerId, t: Topic)
    requires k < |run|
  {
    var s := run[k].state;
    && (p in s.known <==> Present(run, k, p))
    && (p in s.outbound <==> Direction(run, k, p).Some?)
    && (p in s.outbound ==> s.outbound[p] == Direction(run, k, p).value)
    && (p in s.streams <==> Stream(run, k, p).Some?)
    && (p in s.streams ==> s.streams[p] == Stream(run, k, p).value)
    && (t in s.topics && p in s.topics[t] <==> Subscribed(run, k, p, t))
    && (p in s.outbound ==> p in s.known)
  }

  /** In every run from the initial state, what the router knows of a peer is what the run says of it. */
  lemma {:induction false} PeersAsRead(c: Config, run: seq<Moment>, k: nat, p: PeerId, t: Topic)
    requires IsRun(c, run) && k < |run| && run[0].state == INITIAL
    ensures AsRead(run, k, p, t)
  {
    if k > 0 {
      PeersAsRead(c, run, k - 1, p, t);
      assert Step(c, run[k - 1].state, run[k].event, run[k].now, run[k].state);
      hide IsRun;
      if OfPeers(run[k].event) {
        PeerEventIs(c, run[k - 1].state, run[k].event, run[k].now, run[k].state);
        hide Step;
        ReadNext(run, k, p, t);
      } else {
        OthersKeepPeers(c, run[k - 1].state, run[k].event, run[k].now, run[k].state);
        hide Step;
        ReadOther(run, k, p, t);
      }
    }
  }

  ghost predicate PeerEvent(s: State, e: Event, s': State)
    requires OfPeers(e)
  {
    match e
    case AddPeer(id, dir) => s' == PeerAdded(s, id, dir)
    case OpenStream(id, protocol) => s' == StreamOpened(s, id, protocol)
    case Announce(id, t, subscribe) => s' == TopicAnnounced(s, id, t, subscribe)
    case RemovePeer(id) => s' == PeerRemoved(s, id)
  }

  lemma PeerEventIs(c: Config, s: State, e: Event, now: int, s': State)
    requires Step(c, s, e, now, s') && OfPeers(e)
    ensures PeerEvent(s, e, s')
  {
    hide PeerAdded, StreamOpened, TopicAnnounced, PeerRemoved;
  }

  lemma ReadOther(run: seq<Moment>, k: nat, p: PeerId, t: Topic)
    requires 0 < k < |run| && AsRead(run, k - 1, p, t) && SamePeers(run[k - 1].state, run[k].state)
    requires !OfPeers(run[k].event)
    ensures AsRead(run, k, p, t)
  {
  }

  lemma ReadNext(run: seq<Moment>, k: nat, p: PeerId, t: Topic)
    requires 0 < k < |run| && AsRead(run, k - 1, p, t) && OfPeers(run[k].event)
    requires PeerEvent(run[k - 1].state, run[k].event, run[k].state)
    ensures AsRead(run, k, p, t)
  {
  }
}
