/** IDONTWANT bookkeeping: a budget per peer and heartbeat, and what each peer said it does not want. */
module Idontwant {
  import opened Types
  import opened Seqs

  /** `maxMessages` ids are taken from a peer per heartbeat and kept for `mcacheLength` heartbeats. */
  datatype Limits = Limits(maxMessages: nat, mcacheLength: nat)

  type Marks = map<MsgId, nat>

  datatype State = State(ticks: nat, counts: map<PeerId, nat>, tracked: map<PeerId, Marks>)

  datatype Event =
    | Received(from: PeerId, ids: seq<MsgId>)
    | Heartbeat
    | Disconnected(peer: PeerId)

  function CountOf(s: State, p: PeerId): nat { if p in s.counts then s.counts[p] else 0 }

  function TrackedOf(s: State, p: PeerId): Marks { if p in s.tracked then s.tracked[p] else map[] }

  /** `ids` marked with the tick `tick`. */
  function Marked(m: Marks, ids: set<MsgId>, tick: nat): Marks {
    map x | x in m.Keys + ids :: if x in ids then tick else m[x]
  }

  /** Ids are taken in order until the peer's budget for this heartbeat is used up. */
  function Receive(l: Limits, s: State, p: PeerId, ids: seq<MsgId>): State {
    var count := CountOf(s, p);
    if count >= l.maxMessages then s
    else
      var n := Min(|ids|, l.maxMessages - count);
      s.(counts := s.counts[p := count + n],
         tracked := s.tracked[p := Marked(TrackedOf(s, p), ToSet(ids[..n]), s.ticks)])
  }

  /** The ids marked less than `mcacheLength` ticks ago. */
  function Recent(l: Limits, m: Marks, ticks: nat): Marks {
    map x | x in m && ticks - m[x] < l.mcacheLength :: m[x]
  }

  function Tick(l: Limits, s: State): State {
    State(s.ticks + 1, map[], map p | p in s.tracked :: Recent(l, s.tracked[p], s.ticks + 1))
  }

  function Apply(l: Limits, s: State, e: Event): State {
    match e
    case Received(p, ids) => Receive(l, s, p, ids)
    case Heartbeat => Tick(l, s)
    case Disconnected(p) => s.(counts := s.counts - {p}, tracked := s.tracked - {p})
  }

  /** The state after any interleaving of events. */
  function Run(l: Limits, events: seq<Event>): State {
    if events == [] then State(0, map[], map[])
    else Apply(l, Run(l, events[..|events| - 1]), events[|events| - 1])
  }

  // ----- how much is tracked

  ghost function AtTick(m: Marks, k: nat): set<MsgId> { set x | x in m && m[x] == k }

  /** What one peer's marks are like: recent, and no more per tick than the budget allows. */
  ghost predicate Within(l: Limits, m: Marks, ticks: nat, count: nat) {
    && (forall x :: x in m ==> m[x] <= ticks < m[x] + l.mcacheLength)
    && (forall k: nat :: |AtTick(m, k)| <= if k == ticks then count else l.maxMessages)
  }

  ghost predicate Inv(l: Limits, s: State) {
    forall p :: CountOf(s, p) <= l.maxMessages && Within(l, TrackedOf(s, p), s.ticks, CountOf(s, p))
  }

  lemma MarkedWithin(l: Limits, m: Marks, ids: seq<MsgId>, ticks: nat, count: nat)
    requires l.mcacheLength >= 1 && Within(l, m, ticks, count)
    ensures Within(l, Marked(m, ToSet(ids), ticks), ticks, count + |ids|)
  {
    var m' := Marked(m, ToSet(ids), ticks);
    forall k: nat ensures |AtTick(m', k)| <= if k == ticks then count + |ids| else l.maxMessages {
      ToSetSize(ids);
      if k == ticks {
        assert AtTick(m', k) <= AtTick(m, k) + ToSet(ids);
        SubsetCardinality(AtTick(m', k), AtTick(m, k) + ToSet(ids));
      } else {
        SubsetCardinality(AtTick(m', k), AtTick(m, k));
      }
    }
  }

  lemma {:induction false} ToSetSize<T>(s: seq<T>)
    ensures |ToSet(s)| <= |s|
  {
    if s != [] {
      ToSetSize(s[1..]);
      assert ToSet(s) == {s[0]} + ToSet(s[1..]);
    }
  }

  lemma RecentWithin(l: Limits, m: Marks, ticks: nat, count: nat)
    requires Within(l, m, ticks, count) && count <= l.maxMessages
    ensures Within(l, Recent(l, m, ticks + 1), ticks + 1, 0)
  {
    var m' := Recent(l, m, ticks + 1);
    forall k: nat ensures |AtTick(m', k)| <= if k == ticks + 1 then 0 else l.maxMessages {
      assert |AtTick(m, k)| <= if k == ticks then count else l.maxMessages;
      SubsetCardinality(AtTick(m', k), AtTick(m, k));
      if k == ticks + 1 {
        assert AtTick(m', k) == {};
      }
    }
  }

  lemma ApplyInv(l: Limits, s: State, e: Event)
    requires l.mcacheLength >= 1 && Inv(l, s)
    ensures Inv(l, Apply(l, s, e))
  {
    var s' := Apply(l, s, e);
    hide Within;
    forall p ensures CountOf(s', p) <= l.maxMessages && Within(l, TrackedOf(s', p), s'.ticks, CountOf(s', p)) {
      assert CountOf(s, p) <= l.maxMessages && Within(l, TrackedOf(s, p), s.ticks, CountOf(s, p));
      match e
      case Received(from, ids) =>
        var count := CountOf(s, from);
        if p == from && count < l.maxMessages {
          MarkedWithin(l, TrackedOf(s, p), ids[..Min(|ids|, l.maxMessages - count)], s.ticks, count);
        }
      case Heartbeat =>
        RecentWithin(l, TrackedOf(s, p), s.ticks, CountOf(s, p));
        assert TrackedOf(s', p) == Recent(l, TrackedOf(s, p), s.ticks + 1);
      case Disconnected(peer) =>
        if p == peer { NothingWithin(l, s.ticks); }
    }
  }

  lemma NothingWithin(l: Limits, ticks: nat)
    ensures Within(l, map[], ticks, 0)
  {
    assert forall k: nat :: AtTick(map[], k) == {};
  }

  lemma {:induction false} RunInv(l: Limits, events: seq<Event>)
    requires l.mcacheLength >= 1
    ensures Inv(l, Run(l, events))
  {
    if events == [] {
      NothingWithin(l, 0);
    } else {
      RunInv(l, events[..|events| - 1]);
      ApplyInv(l, Run(l, events[..|events| - 1]), events[|events| - 1]);
    }
  }

  ghost function Window(m: Marks, lo: int, n: nat): set<MsgId> { set x | x in m && lo <= m[x] < lo + n }

  /** Marks spread over `n` ticks, at most `most` each, are at most `n * most`. */
  lemma {:induction false} SpreadSize(m: Marks, lo: int, n: nat, most: nat)
    requires forall k: nat :: |AtTick(m, k)| <= most
    ensures |Window(m, lo, n)| <= n * most
  {
    if n == 0 {
      assert Window(m, lo, 0) == {};
    } else {
      SpreadSize(m, lo, n - 1, most);
      var k := lo + n - 1;
      var last := if k >= 0 then AtTick(m, k) else {};
      assert Window(m, lo, n) == Window(m, lo, n - 1) + last;
      assert (n - 1) * most + most == n * most;
    }
  }

  /** No run makes a peer's tracked ids outgrow the product of the two limits. */
  lemma TrackedBounded(l: Limits, events: seq<Event>, p: PeerId)
    requires l.mcacheLength >= 1
    ensures |TrackedOf(Run(l, events), p)| <= l.maxMessages * l.mcacheLength
  {
    RunInv(l, events);
    var s := Run(l, events);
    var m := TrackedOf(s, p);
    assert CountOf(s, p) <= l.maxMessages && Within(l, m, s.ticks, CountOf(s, p));
    forall k: nat ensures |AtTick(m, k)| <= l.maxMessages {
    }
    var lo := s.ticks - l.mcacheLength + 1;
    SpreadSize(m, lo, l.mcacheLength, l.maxMessages);
    assert m.Keys == Window(m, lo, l.mcacheLength);
  }

  // ----- what is tracked, and how long

  /** How many ids have been taken from a peer since the last heartbeat. */
  function TakenSince(l: Limits, events: seq<Event>, p: PeerId): nat {
    if events == [] then 0
    else
      var before := TakenSince(l, events[..|events| - 1], p);
      match events[|events| - 1]
      case Received(from, ids) =>
        if from == p && before < l.maxMessages then Min(before + |ids|, l.maxMessages) else before
      case Heartbeat => 0
      case Disconnected(q) => if q == p then 0 else before
  }

  /** The id is among those of the list that the budget still allows. */
  predicate IsTaken(l: Limits, before: nat, ids: seq<MsgId>, m: MsgId) {
    exists k :: 0 <= k < |ids| && before + k < l.maxMessages && ids[k] == m
  }

  /** How many heartbeats ago the peer last said it does not want the message; `None` if that is no longer known. */
  function Age(l: Limits, events: seq<Event>, p: PeerId, m: MsgId): Option<nat> {
    if events == [] then None
    else
      var front := events[..|events| - 1];
      var before := Age(l, front, p, m);
      match events[|events| - 1]
      case Received(from, ids) => if from == p && IsTaken(l, TakenSince(l, front, p), ids, m) then Some(0) else before
      case Heartbeat =>
        if before.Some? && before.value + 1 < l.mcacheLength then Some(before.value + 1) else None
      case Disconnected(q) => if q == p then None else before
  }

  /**
   * An id is tracked for a peer exactly if the peer named it within its budget fewer than `mcacheLength` heartbeats
   * ago, and has not disconnected since; the budget is what is left of `maxMessages` since the last heartbeat.
   */
  lemma {:induction false} TrackedIff(l: Limits, events: seq<Event>, p: PeerId, m: MsgId)
    ensures CountOf(Run(l, events), p) == TakenSince(l, events, p)
    ensures m in TrackedOf(Run(l, events), p) <==> Age(l, events, p, m).Some?
    ensures m in TrackedOf(Run(l, events), p) ==>
              TrackedOf(Run(l, events), p)[m] == Run(l, events).ticks - Age(l, events, p, m).value
  {
    if events != [] {
      var front, e := events[..|events| - 1], events[|events| - 1];
      TrackedIff(l, front, p, m);
      var s := Run(l, front);
      hide Run, TakenSince, Age;
      match e
      case Received(from, ids) => ReceiveTracks(l, s, from, ids, p, m);
      case Heartbeat => TickTracks(l, s, p, m);
      case Disconnected(q) =>
      assert Run(l, events) == Apply(l, s, e) by { RunNext(l, events); }
      TakenNext(l, events, p);
      AgeNext(l, events, p, m);
      hide Receive, Tick, IsTaken;
    }
  }

  lemma RunNext(l: Limits, events: seq<Event>)
    requires events != []
    ensures Run(l, events) == Apply(l, Run(l, events[..|events| - 1]), events[|events| - 1])
  {
  }

  lemma TakenNext(l: Limits, events: seq<Event>, p: PeerId)
    requires events != []
    ensures var before := TakenSince(l, events[..|events| - 1], p);
            TakenSince(l, events, p)
            == match events[|events| - 1]
               case Received(from, ids) =>
                 if from == p && before < l.maxMessages then Min(before + |ids|, l.maxMessages) else before
               case Heartbeat => 0
               case Disconnected(q) => if q == p then 0 else before
  {
  }

  lemma AgeNext(l: Limits, events: seq<Event>, p: PeerId, m: MsgId)
    requires events != []
    ensures var front := events[..|events| - 1];
            var before := Age(l, front, p, m);
            Age(l, events, p, m)
            == match events[|events| - 1]
               case Received(from, ids) =>
                 if from == p && IsTaken(l, TakenSince(l, front, p), ids, m) then Some(0) else before
               case Heartbeat =>
                 if before.Some? && before.value + 1 < l.mcacheLength then Some(before.value + 1) else None
               case Disconnected(q) => if q == p then None else before
  {
  }

  lemma ReceiveTracks(l: Limits, s: State, from: PeerId, ids: seq<MsgId>, p: PeerId, m: MsgId)
    ensures var s', count := Receive(l, s, from, ids), CountOf(s, p);
            && s'.ticks == s.ticks
            && CountOf(s', p) == (if from == p && count < l.maxMessages then Min(count + |ids|, l.maxMessages)
                                  else count)
            && (m in TrackedOf(s', p) <==> m in TrackedOf(s, p) || (from == p && IsTaken(l, count, ids, m)))
            && (m in TrackedOf(s', p) ==>
                  TrackedOf(s', p)[m] == if from == p && IsTaken(l, count, ids, m) then s.ticks else TrackedOf(s, p)[m])
  {
    var count := CountOf(s, from);
    if from == p && count < l.maxMessages {
      TakenAre(l, count, ids, Min(|ids|, l.maxMessages - count), m);
    }
    hide IsTaken, ToSet;
    assert from == p && count >= l.maxMessages ==> !IsTaken(l, count, ids, m) by { NoBudget(l, count, ids, m); }
  }

  lemma NoBudget(l: Limits, before: nat, ids: seq<MsgId>, m: MsgId)
    ensures before >= l.maxMessages ==> !IsTaken(l, before, ids, m)
  {
  }

  lemma TakenAre(l: Limits, before: nat, ids: seq<MsgId>, n: nat, m: MsgId)
    requires before < l.maxMessages && n == Min(|ids|, l.maxMessages - before)
    ensures m in ToSet(ids[..n]) <==> IsTaken(l, before, ids, m)
  {
    if m in ids[..n] {
      var k :| 0 <= k < n && ids[..n][k] == m;
      assert ids[k] == m && before + k < l.maxMessages;
    }
    if IsTaken(l, before, ids, m) {
      var k :| 0 <= k < |ids| && before + k < l.maxMessages && ids[k] == m;
      assert ids[..n][k] == m;
    }
  }

  lemma TickTracks(l: Limits, s: State, p: PeerId, m: MsgId)
    ensures var s' := Tick(l, s);
            && s'.ticks == s.ticks + 1 && CountOf(s', p) == 0
            && (m in TrackedOf(s', p) <==>
                  m in TrackedOf(s, p) && s.ticks + 1 - TrackedOf(s, p)[m] < l.mcacheLength)
            && (m in TrackedOf(s', p) ==> TrackedOf(s', p)[m] == TrackedOf(s, p)[m])
  {
  }

  /** The bound needs a history of at least one heartbeat: without, what has just been received is already over it. */
  lemma BoundNeedsHistory(l: Limits, p: PeerId, m: MsgId)
    ensures (forall events: seq<Event>, q: PeerId ::
               |TrackedOf(Run(l, events), q)| <= l.maxMessages * l.mcacheLength)
            <==> l.mcacheLength >= 1 || l.maxMessages == 0
  {
    hide Run;
    if l.mcacheLength >= 1 {
      forall events: seq<Event>, q: PeerId
        ensures |TrackedOf(Run(l, events), q)| <= l.maxMessages * l.mcacheLength
      {
        TrackedBounded(l, events, q);
      }
    } else if l.maxMessages == 0 {
      forall events: seq<Event>, q: PeerId ensures |TrackedOf(Run(l, events), q)| <= 0 {
        NothingTaken(l, events, q);
      }
    } else {
      OneTracked(l, p, m);
      assert l.maxMessages * l.mcacheLength == 0;
    }
  }

  lemma OneTracked(l: Limits, p: PeerId, m: MsgId)
    requires l.maxMessages > 0
    ensures |TrackedOf(Run(l, [Received(p, [m])]), p)| == 1
  {
    var once := [Received(p, [m])];
    assert once[..0] == [];
    assert ToSet([m][..1]) == {m} by { assert [m][..1] == [m]; }
    assert TrackedOf(Run(l, once), p).Keys == {m};
  }

  lemma {:induction false} NothingTaken(l: Limits, events: seq<Event>, q: PeerId)
    requires l.maxMessages == 0
    ensures TrackedOf(Run(l, events), q) == map[]
  {
    if events != [] {
      NothingTaken(l, events[..|events| - 1], q);
    }
  }

  // ----- the router's fields

  class IdontwantTracker {
    const limits: Limits
    var heartbeatTicks: nat
    var idontwantCounts: map<PeerId, nat>
    var idontwants: map<PeerId, Marks>

    constructor (limits: Limits)
      ensures this.limits == limits && Now() == Run(limits, [])
    {
      this.limits := limits;
      heartbeatTicks, idontwantCounts, idontwants := 0, map[], map[];
    }

    function Now(): State
      reads this
    {
      State(heartbeatTicks, idontwantCounts, idontwants)
    }

    /** Takes the ids of several IDONTWANTs, stopping when the budget is used up. */
    method HandleIdontwant(id: PeerId, idontwant: seq<seq<MsgId>>)
      modifies this
      ensures Now() == Apply(limits, old(Now()), Received(id, Flat(idontwant)))
    {
      var count := if id in idontwantCounts then idontwantCounts[id] else 0;
      if count >= limits.maxMessages {
        return;
      }
      var marks := if id in idontwants then idontwants[id] else map[];
      ghost var was := Now();
      count, marks := TakeIds(idontwant, count, marks);
      ReceiveBy(limits, was, id, Flat(idontwant));
      hide Marked, Flat, Taken, ToSet, Apply;
      idontwants := idontwants[id := marks];
      idontwantCounts := idontwantCounts[id := count];
    }

    /** The nested loops over the lists of ids. */
    method TakeIds(idontwant: seq<seq<MsgId>>, before: nat, was: Marks) returns (count: nat, marks: Marks)
      ensures Budgeted(count, marks)
           == Taken(limits.maxMessages, heartbeatTicks, Budgeted(before, was), Flat(idontwant))
    {
      count, marks := before, was;
      ghost var start := Budgeted(before, was);
      var max := limits.maxMessages;
      for i := 0 to |idontwant|
        invariant Budgeted(count, marks) == Taken(max, heartbeatTicks, start, Flat(idontwant[..i]))
      {
        FlatNext(idontwant, i);
        hide Flat;
        assert Flat(idontwant[..i]) + idontwant[i][..0] == Flat(idontwant[..i]);
        for j := 0 to |idontwant[i]|
          invariant Budgeted(count, marks)
                 == Taken(max, heartbeatTicks, start, Flat(idontwant[..i]) + idontwant[i][..j])
        {
          if count >= max {
            FlatPrefix(idontwant, i, j);
            TakenWhenFull(max, heartbeatTicks, start, Flat(idontwant[..i]) + idontwant[i][..j], Flat(idontwant));
            return;
          }
          assert (Flat(idontwant[..i]) + idontwant[i][..j + 1])[..|Flat(idontwant[..i])| + j]
              == Flat(idontwant[..i]) + idontwant[i][..j];
          count := count + 1;
          marks := marks[idontwant[i][j] := heartbeatTicks];
        }
        assert idontwant[i][..|idontwant[i]|] == idontwant[i];
      }
      assert idontwant[..|idontwant|] == idontwant;
    }

    /** Starts a heartbeat: fresh budgets, old marks forgotten. */
    method Heartbeat()
      modifies this
      ensures Now() == Apply(limits, old(Now()), Event.Heartbeat)
    {
      heartbeatTicks := heartbeatTicks + 1;
      idontwantCounts := map[];
      idontwants := map p | p in idontwants :: Recent(limits, idontwants[p], heartbeatTicks);
    }

    method RemovePeer(id: PeerId)
      modifies this
      ensures Now() == Apply(limits, old(Now()), Disconnected(id))
    {
      idontwantCounts := idontwantCounts - {id};
      idontwants := idontwants - {id};
    }
  }

  datatype Budgeted = Budgeted(count: nat, marks: Marks)

  /** Ids taken one at a time while the budget lasts. */
  function Taken(max: nat, tick: nat, b: Budgeted, ids: seq<MsgId>): Budgeted {
    if ids == [] then b
    else
      var before := Taken(max, tick, b, ids[..|ids| - 1]);
      if before.count >= max then before
      else Budgeted(before.count + 1, before.marks[ids[|ids| - 1] := tick])
  }

  lemma {:induction false} TakenWhenFull(max: nat, tick: nat, b: Budgeted, some: seq<MsgId>, ids: seq<MsgId>)
    requires some <= ids && Taken(max, tick, b, some).count >= max
    ensures Taken(max, tick, b, ids) == Taken(max, tick, b, some)
  {
    if |some| < |ids| {
      TakenWhenFull(max, tick, b, some, ids[..|ids| - 1]);
    } else {
      assert some == ids;
    }
  }

  /** What is taken is the longest affordable prefix. */
  lemma {:induction false} TakenInOrder(max: nat, tick: nat, b: Budgeted, ids: seq<MsgId>)
    requires b.count <= max
    ensures var n := Min(|ids|, max - b.count);
            Taken(max, tick, b, ids) == Budgeted(b.count + n, Marked(b.marks, ToSet(ids[..n]), tick))
  {
    if ids == [] {
      NoneMarked(b.marks, ids[..0], tick);
    } else {
      var front := ids[..|ids| - 1];
      TakenInOrder(max, tick, b, front);
      var n := Min(|front|, max - b.count);
      assert ids[..n] == front[..n];
      hide Marked, ToSet;
      if n == |front| {
        assert front[..n] == front && ids[..n + 1] == front + [ids[n]];
        MarkedNext(b.marks, front, ids[n], tick);
      }
    }
  }

  lemma NoneMarked(marks: Marks, none: seq<MsgId>, tick: nat)
    requires none == []
    ensures Marked(marks, ToSet(none), tick) == marks
  {
  }

  lemma MarkedNext(marks: Marks, ids: seq<MsgId>, id: MsgId, tick: nat)
    ensures Marked(marks, ToSet(ids + [id]), tick) == Marked(marks, ToSet(ids), tick)[id := tick]
  {
    assert ToSet(ids + [id]) == ToSet(ids) + {id};
  }

  lemma ReceiveBy(l: Limits, s: State, p: PeerId, ids: seq<MsgId>)
    requires CountOf(s, p) < l.maxMessages
    ensures var r := Taken(l.maxMessages, s.ticks, Budgeted(CountOf(s, p), TrackedOf(s, p)), ids);
            Apply(l, s, Received(p, ids)) == s.(counts := s.counts[p := r.count], tracked := s.tracked[p := r.marks])
  {
    hide Marked, Taken, ToSet;
    TakenInOrder(l.maxMessages, s.ticks, Budgeted(CountOf(s, p), TrackedOf(s, p)), ids);
  }

  lemma {:induction false} FlatMonotone<T>(s: seq<seq<T>>, i: nat)
    requires i <= |s|
    ensures Flat(s[..i]) <= Flat(s)
  {
    if i < |s| {
      FlatNext(s, |s| - 1);
      assert s[..|s|] == s && s[..|s| - 1][..i] == s[..i];
      FlatMonotone(s[..|s| - 1], i);
    } else {
      assert s[..i] == s;
    }
  }

  lemma FlatPrefix<T>(s: seq<seq<T>>, i: nat, j: nat)
    requires i < |s| && j <= |s[i]|
    ensures Flat(s[..i]) + s[i][..j] <= Flat(s)
  {
    FlatNext(s, i);
    FlatMonotone(s, i + 1);
  }
}
