/** How long messages stay, what is gossiped about them, and how often they are sent again. */
module MessageCacheTheorems {
  import opened Types
  import opened Seqs
  import opened MessageCacheModel

  // ----- eviction

  function AfterShifts(c: Cache, n: nat): (r: Cache)
    requires c.history != []
    ensures |r.history| == |c.history|
  {
    if n == 0 then c else Shifted(AfterShifts(c, n - 1))
  }

  /** Some of the `n` oldest windows still names the id. */
  ghost predicate Due(history: seq<Slot>, id: MsgId, n: nat) {
    exists i :: 0 <= i < |history| && |history| <= i + n && id in Ids(history[i])
  }

  /** Shifting moves every window towards the end. */
  lemma {:induction false} ShiftedWindow(c: Cache, n: nat, i: nat)
    requires i < |c.history|
    ensures AfterShifts(c, n).history[i] == if i < n then [] else c.history[i - n]
  {
    hide *;
    if n == 0 {
      NoShift(c);
    } else {
      OneMoreShift(c, n, i);
      if i > 0 {
        ShiftedWindow(c, n - 1, i - 1);
      }
    }
  }

  lemma NoShift(c: Cache)
    requires c.history != []
    ensures AfterShifts(c, 0) == c
  {
  }

  lemma OneMoreShift(c: Cache, n: nat, i: nat)
    requires n > 0 && i < |c.history|
    ensures AfterShifts(c, n).history[i] == if i == 0 then [] else AfterShifts(c, n - 1).history[i - 1]
  {
    hide Ids, Unvalidated;
  }

  lemma DueStep(h: seq<Slot>, id: MsgId, n: nat)
    requires n > 0
    ensures Due(h, id, n) <==> Due(h, id, n - 1) || (n <= |h| && id in Ids(h[|h| - n]))
  {
    hide Ids;
    if Due(h, id, n) {
      var i :| 0 <= i < |h| && |h| <= i + n && id in Ids(h[i]);
      assert i == |h| - n || |h| <= i + (n - 1);
    }
  }

  /** A message outlasts `n` shifts exactly when none of the `n` oldest windows names it. */
  lemma {:induction false} SurvivesShifts(c: Cache, id: MsgId, n: nat)
    requires c.history != []
    ensures id in AfterShifts(c, n).msgs <==> id in c.msgs && !Due(c.history, id, n)
  {
    hide *;
    if n == 0 {
      NoShift(c);
      NothingDue(c.history, id);
    } else {
      SurvivesShifts(c, id, n - 1);
      ShiftTakes(c, id, n);
      ShiftedWindow(c, n - 1, |c.history| - 1);
      NothingNamed(AfterShifts(c, n - 1).history[|c.history| - 1], id);
      DueStep(c.history, id, n);
    }
  }

  lemma NothingDue(h: seq<Slot>, id: MsgId)
    ensures !Due(h, id, 0)
  {
  }

  lemma NothingNamed(slot: Slot, id: MsgId)
    ensures slot == [] ==> id !in Ids(slot)
  {
  }

  /** The `n`-th shift takes what the oldest window names by then. */
  lemma ShiftTakes(c: Cache, id: MsgId, n: nat)
    requires c.history != [] && n > 0
    ensures var was := AfterShifts(c, n - 1);
            id in AfterShifts(c, n).msgs <==> id in was.msgs && id !in Ids(was.history[|c.history| - 1])
  {
    hide Ids, Unvalidated, Rolled;
  }

  /** A message just put outlasts `n` shifts when it is not its own time yet, nor that of an older naming. */
  lemma PutSurvives(c: Cache, id: MsgId, msg: Message, validated: bool, n: nat)
    requires c.history != [] && id !in c.msgs
    ensures id in AfterShifts(Next(c, Put(id, msg, validated)), n).msgs <==>
              n < |c.history| && forall i :: 0 < i < |c.history| && |c.history| <= i + n ==> id !in Ids(c.history[i])
  {
    var c' := Next(c, Put(id, msg, validated));
    SurvivesShifts(c', id, n);
    assert c'.history[0] == c.history[0] + [SlotEntry(id, msg.topic)];
    NamedLast(c.history[0], SlotEntry(id, msg.topic));
    assert forall i :: 0 < i < |c.history| ==> c'.history[i] == c.history[i];
    hide Ids, AfterShifts;
  }

  lemma NamedLast(slot: Slot, e: SlotEntry)
    ensures e.id in Ids(slot + [e])
  {
    assert (slot + [e])[|slot|] == e;
  }

  /** A message just put lasts its full time exactly when no window still named it; an old name evicts it early. */
  lemma PutLastsIff(c: Cache, id: MsgId, msg: Message, validated: bool)
    requires c.history != [] && id !in c.msgs
    ensures (forall n: nat :: id in AfterShifts(Next(c, Put(id, msg, validated)), n).msgs <==> n < |c.history|)
            <==> forall i :: 0 < i < |c.history| ==> id !in Ids(c.history[i])
  {
    var c' := Next(c, Put(id, msg, validated));
    var cap := |c.history|;
    hide *;
    forall n: nat ensures id in AfterShifts(c', n).msgs <==>
      n < cap && forall i :: 0 < i < cap && cap <= i + n ==> id !in Ids(c.history[i])
    {
      PutSurvives(c, id, msg, validated, n);
    }
    if i :| 0 < i < cap && id in Ids(c.history[i]) {
      assert cap - i < cap && id !in AfterShifts(c', cap - i).msgs;
    }
  }

  /**
   * Put, removed, put again a shift later, and shifted: with two windows kept the message is gone, though by its age it
   * has a shift to go.
   */
  lemma EarlyEviction(id: MsgId, msg: Message)
    ensures var put := Put(id, msg, true);
            var c := Next(Next(Next(Empty(2), put), Remove(id)), Shift);
            id !in Next(Next(c, put), Shift).msgs
    ensures var put := Put(id, msg, true);
            var r := RefNext(2, RefNext(2, RefNext(2, map[], put), Remove(id)), Shift);
            id in RefNext(2, RefNext(2, r, put), Shift)
  {
    var named := SlotEntry(id, msg.topic);
    var c := Next(Next(Next(Empty(2), Put(id, msg, true)), Remove(id)), Shift);
    assert c.history[1] == [named] && id !in c.msgs;
    assert named in [named] && id in Ids([named]);
    hide Ids;
  }

  // ----- refinement

  /** No id is named twice in the windows. */
  ghost predicate Clean(h: seq<Slot>) {
    forall i, a, j, b :: 0 <= i < |h| && 0 <= a < |h[i]| && 0 <= j < |h| && 0 <= b < |h[j]| && h[i][a].id == h[j][b].id
      ==> i == j && a == b
  }

  ghost predicate Named(h: seq<Slot>, id: MsgId) { exists i :: 0 <= i < |h| && id in Ids(h[i]) }

  /** What the caller must avoid: putting an id that was removed and is still named in a window. */
  ghost predicate Fresh(c: Cache, e: Event) { e.Put? ==> e.id in c.msgs || !Named(c.history, e.id) }

  ghost predicate Refines(c: Cache, r: Reference) {
    && c.msgs == Entries(r)
    && forall m :: m in r ==> Placed(c.history, m, r[m])
  }

  /** The message is named in the window of its age. */
  ghost predicate Placed(h: seq<Slot>, m: MsgId, a: Aged) {
    a.age < |h| && SlotEntry(m, a.entry.message.topic) in h[a.age]
  }

  ghost predicate FreshRun(capacity: nat, events: seq<Event>)
    requires capacity >= 1
  {
    forall k :: 0 <= k < |events| ==> Fresh(RunOn(Empty(capacity), events[..k]), events[k])
  }

  lemma PutKeepsClean(c: Cache, id: MsgId, msg: Message, validated: bool)
    requires c.history != [] && Clean(c.history) && id !in c.msgs
    ensures Clean(Next(c, Put(id, msg, validated)).history) <==> !Named(c.history, id)
  {
    var h: seq<Slot>, h': seq<Slot> := c.history, Next(c, Put(id, msg, validated)).history;
    var n := |h[0]|;
    assert h'[0][n].id == id;
    if Named(h, id) {
      var i :| 0 <= i < |h| && id in Ids(h[i]);
      var a :| 0 <= a < |h[i]| && h[i][a].id == id;
      assert h'[i][a].id == id;
    } else {
      forall i, a | 0 <= i < |h| && 0 <= a < |h[i]| ensures h[i][a].id != id {
        assert h[i][a].id in Ids(h[i]);
      }
      forall i, a, j, b
        | 0 <= i < |h'| && 0 <= a < |h'[i]| && 0 <= j < |h'| && 0 <= b < |h'[j]| && h'[i][a].id == h'[j][b].id
        ensures i == j && a == b
      {
        assert !(i == 0 && a == n) ==> h'[i][a] == h[i][a];
        assert !(j == 0 && b == n) ==> h'[j][b] == h[j][b];
      }
    }
  }

  lemma ShiftKeepsClean(c: Cache)
    requires c.history != [] && Clean(c.history)
    ensures Clean(Next(c, Shift).history)
  {
    var h: seq<Slot>, h': seq<Slot> := c.history, Next(c, Shift).history;
    forall i, a, j, b
      | 0 <= i < |h'| && 0 <= a < |h'[i]| && 0 <= j < |h'| && 0 <= b < |h'[j]| && h'[i][a].id == h'[j][b].id
      ensures i == j && a == b
    {
      assert h'[i] == h[i - 1] && h'[j] == h[j - 1];
    }
  }

  /** In clean windows an id is named in one window only. */
  lemma OneWindow(h: seq<Slot>, m: MsgId, i: nat, j: nat)
    requires Clean(h) && i < |h| && j < |h| && m in Ids(h[i]) && m in Ids(h[j])
    ensures i == j
  {
    var a :| 0 <= a < |h[i]| && h[i][a].id == m;
    var b :| 0 <= b < |h[j]| && h[j][b].id == m;
  }

  /** The oldest window names exactly the messages at the end of their time. */
  lemma OldestWindow(c: Cache, r: Reference, m: MsgId)
    requires c.history != [] && Clean(c.history) && Refines(c, r) && m in r
    ensures m in Ids(c.history[|c.history| - 1]) <==> r[m].age + 1 == |c.history|
  {
    assert m in Ids(c.history[r[m].age]);
    hide Ids, Clean;
    if m in Ids(c.history[|c.history| - 1]) {
      OneWindow(c.history, m, r[m].age, |c.history| - 1);
    }
  }

  lemma ShiftRefines(c: Cache, r: Reference)
    requires c.history != [] && Clean(c.history) && Refines(c, r)
    ensures Refines(Next(c, Shift), RefNext(|c.history|, r, Shift))
  {
    hide Clean, Ids, Unvalidated, Entries, Older, Rolled, Placed;
    OldestEnd(c, r);
    ShiftEntries(c, r, Ids(c.history[|c.history| - 1]));
    ShiftWindows(c, r);
  }

  lemma OldestEnd(c: Cache, r: Reference)
    requires c.history != [] && Clean(c.history) && Refines(c, r)
    ensures forall m :: m in r ==> (m in Ids(c.history[|c.history| - 1]) <==> r[m].age + 1 == |c.history|)
  {
    hide *;
    forall m | m in r ensures m in Ids(c.history[|c.history| - 1]) <==> r[m].age + 1 == |c.history| {
      OldestWindow(c, r, m);
    }
  }

  lemma ShiftWindows(c: Cache, r: Reference)
    requires c.history != [] && Refines(c, r)
    ensures var r' := Older(|c.history|, r);
            forall m :: m in r' ==> Placed(Rolled(c.history), m, r'[m])
  {
    var r' := Older(|c.history|, r);
    hide Entries;
    forall m | m in r' ensures Placed(Rolled(c.history), m, r'[m]) {
      assert Placed(c.history, m, r[m]);
      assert Rolled(c.history)[r[m].age + 1] == c.history[r[m].age];
    }
  }

  lemma ShiftEntries(c: Cache, r: Reference, last: set<MsgId>)
    requires Refines(c, r) && forall m :: m in r ==> (m in last <==> r[m].age + 1 == |c.history|)
    ensures c.msgs - last == Entries(Older(|c.history|, r))
  {
    forall m | m in r ensures r[m].age < |c.history| {
    }
    hide Refines;
  }

  lemma {:induction false} WantKeepsMessages(msgs: map<MsgId, Entry>, ids: seq<MsgId>, p: PeerId)
    ensures WantAll(msgs, ids, p).Keys == msgs.Keys
    ensures forall m :: m in msgs ==>
      WantAll(msgs, ids, p)[m].message == msgs[m].message && WantAll(msgs, ids, p)[m].validated == msgs[m].validated
  {
    if ids != [] {
      WantKeepsMessages(msgs, ids[..|ids| - 1], p);
    }
  }

  lemma NextRefines(c: Cache, r: Reference, e: Event)
    requires c.history != [] && Clean(c.history) && Refines(c, r) && Fresh(c, e)
    ensures Clean(Next(c, e).history) && Refines(Next(c, e), RefNext(|c.history|, r, e))
  {
    match e
    case Put(id, msg, validated) =>
      if id !in c.msgs {
        PutKeepsClean(c, id, msg, validated);
        PutRefines(c, r, id, msg, validated);
      }
    case Shift =>
      ShiftKeepsClean(c);
      ShiftRefines(c, r);
    case _ => SameWindows(c, r, e);
  }

  /** Events that touch entries only. */
  lemma SameWindows(c: Cache, r: Reference, e: Event)
    requires c.history != [] && Refines(c, r) && !e.Put? && !e.Shift?
    ensures Next(c, e).history == c.history && Refines(Next(c, e), RefNext(|c.history|, r, e))
  {
    match e
    case Remove(id) => assert c.msgs - {id} == Entries(r - {id});
    case Want(ids, p) =>
      WantKeepsMessages(c.msgs, ids, p);
      WantIsAsked(r, ids, p);
      hide WantAll, AskedFor, Entries;
      EntriesReplaced(c, r, WantAll(c.msgs, ids, p));
    case Observe(id, from) =>
      ObserveIsRef(|c.history|, r, id, from);
      hide RefNext;
      EntriesReplaced(c, r, Observed(c.msgs, id, from));
    case Validate(id) =>
      ValidateIsRef(|c.history|, r, id);
      assert id !in c.msgs ==> Validated(c.msgs, id) == c.msgs;
      hide RefNext;
      EntriesReplaced(c, r, Validated(c.msgs, id));
  }

  lemma ObserveIsRef(capacity: nat, r: Reference, id: MsgId, from: PeerId)
    ensures WithEntries(r, Observed(Entries(r), id, from)) == RefNext(capacity, r, Observe(id, from))
  {
  }

  lemma ValidateIsRef(capacity: nat, r: Reference, id: MsgId)
    ensures WithEntries(r, Validated(Entries(r), id)) == RefNext(capacity, r, Validate(id))
  {
  }

  function WithEntries(r: Reference, msgs: map<MsgId, Entry>): Reference {
    map m | m in r && m in msgs :: Aged(msgs[m], r[m].age)
  }

  /** Asking for a list of ids, one after the other, counts each as often as the list names it. */
  lemma {:induction false} WantedEntry(msgs: map<MsgId, Entry>, ids: seq<MsgId>, p: PeerId, m: MsgId)
    requires m in msgs
    ensures m in WantAll(msgs, ids, p) && WantAll(msgs, ids, p)[m] == AskedFor(msgs[m], p, multiset(ids)[m])
  {
    if ids != [] {
      var front, id := ids[..|ids| - 1], ids[|ids| - 1];
      WantedEntry(msgs, front, p, m);
      assert ids == front + [id];
      assert multiset(ids)[m] == multiset(front)[m] + if m == id then 1 else 0;
      assert WantAll(msgs, ids, p) == WantOne(WantAll(msgs, front, p), id, p);
      hide WantAll, AskedFor;
      if m == id {
        AskedOnce(WantAll(msgs, front, p), id, p);
        AskedOnceMore(msgs[m], p, multiset(front)[m]);
      }
    }
  }

  lemma AskedOnce(msgs: map<MsgId, Entry>, m: MsgId, p: PeerId)
    requires m in msgs
    ensures WantOne(msgs, m, p)[m] == AskedFor(msgs[m], p, 1)
  {
  }

  lemma AskedOnceMore(e: Entry, p: PeerId, n: nat)
    ensures AskedFor(AskedFor(e, p, n), p, 1) == AskedFor(e, p, n + 1)
  {
  }

  lemma WantIsAsked(r: Reference, ids: seq<MsgId>, p: PeerId)
    ensures WithEntries(r, WantAll(Entries(r), ids, p))
         == map m | m in r :: r[m].(entry := AskedFor(r[m].entry, p, multiset(ids)[m]))
  {
    forall m | m in r
      ensures m in WantAll(Entries(r), ids, p)
      ensures WantAll(Entries(r), ids, p)[m] == AskedFor(r[m].entry, p, multiset(ids)[m])
    {
      WantedEntry(Entries(r), ids, p, m);
    }
    hide WantAll, AskedFor, Entries;
  }

  lemma EntriesReplaced(c: Cache, r: Reference, msgs: map<MsgId, Entry>)
    requires Refines(c, r) && msgs.Keys == c.msgs.Keys
    requires forall m :: m in msgs ==> msgs[m].message == c.msgs[m].message
    ensures forall n :: Refines(Cache(msgs, c.history, n), WithEntries(r, msgs))
  {
    var r' := WithEntries(r, msgs);
    assert Entries(r') == msgs;
    hide Entries;
    forall m | m in r' ensures SlotEntry(m, r'[m].entry.message.topic) in c.history[r'[m].age] {
      assert SlotEntry(m, r[m].entry.message.topic) in c.history[r[m].age];
    }
  }

  lemma PutRefines(c: Cache, r: Reference, id: MsgId, msg: Message, validated: bool)
    requires c.history != [] && Refines(c, r) && id !in c.msgs
    ensures Refines(Next(c, Put(id, msg, validated)), RefNext(|c.history|, r, Put(id, msg, validated)))
  {
    var c', r' := Next(c, Put(id, msg, validated)), RefNext(|c.history|, r, Put(id, msg, validated));
    assert c'.msgs == Entries(r');
    hide Entries;
    forall m | m in r' ensures SlotEntry(m, r'[m].entry.message.topic) in c'.history[r'[m].age] {
      if m != id {
        assert SlotEntry(m, r[m].entry.message.topic) in c.history[r[m].age];
      }
    }
  }

  /** As long as no removed id is put again before its window has gone, the cache is the map of ages. */
  lemma {:induction false} RunRefines(capacity: nat, events: seq<Event>)
    requires capacity >= 1 && FreshRun(capacity, events)
    ensures Clean(RunOn(Empty(capacity), events).history)
    ensures Refines(RunOn(Empty(capacity), events), RefRun(capacity, events))
  {
    if events == [] {
    } else {
      var before := events[..|events| - 1];
      forall k | 0 <= k < |before| ensures Fresh(RunOn(Empty(capacity), before[..k]), before[k]) {
        assert before[..k] == events[..k] && Fresh(RunOn(Empty(capacity), events[..k]), events[k]);
      }
      RunRefines(capacity, before);
      assert Fresh(RunOn(Empty(capacity), before), events[|events| - 1]);
      NextRefines(RunOn(Empty(capacity), before), RefRun(capacity, before), events[|events| - 1]);
    }
  }

  // ----- gossip

  lemma {:induction false} ListedMembers(msgs: map<MsgId, Entry>, slot: Slot, topic: Topic, m: MsgId)
    ensures m in Listed(msgs, slot, topic) <==> SlotEntry(m, topic) in slot && m in msgs && msgs[m].validated
  {
    if slot != [] {
      ListedMembers(msgs, slot[..|slot| - 1], topic, m);
      assert slot == slot[..|slot| - 1] + [slot[|slot| - 1]];
    }
  }

  lemma {:induction false} GossipMembers(c: Cache, topic: Topic, n: nat, m: MsgId)
    requires n <= |c.history|
    ensures m in GossipIds(c, topic, n) <==>
      m in c.msgs && c.msgs[m].validated && exists i :: 0 <= i < n && SlotEntry(m, topic) in c.history[i]
  {
    if n > 0 {
      GossipMembers(c, topic, n - 1, m);
      ListedMembers(c.msgs, c.history[n - 1], topic, m);
    }
  }

  /** Exactly the validated messages of the topic younger than `n` shifts are gossiped. */
  lemma GossipIsYoung(c: Cache, r: Reference, topic: Topic, n: nat, m: MsgId)
    requires n <= |c.history| && Clean(c.history) && Refines(c, r)
    ensures m in GossipIds(c, topic, n) <==>
      m in r && r[m].entry.validated && r[m].entry.message.topic == topic && r[m].age < n
  {
    GossipMembers(c, topic, n, m);
    if m in r {
      var e := SlotEntry(m, r[m].entry.message.topic);
      assert e in c.history[r[m].age];
      forall i | 0 <= i < n && SlotEntry(m, topic) in c.history[i] ensures i == r[m].age && topic == e.topic {
        SameEntry(c.history, i, SlotEntry(m, topic), r[m].age, e);
      }
    }
  }

  lemma SameEntry(h: seq<Slot>, i: nat, e: SlotEntry, j: nat, f: SlotEntry)
    requires Clean(h) && i < |h| && j < |h| && e in h[i] && f in h[j] && e.id == f.id
    ensures i == j && e == f
  {
    var a :| 0 <= a < |h[i]| && h[i][a] == e;
    var b :| 0 <= b < |h[j]| && h[j][b] == f;
    assert h[i][a].id == h[j][b].id;
  }

  ghost predicate DistinctIds(slot: Slot) { forall a, b :: 0 <= a < b < |slot| ==> slot[a].id != slot[b].id }

  lemma {:induction false} ListedDistinct(msgs: map<MsgId, Entry>, slot: Slot, topic: Topic)
    requires DistinctIds(slot)
    ensures Distinct(Listed(msgs, slot, topic))
  {
    if slot != [] {
      var front, e := slot[..|slot| - 1], slot[|slot| - 1];
      ListedDistinct(msgs, front, topic);
      ListedMembers(msgs, front, topic, e.id);
      forall f | f in front ensures f.id != e.id {
        var a :| 0 <= a < |front| && front[a] == f;
        assert slot[a] == f;
      }
    }
  }

  /** Each id is gossiped once, and ids of newer windows come before those of older ones. */
  lemma {:induction false} GossipNewestFirst(c: Cache, r: Reference, topic: Topic, n: nat)
    requires n <= |c.history| && Clean(c.history) && Refines(c, r)
    ensures Distinct(GossipIds(c, topic, n))
    ensures forall i :: 0 <= i < |GossipIds(c, topic, n)| ==> GossipIds(c, topic, n)[i] in r
    ensures forall i, j :: 0 <= i < j < |GossipIds(c, topic, n)| ==>
      r[GossipIds(c, topic, n)[i]].age <= r[GossipIds(c, topic, n)[j]].age
  {
    if n > 0 {
      GossipNewestFirst(c, r, topic, n - 1);
      var newer, here := GossipIds(c, topic, n - 1), Listed(c.msgs, c.history[n - 1], topic);
      assert DistinctIds(c.history[n - 1]);
      ListedDistinct(c.msgs, c.history[n - 1], topic);
      forall m | m in newer ensures m in r && r[m].age < n - 1 {
        GossipIsYoung(c, r, topic, n - 1, m);
      }
      forall m | m in here ensures m in r && r[m].age == n - 1 {
        ListedMembers(c.msgs, c.history[n - 1], topic, m);
        SameEntry(c.history, n - 1, SlotEntry(m, topic), r[m].age, SlotEntry(m, r[m].entry.message.topic));
      }
      assert GossipIds(c, topic, n) == newer + here;
      hide Clean, Refines, GossipIds, Listed;
      NewerBeforeOlder(r, newer, here, n - 1);
    }
  }

  lemma NewerBeforeOlder(r: Reference, newer: seq<MsgId>, here: seq<MsgId>, n: nat)
    requires Distinct(newer) && Distinct(here)
    requires forall m :: m in newer ==> m in r && r[m].age < n
    requires forall m :: m in here ==> m in r && r[m].age == n
    requires forall i, j :: 0 <= i < j < |newer| ==> r[newer[i]].age <= r[newer[j]].age
    ensures Distinct(newer + here) && forall i :: 0 <= i < |newer + here| ==> (newer + here)[i] in r
    ensures forall i, j :: 0 <= i < j < |newer + here| ==> r[(newer + here)[i]].age <= r[(newer + here)[j]].age
  {
    var all := newer + here;
    forall i | 0 <= i < |all| ensures all[i] in r && (if i < |newer| then r[all[i]].age < n else r[all[i]].age == n) {
      assert if i < |newer| then all[i] in newer else all[i] in here;
    }
  }

  // ----- the count of messages not yet validated

  /** How many messages were removed before they were validated. */
  function RemovedUnvalidated(c: Cache, events: seq<Event>): nat
    requires c.history != []
  {
    if events == [] then 0
    else
      var was, e := RunOn(c, events[..|events| - 1]), events[|events| - 1];
      RemovedUnvalidated(c, events[..|events| - 1]) + if e.Remove? && e.id in Unvalidated(was.msgs) then 1 else 0
  }

  /** The count runs ahead by one for every removal of a message not yet validated, for ever. */
  lemma {:induction false} CountDrift(capacity: nat, events: seq<Event>)
    requires capacity >= 1
    ensures var c := RunOn(Empty(capacity), events);
            c.notValidatedCount == |Unvalidated(c.msgs)| + RemovedUnvalidated(Empty(capacity), events)
  {
    if events == [] {
      assert Unvalidated(map[]) == {};
    } else {
      CountDrift(capacity, events[..|events| - 1]);
      NextDrift(RunOn(Empty(capacity), events[..|events| - 1]), events[|events| - 1]);
    }
  }

  /** Removing the only message, before its validation, leaves a count of one. */
  lemma CountStaysBehind(id: MsgId, msg: Message)
    ensures var c := RunOn(Empty(1), [Put(id, msg, false), Remove(id)]);
            c.msgs == map[] && c.notValidatedCount == 1
  {
    var events := [Put(id, msg, false), Remove(id)];
    assert events[..1] == [Put(id, msg, false)] && events[..1][..0] == [];
    assert RunOn(Empty(1), events[..1]).notValidatedCount == 1;
  }

  lemma NextDrift(c: Cache, e: Event)
    requires c.history != []
    ensures var c' := Next(c, e);
            c'.notValidatedCount - |Unvalidated(c'.msgs)| == c.notValidatedCount - |Unvalidated(c.msgs)|
              + if e.Remove? && e.id in Unvalidated(c.msgs) then 1 else 0
  {
    hide Unvalidated, Ids, WantAll, Observed, Validated;
    match e
    case Put(id, msg, validated) =>
      if id !in c.msgs {
        PutUnvalidated(c.msgs, id, Entry(msg, validated, {}, map[]));
      }
    case Observe(id, from) => ObservedUnvalidated(c.msgs, id, from);
    case Want(ids, p) => WantUnvalidated(c.msgs, ids, p);
    case Validate(id) => ValidatedUnvalidated(c.msgs, id);
    case Remove(id) => LessUnvalidated(c.msgs, {id});
    case Shift => LessUnvalidated(c.msgs, Ids(c.history[|c.history| - 1]));
  }

  lemma PutUnvalidated(msgs: map<MsgId, Entry>, id: MsgId, e: Entry)
    requires id !in msgs
    ensures |Unvalidated(msgs[id := e])| == |Unvalidated(msgs)| + if e.validated then 0 else 1
  {
    assert Unvalidated(msgs[id := e]) == if e.validated then Unvalidated(msgs) else Unvalidated(msgs) + {id};
  }

  lemma ObservedUnvalidated(msgs: map<MsgId, Entry>, id: MsgId, from: PeerId)
    ensures Unvalidated(Observed(msgs, id, from)) == Unvalidated(msgs)
  {
  }

  lemma WantUnvalidated(msgs: map<MsgId, Entry>, ids: seq<MsgId>, p: PeerId)
    ensures Unvalidated(WantAll(msgs, ids, p)) == Unvalidated(msgs)
  {
    WantKeepsMessages(msgs, ids, p);
    hide WantAll;
  }

  lemma ValidatedUnvalidated(msgs: map<MsgId, Entry>, id: MsgId)
    ensures id in msgs ==>
      |Unvalidated(Validated(msgs, id))| == |Unvalidated(msgs)| - if msgs[id].validated then 0 else 1
  {
    if id in msgs {
      assert Unvalidated(Validated(msgs, id)) == Unvalidated(msgs) - {id};
    }
  }

  lemma LessUnvalidated(msgs: map<MsgId, Entry>, gone: set<MsgId>)
    ensures |Unvalidated(msgs - gone)| == |Unvalidated(msgs)| - |Unvalidated(msgs) * gone|
    ensures forall id :: gone == {id} ==> |Unvalidated(msgs) * gone| == if id in Unvalidated(msgs) then 1 else 0
  {
    assert Unvalidated(msgs - gone) == Unvalidated(msgs) - gone;
    SplitCardinality(Unvalidated(msgs), gone);
    forall id | gone == {id} ensures |Unvalidated(msgs) * gone| == if id in Unvalidated(msgs) then 1 else 0 {
      assert Unvalidated(msgs) * gone == if id in Unvalidated(msgs) then {id} else {};
    }
  }

  // ----- answers to requests

  ghost predicate PresentThroughout(c: Cache, events: seq<Event>, m: MsgId)
    requires c.history != []
  {
    forall k :: 0 <= k <= |events| ==> m in RunOn(c, events[..k]).msgs
  }

  /** How often the run sends message `m` to peer `p` on request. */
  ghost function Sends(c: Cache, events: seq<Event>, m: MsgId, p: PeerId): nat
    requires c.history != []
  {
    if events == [] then 0
    else
      var was, e := RunOn(c, events[..|events| - 1]), events[|events| - 1];
      Sends(c, events[..|events| - 1], m, p) + if e.Want? && e.from == p && m in Sent(was.msgs, e.ids, p) then 1 else 0
  }

  lemma {:induction false} WantCounts(msgs: map<MsgId, Entry>, ids: seq<MsgId>, p: PeerId, m: MsgId, q: PeerId)
    requires m in msgs
    ensures m in WantAll(msgs, ids, p)
    ensures WantCount(WantAll(msgs, ids, p)[m], q) == WantCount(msgs[m], q) + if q == p then multiset(ids)[m] else 0
  {
    if ids != [] {
      WantCounts(msgs, ids[..|ids| - 1], p, m, q);
      assert ids == ids[..|ids| - 1] + [ids[|ids| - 1]];
    }
  }

  lemma NextWantCount(c: Cache, e: Event, m: MsgId, p: PeerId)
    requires c.history != [] && m in c.msgs && m in Next(c, e).msgs
    ensures WantCount(Next(c, e).msgs[m], p)
         >= WantCount(c.msgs[m], p) + if e.Want? && e.from == p && m in Sent(c.msgs, e.ids, p) then 1 else 0
  {
    if e.Want? {
      WantCounts(c.msgs, e.ids, e.from, m, p);
    }
  }

  /** How often the peer has asked for the message, each mention of a list counted. */
  function AskedIn(events: seq<Event>, m: MsgId, p: PeerId): nat {
    if events == [] then 0
    else
      var e := events[|events| - 1];
      AskedIn(events[..|events| - 1], m, p) + if e.Want? && e.from == p then multiset(e.ids)[m] else 0
  }

  lemma {:induction false} CountIsAsked(c: Cache, events: seq<Event>, m: MsgId, p: PeerId)
    requires c.history != [] && PresentThroughout(c, events, m) && m in c.msgs
    ensures m in RunOn(c, events).msgs
    ensures WantCount(RunOn(c, events).msgs[m], p) == WantCount(c.msgs[m], p) + AskedIn(events, m, p)
  {
    assert events[..|events|] == events;
    if events != [] {
      var before, e := events[..|events| - 1], events[|events| - 1];
      forall k | 0 <= k <= |before| ensures m in RunOn(c, before[..k]).msgs {
        assert before[..k] == events[..k];
      }
      assert before[..|before|] == before && m in RunOn(c, before[..|before|]).msgs;
      CountIsAsked(c, before, m, p);
      NextCountIs(RunOn(c, before), e, m, p);
      hide Next, WantCount;
    }
  }

  lemma NextCountIs(c: Cache, e: Event, m: MsgId, p: PeerId)
    requires c.history != [] && m in c.msgs && m in Next(c, e).msgs
    ensures WantCount(Next(c, e).msgs[m], p)
         == WantCount(c.msgs[m], p) + if e.Want? && e.from == p then multiset(e.ids)[m] else 0
  {
    if e.Want? {
      WantCounts(c.msgs, e.ids, e.from, m, p);
    }
  }

  /** A request for a message in the cache is answered exactly if the peer had asked fewer than three times before. */
  lemma AnsweredIff(c: Cache, events: seq<Event>, m: MsgId, p: PeerId, ids: seq<MsgId>)
    requires c.history != [] && PresentThroughout(c, events, m) && m in c.msgs
    ensures m in Sent(RunOn(c, events).msgs, ids, p) <==>
              m in ids && WantCount(c.msgs[m], p) + AskedIn(events, m, p) < 3
  {
    CountIsAsked(c, events, m, p);
    hide RunOn, WantCount;
  }

  /** While a message stays in the cache, a peer gets it in answer to its requests at most three times. */
  lemma {:induction false} SentAtMost(c: Cache, events: seq<Event>, m: MsgId, p: PeerId)
    requires c.history != [] && PresentThroughout(c, events, m)
    ensures m in RunOn(c, events).msgs && Sends(c, events, m, p) <= 3
    ensures Sends(c, events, m, p) <= WantCount(RunOn(c, events).msgs[m], p)
  {
    if events == [] {
      assert events[..0] == events;
    } else {
      var before, e := events[..|events| - 1], events[|events| - 1];
      forall k | 0 <= k <= |before| ensures m in RunOn(c, before[..k]).msgs {
        assert before[..k] == events[..k];
      }
      assert before[..|before|] == before && events[..|events|] == events;
      assert m in RunOn(c, before[..|before|]).msgs && m in RunOn(c, events[..|events|]).msgs;
      SentAtMost(c, before, m, p);
      NextWantCount(RunOn(c, before), e, m, p);
      hide Next;
    }
  }
}
