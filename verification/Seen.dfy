/** De-duplication of messages by id, for received and published messages alike. */
module Seen {
  import opened Types
  import opened TimeCache

  datatype Event =
    | Receive(id: MsgId)
    | Publish(id: MsgId, hasRecipients: bool)
    | Heartbeat

  /** When each seen id may be forgotten. */
  type Expiries = map<MsgId, int>

  datatype Effect = Effect(seen: Expiries, admitted: bool)

  /** An id is admitted when it is not on record; a publication without recipients is turned down unrecorded. */
  function Apply(ttl: int, seen: Expiries, e: Event, now: int): Effect {
    match e
    case Receive(id) => if id in seen then Effect(seen, false) else Effect(seen[id := now + ttl], true)
    case Publish(id, hasRecipients) =>
      if id in seen || !hasRecipients then Effect(seen, false) else Effect(seen[id := now + ttl], true)
    case Heartbeat => Effect(map m | m in seen && seen[m] >= now :: seen[m], false)
  }

  datatype Moment = Moment(now: int, event: Event)

  ghost predicate Monotone(run: seq<Moment>) {
    forall i, j :: 0 <= i <= j < |run| ==> run[i].now <= run[j].now
  }

  /** The ids on record after the first `k` events. */
  function After(ttl: int, run: seq<Moment>, k: nat): Expiries
    requires k <= |run|
  {
    if k == 0 then map[] else Apply(ttl, After(ttl, run, k - 1), run[k - 1].event, run[k - 1].now).seen
  }

  /** Event `k` admits a message with this id. */
  predicate Admits(ttl: int, run: seq<Moment>, k: nat, id: MsgId)
    requires k < |run|
  {
    && !run[k].event.Heartbeat? && run[k].event.id == id
    && Apply(ttl, After(ttl, run, k), run[k].event, run[k].now).admitted
  }

  /** Once admitted, an id stays on record until more than `ttl` later. */
  lemma {:induction false} RecordPersists(ttl: int, run: seq<Moment>, i: nat, k: nat, id: MsgId)
    requires Monotone(run) && i < k <= |run| && Admits(ttl, run, i, id)
    ensures var s := After(ttl, run, k);
            (id in s && s[id] >= run[i].now + ttl) || run[k - 1].now > run[i].now + ttl
  {
    if i < k - 1 {
      RecordPersists(ttl, run, i, k - 1, id);
      assert run[k - 2].now <= run[k - 1].now;
      assert run[i].now <= run[k - 1].now;
    }
  }

  /** Two admissions of one id are more than the retention time apart, in every run. */
  lemma AdmissionsApart(ttl: int, run: seq<Moment>, i: nat, j: nat, id: MsgId)
    requires Monotone(run) && i < j < |run| && Admits(ttl, run, i, id) && Admits(ttl, run, j, id)
    ensures run[j].now > run[i].now + ttl
  {
    RecordPersists(ttl, run, i, j, id);
    assert run[j - 1].now <= run[j].now;
  }

  /** Event `i` admitted the id, and no heartbeat since found its time exceeded. */
  ghost predicate StillHeld(ttl: int, run: seq<Moment>, i: nat, k: nat, id: MsgId) {
    && i < k <= |run| && Admits(ttl, run, i, id)
    && forall j :: i < j < k && run[j].event.Heartbeat? ==> run[j].now <= run[i].now + ttl
  }

  /** An id is on record exactly if some event admitted it and no heartbeat since came more than `ttl` later. */
  lemma {:induction false} OnRecordIff(ttl: int, run: seq<Moment>, k: nat, id: MsgId)
    requires k <= |run|
    ensures id in After(ttl, run, k) <==> exists i: nat :: StillHeld(ttl, run, i, k, id)
    ensures forall i: nat :: StillHeld(ttl, run, i, k, id) ==>
              id in After(ttl, run, k) && After(ttl, run, k)[id] == run[i].now + ttl
  {
    if k > 0 {
      OnRecordIff(ttl, run, k - 1, id);
      if run[k - 1].event.Heartbeat? {
        HeldThroughBeat(ttl, run, k, id);
      } else {
        HeldThroughOther(ttl, run, k, id);
      }
      RecordNext(ttl, run, k, id);
      hide StillHeld, Admits, After;
      if id in After(ttl, run, k) {
        if Admits(ttl, run, k - 1, id) {
          assert StillHeld(ttl, run, k - 1, k, id);
        } else {
          var i: nat :| StillHeld(ttl, run, i, k - 1, id);
          assert StillHeld(ttl, run, i, k, id);
        }
      }
    }
  }

  lemma RecordNext(ttl: int, run: seq<Moment>, k: nat, id: MsgId)
    requires 0 < k <= |run|
    ensures var was, next, m := After(ttl, run, k - 1), After(ttl, run, k), run[k - 1];
            && (id in next <==> (id in was && (m.event.Heartbeat? ==> was[id] >= m.now)) || Admits(ttl, run, k - 1, id))
            && (id in next ==> next[id] == if Admits(ttl, run, k - 1, id) then m.now + ttl else was[id])
            && (Admits(ttl, run, k - 1, id) ==> id !in was)
  {
  }

  lemma HeldThroughBeat(ttl: int, run: seq<Moment>, k: nat, id: MsgId)
    requires 0 < k <= |run| && run[k - 1].event.Heartbeat?
    ensures !Admits(ttl, run, k - 1, id)
    ensures forall i: nat :: StillHeld(ttl, run, i, k, id) <==>
              StillHeld(ttl, run, i, k - 1, id) && run[k - 1].now <= run[i].now + ttl
  {
  }

  lemma HeldThroughOther(ttl: int, run: seq<Moment>, k: nat, id: MsgId)
    requires 0 < k <= |run| && !run[k - 1].event.Heartbeat?
    ensures forall i: nat :: StillHeld(ttl, run, i, k, id) <==>
              StillHeld(ttl, run, i, k - 1, id) || (i == k - 1 && Admits(ttl, run, k - 1, id))
  {
    hide Admits;
  }

  /** An event admits an id exactly if it is received, or published with recipients, and not on record. */
  lemma AdmitsIff(ttl: int, run: seq<Moment>, k: nat, id: MsgId)
    requires k < |run|
    ensures Admits(ttl, run, k, id) <==>
              && (run[k].event == Receive(id) || run[k].event == Publish(id, true))
              && !exists i: nat :: StillHeld(ttl, run, i, k, id)
  {
    OnRecordIff(ttl, run, k, id);
    hide StillHeld;
  }

  function ExpiriesOf(entries: map<MsgId, CacheValue<()>>): Expiries { map m | m in entries :: entries[m].validUntilMs }

  lemma Recorded(entries: map<MsgId, CacheValue<()>>, id: MsgId, expiry: int)
    ensures ExpiriesOf(entries[id := CacheValue((), expiry)]) == ExpiriesOf(entries)[id := expiry]
  {
  }

  class SeenFilter {
    const seenTTL: int
    const seenCache: SimpleTimeCache<MsgId, ()>
    /** The time of the latest event. */
    ghost var clock: int

    ghost predicate Valid()
      reads this, seenCache
    {
      && seenCache.Valid() && seenCache.validityMs == seenTTL
      && (seenCache.entries != map[] ==> seenCache.lastPut <= clock)
    }

    ghost function Now(): Expiries
      reads this, seenCache
    {
      ExpiriesOf(seenCache.entries)
    }

    constructor (seenTTL: int)
      ensures Valid() && fresh(seenCache) && this.seenTTL == seenTTL && Now() == map[]
    {
      this.seenTTL := seenTTL;
      seenCache := new SimpleTimeCache(seenTTL);
      clock := 0;
    }

    /** Whether a received message is new; if so, its id goes on record. */
    method ReceiveMessage(id: MsgId, now: int) returns (admitted: bool)
      requires Valid() && clock <= now
      modifies this, seenCache
      ensures Valid() && clock == now
      ensures Effect(Now(), admitted) == Apply(seenTTL, old(Now()), Receive(id), now)
    {
      clock := now;
      if seenCache.Has(id) {
        return false;
      }
      PutOnRecord(id, now);
      return true;
    }

    method PutOnRecord(id: MsgId, now: int)
      requires Valid() && clock == now && id !in seenCache.entries
      modifies seenCache
      ensures Valid() && Now() == old(Now())[id := now + seenTTL]
    {
      Recorded(seenCache.entries, id, now + seenTTL);
      hide ExpiriesOf;
      var collision := seenCache.Put(id, (), now);
    }

    /** Whether a message may be published; an id seen before, or no one to send to, forbids it. */
    method PublishMessage(id: MsgId, hasRecipients: bool, now: int) returns (admitted: bool)
      requires Valid() && clock <= now
      modifies this, seenCache
      ensures Valid() && clock == now
      ensures Effect(Now(), admitted) == Apply(seenTTL, old(Now()), Publish(id, hasRecipients), now)
    {
      clock := now;
      if seenCache.Has(id) || !hasRecipients {
        return false;
      }
      PutOnRecord(id, now);
      return true;
    }

    method PruneSeen(now: int)
      requires Valid() && clock <= now
      modifies this, seenCache
      ensures Valid() && clock == now
      ensures Now() == Apply(seenTTL, old(Now()), Heartbeat, now).seen
    {
      clock := now;
      seenCache.Prune(now);
    }
  }
}
