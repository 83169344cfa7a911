/** The insertion-ordered cache with expiry, whose pruning stops at the first entry still valid. */
module TimeCache {
  import opened Seqs

  datatype CacheValue<V> = CacheValue(value: V, validUntilMs: int)

  /** What is left of the entries once those no longer valid at `now` are gone. */
  function Unexpired<K, V>(entries: map<K, CacheValue<V>>, now: int): map<K, CacheValue<V>> {
    map k | k in entries && entries[k].validUntilMs >= now :: entries[k]
  }

  class SimpleTimeCache<K(==), V> {
    const validityMs: int
    /** Keys in insertion order. */
    var order: seq<K>
    var entries: map<K, CacheValue<V>>
    /** The latest time anything was put at. */
    ghost var lastPut: int

    /** The entries expire in the order in which they were put. */
    ghost predicate Valid()
      reads this
    {
      && Distinct(order) && ToSet(order) == entries.Keys
      && Ascending(order, entries)
      && forall k :: k in entries ==> entries[k].validUntilMs <= lastPut + validityMs
    }

    constructor (validityMs: int)
      ensures Valid() && this.validityMs == validityMs && entries == map[]
    {
      this.validityMs := validityMs;
      order, entries, lastPut := [], map[], 0;
    }

    /** Keeps the entry already there, if any, and reports the collision. */
    method Put(key: K, value: V, now: int) returns (collision: bool)
      requires Valid() && (entries != map[] ==> lastPut <= now)
      modifies this
      ensures Valid() && collision == (key in old(entries))
      ensures entries == if collision then old(entries)
                         else old(entries)[key := CacheValue(value, now + validityMs)]
      ensures lastPut == if collision then old(lastPut) else now
    {
      if key in entries {
        return true;
      }
      AppendAscending(order, entries, key, CacheValue(value, now + validityMs));
      hide Ascending;
      order := order + [key];
      entries := entries[key := CacheValue(value, now + validityMs)];
      lastPut := now;
      return false;
    }

    /** Deletes from the front until an entry is still valid: that deletes every expired entry, and no other. */
    method Prune(now: int)
      requires Valid()
      modifies this
      ensures Valid() && entries == Unexpired(old(entries), now) && lastPut == old(lastPut)
      ensures order == Restrict(old(order), entries.Keys)
    {
      var k;
      k, entries := DeleteFront(order, entries, now);
      order := order[k..];
    }

    static method DeleteFront(order: seq<K>, was: map<K, CacheValue<V>>, now: int)
      returns (k: nat, entries: map<K, CacheValue<V>>)
      requires Distinct(order) && ToSet(order) == was.Keys && Ascending(order, was)
      ensures k <= |order| && entries == Unexpired(was, now)
      ensures ToSet(order[k..]) == entries.Keys && order[k..] == Restrict(order, entries.Keys)
      ensures Distinct(order[k..]) && Ascending(order[k..], entries)
    {
      FirstKey(order, was);
      hide Ascending, Unexpired, ToSet, Distinct;
      k, entries := 0, was;
      while k < |order| && entries[order[k]].validUntilMs < now
        invariant 0 <= k <= |order|
        invariant entries == was - ToSet(order[..k])
        invariant k < |order| ==> order[k] in entries
        invariant forall i :: 0 <= i < k ==> order[i] in was && was[order[i]].validUntilMs < now
      {
        entries := entries - {order[k]};
        NextKey(order, was, k);
        k := k + 1;
      }
      PrunedAtFront(order, k, was, now);
    }

    function Has(key: K): bool
      reads this
    {
      key in entries
    }

    method Get(key: K, now: int) returns (value: Option<V>)
      requires Valid()
      ensures value == if key in Unexpired(entries, now) then Some(entries[key].value) else None
    {
      if key in entries && entries[key].validUntilMs >= now {
        return Some(entries[key].value);
      }
      return None;
    }

    method Clear()
      modifies this
      ensures Valid() && entries == map[]
    {
      order, entries := [], map[];
    }
  }

  ghost predicate Ascending<K, V>(order: seq<K>, entries: map<K, CacheValue<V>>) {
    forall i, j :: 0 <= i < j < |order| && order[i] in entries && order[j] in entries ==>
      entries[order[i]].validUntilMs <= entries[order[j]].validUntilMs
  }

  lemma AppendAscending<K, V>(order: seq<K>, entries: map<K, CacheValue<V>>, key: K, v: CacheValue<V>)
    requires key !in order && ToSet(order) == entries.Keys && Ascending(order, entries)
    requires forall k :: k in entries ==> entries[k].validUntilMs <= v.validUntilMs
    ensures Ascending(order + [key], entries[key := v])
    ensures Distinct(order) ==> Distinct(order + [key])
    ensures ToSet(order + [key]) == entries.Keys + {key}
  {
  }

  lemma FirstKey<K, V>(order: seq<K>, was: map<K, CacheValue<V>>)
    requires ToSet(order) == was.Keys
    ensures was - ToSet(order[..0]) == was && (order != [] ==> order[0] in was)
  {
    assert order != [] ==> order[0] in ToSet(order);
  }

  lemma NextKey<K, V>(order: seq<K>, was: map<K, CacheValue<V>>, k: nat)
    requires k < |order| && Distinct(order) && ToSet(order) == was.Keys
    ensures was - ToSet(order[..k]) - {order[k]} == was - ToSet(order[..k + 1])
    ensures k + 1 < |order| ==> order[k + 1] in was - ToSet(order[..k + 1])
  {
    assert order[..k + 1] == order[..k] + [order[k]];
    if k + 1 < |order| {
      assert order[k + 1] in ToSet(order) && order[k + 1] !in order[..k + 1];
    }
  }

  /** When the first `k` are expired and the next is not, none of the rest is. */
  lemma PrunedAtFront<K, V>(order: seq<K>, k: nat, was: map<K, CacheValue<V>>, now: int)
    requires k <= |order| && Distinct(order) && ToSet(order) == was.Keys && Ascending(order, was)
    requires forall i :: 0 <= i < k ==> order[i] in was && was[order[i]].validUntilMs < now
    requires k < |order| ==> order[k] in was && was[order[k]].validUntilMs >= now
    ensures was - ToSet(order[..k]) == Unexpired(was, now)
    ensures ToSet(order[k..]) == Unexpired(was, now).Keys
    ensures order[k..] == Restrict(order, Unexpired(was, now).Keys)
    ensures Distinct(order[k..]) && Ascending(order[k..], Unexpired(was, now))
  {
    forall i | k <= i < |order| ensures order[i] in was && was[order[i]].validUntilMs >= now {
      assert order[i] in ToSet(order);
    }
    hide Ascending;
    var left := Unexpired(was, now);
    assert forall x :: x in order[..k] ==> x in was && x !in left;
    assert forall x :: x in order[k..] ==> x in left;
    SplitKeys(order, k, was, left);
    AscendingTail(order, k, was, left);
  }

  lemma SplitKeys<K, V>(order: seq<K>, k: nat, was: map<K, V>, left: map<K, V>)
    requires k <= |order| && ToSet(order) == was.Keys && left.Keys <= was.Keys
    requires forall x :: x in left ==> left[x] == was[x]
    requires (forall x :: x in order[..k] ==> x !in left) && (forall x :: x in order[k..] ==> x in left)
    ensures was - ToSet(order[..k]) == left && ToSet(order[k..]) == left.Keys
    ensures order[k..] == Restrict(order, left.Keys)
  {
    assert order == order[..k] + order[k..];
    RestrictConcat(order[..k], order[k..], left.Keys);
    RestrictNone(order[..k], left.Keys);
    RestrictAll(order[k..], left.Keys);
    hide Restrict;
    forall x | x in was ensures x in order[..k] || x in order[k..] {
      assert x in ToSet(order) && x in order[..k] + order[k..];
    }
  }

  lemma AscendingTail<K, V>(order: seq<K>, k: nat, was: map<K, CacheValue<V>>, left: map<K, CacheValue<V>>)
    requires k <= |order| && Ascending(order, was) && Distinct(order)
    requires forall x :: x in left ==> x in was && left[x] == was[x]
    ensures Distinct(order[k..]) && Ascending(order[k..], left)
  {
  }
}
