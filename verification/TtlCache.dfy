/** A bounded cache whose entries expire, with its keys in the order of their last insertion. */
module TtlCache {
  import opened Words

  datatype Entry<V> = Entry(value: V, insertedAt: nat)

  /** One call of insert. */
  datatype Insertion<K, V> = Insertion(key: K, value: V, at: nat)

  /** The keys other than one, in their order. */
  function Without<K(==, !new)>(order: seq<K>, key: K): (r: seq<K>)
    ensures forall k :: k in r <==> k in order && k != key
    ensures |r| <= |order|
  {
    if order == [] then []
    else
      var last := order[|order| - 1];
      Without(order[..|order| - 1], key) + if last == key then [] else [last]
  }

  /** The last insertion of a key. */
  ghost function LastInsert<K, V>(history: seq<Insertion<K, V>>, key: K): Option<Insertion<K, V>> {
    if history == [] then None
    else if history[|history| - 1].key == key then Some(history[|history| - 1])
    else LastInsert(history[..|history| - 1], key)
  }

  lemma LastInsertMore<K(!new), V>(history: seq<Insertion<K, V>>, next: Insertion<K, V>, key: K)
    ensures LastInsert(history + [next], key) == if next.key == key then Some(next) else LastInsert(history, key)
  {
    assert (history + [next])[..|history|] == history;
  }

  ghost predicate Earlier<K(!new), V>(a: K, b: K, entries: map<K, Entry<V>>) {
    a != b && a in entries && b in entries && entries[a].insertedAt <= entries[b].insertedAt
  }

  ghost predicate Ordered<K(!new), V>(order: seq<K>, entries: map<K, Entry<V>>) {
    forall i, j :: 0 <= i < j < |order| ==> Earlier(order[i], order[j], entries)
  }

  /** The keys are listed once each, oldest insertion first. */
  ghost predicate Listed<K(!new), V>(order: seq<K>, entries: map<K, Entry<V>>) {
    (forall k :: k in order <==> k in entries) && Ordered(order, entries)
  }

  /** Every entry is the last insertion of its key. */
  ghost predicate Recorded<K(!new), V>(entries: map<K, Entry<V>>, history: seq<Insertion<K, V>>) {
    forall k :: k in entries ==> LastInsert(history, k) == Some(Insertion(k, entries[k].value, entries[k].insertedAt))
  }

  lemma {:induction false} WithoutKeepsOrdered<K(!new), V>(order: seq<K>, entries: map<K, Entry<V>>, key: K)
    requires Ordered(order, entries)
    ensures Ordered(Without(order, key), entries - {key})
    ensures |order| >= 1 && key in order ==> |Without(order, key)| == |order| - 1
    ensures key !in order ==> Without(order, key) == order
  {
    if order != [] {
      var front, last := order[..|order| - 1], order[|order| - 1];
      assert order == front + [last];
      WithoutKeepsOrdered(front, entries, key);
      forall k | k in front
        ensures Earlier(k, last, entries)
      {
        var i :| 0 <= i < |front| && front[i] == k;
        assert Earlier(order[i], order[|order| - 1], entries);
      }
      var kept := Without(front, key);
      if last != key {
        forall i, j | 0 <= i < j < |kept + [last]|
          ensures Earlier((kept + [last])[i], (kept + [last])[j], entries - {key})
        {
          if j == |kept| {
            assert kept[i] in kept;
          } else {
            assert Earlier(kept[i], kept[j], entries - {key});
          }
        }
      }
    }
  }

  lemma WithoutKeepsListed<K(!new), V>(order: seq<K>, entries: map<K, Entry<V>>, key: K)
    requires Listed(order, entries)
    ensures Listed(Without(order, key), entries - {key})
    ensures |Without(order, key)| == if key in order then |order| - 1 else |order|
    ensures key !in order ==> Without(order, key) == order
  {
    hide Without;
    WithoutKeepsOrdered(order, entries, key);
  }

  class TtlCache<K(==, !new), V(!new)> {
    const ttl: nat
    const capacity: nat
    var entries: map<K, Entry<V>>
    var insertionOrder: seq<K>
    ghost var history: seq<Insertion<K, V>>

    ghost predicate Valid()
      reads this
    {
      && capacity >= 1 && |insertionOrder| <= capacity && |entries| == |insertionOrder|
      && Listed(insertionOrder, entries) && Recorded(entries, history)
    }

    /** Nothing was inserted later than now. */
    ghost predicate NotAfter(now: nat)
      reads this
    {
      forall k :: k in entries ==> entries[k].insertedAt <= now
    }

    constructor (ttl: nat, capacity: nat)
      ensures Valid() && entries == map[] && history == [] && this.ttl == ttl
      ensures this.capacity == if capacity >= 1 then capacity else 1
    {
      this.ttl, this.capacity := ttl, if capacity >= 1 then capacity else 1;
      entries, insertionOrder, history := map[], [], [];
    }

    /** A hit is the latest insertion of the key, and fresh; an expired entry is dropped. */
    method Get(key: K, now: nat) returns (r: Option<V>)
      requires Valid() && NotAfter(now)
      modifies this
      ensures Valid() && NotAfter(now) && history == old(history)
      ensures r.Some? <==> key in old(entries) && now - old(entries)[key].insertedAt < ttl
      ensures r.Some? ==> LastInsert(history, key).Some? && LastInsert(history, key).value.value == r.value
                          && now - LastInsert(history, key).value.at < ttl
      ensures entries == if r.Some? then old(entries) else old(entries) - {key}
      ensures insertionOrder == if r.Some? then old(insertionOrder) else Without(old(insertionOrder), key)
    {
      hide Without, LastInsert, Ordered;
      WithoutKeepsListed(insertionOrder, entries, key);
      hide Listed;
      assert key !in entries ==> entries - {key} == entries;
      assert (entries - {key}).Keys == entries.Keys - {key};
      if key !in entries { return None; }
      if now - entries[key].insertedAt >= ttl {
        entries := entries - {key};
        insertionOrder := Without(insertionOrder, key);
        return None;
      }
      r := Some(entries[key].value);
    }

    /** Keeps the new value; a new key in a full cache pushes the oldest one out. */
    method Insert(key: K, value: V, now: nat)
      requires Valid() && NotAfter(now)
      modifies this
      ensures Valid() && NotAfter(now) && history == old(history) + [Insertion(key, value, now)]
      ensures key in entries && entries[key] == Entry(value, now)
      ensures entries == KeptEntries(old(insertionOrder), old(entries), key, capacity)[key := Entry(value, now)]
      ensures insertionOrder == KeptOrder(old(insertionOrder), old(entries), key, capacity) + [key]
    {
      hide Without, LastInsert, Listed, Recorded;
      InsertedIsListed(insertionOrder, entries, key, value, now, capacity, history);
      if key in entries {
        insertionOrder := Without(insertionOrder, key);
      } else if |entries| == capacity && insertionOrder != [] {
        entries := entries - {insertionOrder[0]};
        insertionOrder := insertionOrder[1..];
      }
      insertionOrder := insertionOrder + [key];
      entries := entries[key := Entry(value, now)];
      history := history + [Insertion(key, value, now)];
    }
  }

  /** What an insertion leaves of the entries before it. */
  ghost function KeptEntries<K(!new), V>(order: seq<K>, entries: map<K, Entry<V>>, key: K, capacity: nat)
    : map<K, Entry<V>>
  {
    if key !in entries && |entries| == capacity && order != [] then entries - {order[0]} else entries
  }

  ghost function KeptOrder<K(!new), V>(order: seq<K>, entries: map<K, Entry<V>>, key: K, capacity: nat): seq<K> {
    if key in entries then Without(order, key)
    else if |entries| == capacity && order != [] then order[1..]
    else order
  }

  /** Making room for a key leaves the others listed, and one place free. */
  lemma RoomIsListed<K(!new), V>(order: seq<K>, entries: map<K, Entry<V>>, key: K, capacity: nat)
    requires Listed(order, entries) && |entries| == |order| <= capacity && capacity >= 1
    ensures var room, kept := KeptOrder(order, entries, key, capacity), KeptEntries(order, entries, key, capacity);
      && Listed(room, kept - {key}) && key !in room && |room| == |kept - {key}| < capacity
      && forall k :: k in kept ==> k in entries
  {
    hide Without;
    if key in entries {
      WithoutKeepsListed(order, entries, key);
      assert (entries - {key}).Keys == entries.Keys - {key};
    } else {
      if |entries| == capacity && order != [] { DropFirst(order, entries); }
      var kept := KeptEntries(order, entries, key, capacity);
      assert kept - {key} == kept;
    }
  }

  lemma RecordedMore<K(!new), V>(entries: map<K, Entry<V>>, kept: map<K, Entry<V>>,
                                 history: seq<Insertion<K, V>>, next: Insertion<K, V>)
    requires Recorded(entries, history) && forall k :: k in kept ==> k in entries && kept[k] == entries[k]
    ensures Recorded(kept[next.key := Entry(next.value, next.at)], history + [next])
  {
    hide LastInsert;
    forall k { LastInsertMore(history, next, k); }
  }

  lemma DropFirst<K(!new), V>(order: seq<K>, entries: map<K, Entry<V>>)
    requires Listed(order, entries) && order != []
    ensures Listed(order[1..], entries - {order[0]})
    ensures |entries - {order[0]}| == |entries| - 1
  {
    assert forall k :: k in order <==> k == order[0] || k in order[1..];
    assert (entries - {order[0]}).Keys == entries.Keys - {order[0]};
  }

  /** Listing a key last, after it has been taken out. */
  lemma AppendKeepsListed<K(!new), V>(order: seq<K>, entries: map<K, Entry<V>>, key: K, value: V, now: nat)
    requires Listed(order, entries - {key}) && key !in order
    requires forall k :: k in entries ==> entries[k].insertedAt <= now
    ensures Listed(order + [key], entries[key := Entry(value, now)])
    ensures |entries[key := Entry(value, now)]| == |entries - {key}| + 1
  {
    hide Ordered;
    AppendKeepsOrdered(order, entries, key, value, now);
    var after := entries[key := Entry(value, now)];
    assert after.Keys == (entries - {key}).Keys + {key};
    assert forall k :: k in order + [key] <==> k in order || k == key;
  }

  lemma AppendKeepsOrdered<K(!new), V>(order: seq<K>, entries: map<K, Entry<V>>, key: K, value: V, now: nat)
    requires Ordered(order, entries - {key})
    requires forall k :: k in order ==> k in entries && k != key
    requires forall k :: k in entries ==> entries[k].insertedAt <= now
    ensures Ordered(order + [key], entries[key := Entry(value, now)])
  {
    var after, listed := entries[key := Entry(value, now)], order + [key];
    forall i, j | 0 <= i < j < |listed|
      ensures Earlier(listed[i], listed[j], after)
    {
      assert listed[i] == order[i] && order[i] in order;
      if j < |order| {
        assert Earlier(order[i], order[j], entries - {key});
        assert order[j] in order;
      }
    }
  }

  /** What an insertion leaves is listed and recorded, and keeps to the capacity. */
  lemma InsertedIsListed<K(!new), V>(order: seq<K>, entries: map<K, Entry<V>>, key: K, value: V, now: nat,
                                     capacity: nat, history: seq<Insertion<K, V>>)
    requires Listed(order, entries) && |entries| == |order| <= capacity && capacity >= 1
    requires Recorded(entries, history) && forall k :: k in entries ==> entries[k].insertedAt <= now
    ensures var room, kept := KeptOrder(order, entries, key, capacity), KeptEntries(order, entries, key, capacity);
      var after := kept[key := Entry(value, now)];
      && Listed(room + [key], after) && |room + [key]| == |after| <= capacity
      && Recorded(after, history + [Insertion(key, value, now)])
      && forall k :: k in after ==> after[k].insertedAt <= now
  {
    hide Without, LastInsert, Listed, Recorded;
    var room, kept := KeptOrder(order, entries, key, capacity), KeptEntries(order, entries, key, capacity);
    RoomIsListed(order, entries, key, capacity);
    RecordedMore(entries, kept, history, Insertion(key, value, now));
    AppendKeepsListed(room, kept, key, value, now);
  }
}
