/**
  The bounded store behind the replay guard, the rate limiters, the verifier
  cache and the metadata resolver: absolute expiry per entry, least-recently-used
  eviction at capacity, and no janitor, so an expired entry stays until it is
  overwritten or evicted but is never reported.
 */
module TtlStore {
  import opened Wrappers
  import opened Recency

  datatype Entry<+V> = Entry(value: V, expiresAt: int)

  /** What a store holds; `order` lists its keys, most recently used first. */
  datatype Contents<!K, +V> = Contents(entries: map<K, Entry<V>>, order: seq<K>)

  ghost predicate Consistent<K(!new), V>(c: Contents<K, V>, capacity: nat) {
    && (forall k :: k in c.entries <==> k in c.order)
    && Distinct(c.order)
    && |c.order| <= capacity
  }

  predicate Live<K(==), V>(c: Contents<K, V>, key: K, now: int) {
    key in c.entries && now <= c.entries[key].expiresAt
  }

  /** A hit: the key becomes the most recent one, its expiry is left alone. */
  function Touch<K(==), V>(c: Contents<K, V>, key: K): Contents<K, V> {
    c.(order := [key] + Without(c.order, key))
  }

  /** Whether storing under `key` would push another entry out. */
  predicate Evicts<K(==), V>(c: Contents<K, V>, capacity: nat, key: K) {
    key !in c.entries && |c.order| >= capacity
  }

  /** Storing an entry: overwrite, or insert after making room at the old end. */
  function Put<K(==), V>(c: Contents<K, V>, capacity: nat, key: K, e: Entry<V>): Contents<K, V>
    requires capacity >= 1
  {
    if Evicts(c, capacity, key) then
      Contents((c.entries - {c.order[|c.order| - 1]})[key := e], [key] + c.order[..|c.order| - 1])
    else if key in c.entries then
      Contents(c.entries[key := e], [key] + Without(c.order, key))
    else
      Contents(c.entries[key := e], [key] + c.order)
  }

  /** Two stores with the same keys, recency and expiries, whatever their values. */
  ghost predicate Alike<K, A, B>(a: Contents<K, A>, b: Contents<K, B>) {
    && a.order == b.order && a.entries.Keys == b.entries.Keys
    && forall k <- a.entries :: a.entries[k].expiresAt == b.entries[k].expiresAt
  }

  lemma PutAlike<K, A, B>(a: Contents<K, A>, b: Contents<K, B>, capacity: nat, key: K, e: Entry<A>, f: Entry<B>)
    requires capacity >= 1 && Alike(a, b) && e.expiresAt == f.expiresAt
    ensures var a', b' := Put(a, capacity, key, e), Put(b, capacity, key, f);
            && Alike(a', b') && key in a'.entries && a'.entries[key] == e && b'.entries[key] == f
            && (forall k <- a'.entries :: k != key ==>
                  k in a.entries && a'.entries[k] == a.entries[k] && b'.entries[k] == b.entries[k])
  {
  }

  // ---- using a key, by a hit or by storing -----------------------------------------------

  /** `d` is `c` after a use of `key`: that one is the most recent, the others are as they were but for a victim. */
  ghost predicate Uses<K(!new), V>(c: Contents<K, V>, d: Contents<K, V>, capacity: nat, key: K) {
    && d.entries.Keys == (if Evicts(c, capacity, key) && c.order != [] then c.entries.Keys - {c.order[|c.order| - 1]}
                          else c.entries.Keys) + {key}
    && d.order == [key] + (if key in c.entries then Without(c.order, key)
                           else if Evicts(c, capacity, key) && c.order != [] then c.order[..|c.order| - 1]
                           else c.order)
    && forall k <- d.entries :: k != key ==> k in c.entries && d.entries[k] == c.entries[k]
  }

  lemma TouchUses<K(!new), V>(c: Contents<K, V>, capacity: nat, key: K)
    requires key in c.entries
    ensures Uses(c, Touch(c, key), capacity, key)
  {
  }

  lemma PutUses<K(!new), V>(c: Contents<K, V>, capacity: nat, key: K, e: Entry<V>)
    requires capacity >= 1
    ensures Uses(c, Put(c, capacity, key, e), capacity, key)
  {
  }

  lemma UsesConsistent<K(!new), V>(c: Contents<K, V>, d: Contents<K, V>, capacity: nat, key: K)
    requires capacity >= 1 && Consistent(c, capacity) && Uses(c, d, capacity, key)
    ensures Consistent(d, capacity)
  {
    if key in c.entries {
      WithoutDistinct(c.order, key);
      WithoutMembers(c.order, key);
      PrependDistinct(key, Without(c.order, key));
    } else if Evicts(c, capacity, key) {
      var last := |c.order| - 1;
      assert c.order == c.order[..last] + [c.order[last]];
      PrependDistinct(key, c.order[..last]);
      forall k
        ensures k in d.entries <==> k in d.order
      {
        assert k in c.order <==> k in c.order[..last] || k == c.order[last];
        assert k in d.entries <==> k in d.entries.Keys;
      }
    } else {
      PrependDistinct(key, c.order);
    }
  }

  /**
    A use of another key puts that one ahead of `kept`, which stays, with its
    entry, iff those ahead of it are then still fewer than the store holds.
   */
  lemma OneOtherUse<K(!new), V>(c: Contents<K, V>, d: Contents<K, V>, capacity: nat, kept: K, key: K)
    requires capacity >= 1 && Consistent(c, capacity) && Uses(c, d, capacity, key)
    requires kept in c.entries && key != kept
    ensures kept in d.entries <==> |Ahead(c.order, kept) + {key}| < capacity
    ensures kept in d.entries ==> Ahead(d.order, kept) == Ahead(c.order, kept) + {key}
                                  && d.entries[kept] == c.entries[kept]
  {
    hide Ahead, Without, Consistent, Uses, Evicts;
    AheadAfterUse(c, d, capacity, kept, key);
    if Evicts(c, capacity, key) && c.order[|c.order| - 1] == kept {
      VictimSawAll(c, capacity, key);
    } else {
      UsesConsistent(c, d, capacity, key);
      AheadFits(d, capacity, kept);
    }
  }

  lemma VictimSawAll<K(!new), V>(c: Contents<K, V>, capacity: nat, key: K)
    requires capacity >= 1 && Consistent(c, capacity) && Evicts(c, capacity, key)
    ensures |Ahead(c.order, c.order[|c.order| - 1]) + {key}| == capacity
  {
    hide Ahead;
    AheadOfLast(c.order);
    AheadInside(c.order, c.order[|c.order| - 1]);
  }

  lemma AheadFits<K(!new), V>(c: Contents<K, V>, capacity: nat, kept: K)
    requires Consistent(c, capacity) && kept in c.entries
    ensures |Ahead(c.order, kept)| < capacity
  {
    hide Ahead;
    AheadIsShorter(c.order, kept);
  }

  lemma AheadAfterUse<K(!new), V>(c: Contents<K, V>, d: Contents<K, V>, capacity: nat, kept: K, key: K)
    requires capacity >= 1 && Consistent(c, capacity) && Uses(c, d, capacity, key)
    requires kept in c.entries && key != kept
    ensures Evicts(c, capacity, key) ==> c.order != []
    ensures if Evicts(c, capacity, key) && c.order[|c.order| - 1] == kept then kept !in d.entries
            else kept in d.entries && d.entries[kept] == c.entries[kept]
                 && Ahead(d.order, kept) == Ahead(c.order, kept) + {key}
  {
    assert kept in d.entries <==> kept in d.entries.Keys;
    if key in c.entries {
      AheadAfterMove(c.order, key, kept);
    } else if !Evicts(c, capacity, key) {
      assert d.order[1..] == c.order;
    } else if c.order[|c.order| - 1] != kept {
      AheadOfEarlier(c.order, kept);
      assert d.order[1..] == c.order[..|c.order| - 1];
    }
  }

  /** What was pushed out comes back by its own use only. */
  lemma StaysOut<K(!new), V>(c: Contents<K, V>, d: Contents<K, V>, capacity: nat, out: K, key: K)
    requires Uses(c, d, capacity, key) && out !in c.entries && key != out
    ensures out !in d.entries
  {
  }

  /**
    The invariant of all histories of uses: a key is held iff the others used
    since it last was are fewer than the store holds, and those are ahead of it.
   */
  lemma OthersPushOut<K(!new), V>(c: Contents<K, V>, d: Contents<K, V>, capacity: nat, kept: K, key: K, others: set<K>)
    requires capacity >= 1 && Consistent(c, capacity) && Uses(c, d, capacity, key) && key != kept
    requires kept in c.entries <==> |others| < capacity
    requires kept in c.entries ==> Ahead(c.order, kept) == others
    ensures kept in d.entries <==> |others + {key}| < capacity
    ensures kept in d.entries ==> kept in c.entries && Ahead(d.order, kept) == others + {key}
                                  && d.entries[kept] == c.entries[kept]
  {
    hide Consistent, Uses, Ahead, Evicts;
    Subset(others, others + {key});
    if kept in c.entries {
      OneOtherUse(c, d, capacity, kept, key);
    } else {
      StaysOut(c, d, capacity, kept, key);
    }
  }

  lemma TouchConsistent<K(!new), V>(c: Contents<K, V>, capacity: nat, key: K)
    requires Consistent(c, capacity) && key in c.entries
    ensures Consistent(Touch(c, key), capacity)
  {
    WithoutDistinct(c.order, key);
    WithoutMembers(c.order, key);
    PrependDistinct(key, Without(c.order, key));
  }

  lemma PutConsistent<K(!new), V>(c: Contents<K, V>, capacity: nat, key: K, e: Entry<V>)
    requires capacity >= 1 && Consistent(c, capacity)
    ensures Consistent(Put(c, capacity, key, e), capacity)
  {
    PutUses(c, capacity, key, e);
    UsesConsistent(c, Put(c, capacity, key, e), capacity, key);
  }

  /**
    The shared store itself. Its operations compute Touch and Put, which keep
    the contents consistent (TouchConsistent, PutConsistent); the clients above
    it differ only in values and lifetimes.
   */
  class Store<K(==), V> {
    const capacity: nat
    var entries: map<K, Entry<V>>
    var order: seq<K>

    function State(): Contents<K, V>
      reads this
    {
      Contents(entries, order)
    }

    constructor (capacity: nat)
      requires capacity >= 1
      ensures State() == Contents(map[], []) && this.capacity == capacity
    {
      this.capacity := capacity;
      entries := map[];
      order := [];
    }

    method Get(key: K, now: int) returns (hit: Option<V>)
      modifies this
      ensures hit == if old(Live(State(), key, now)) then Some(old(entries)[key].value) else None
      ensures State() == if hit.Some? then Touch(old(State()), key) else old(State())
    {
      if key !in entries || entries[key].expiresAt < now {
        return None;
      }
      order := [key] + Without(order, key);
      hit := Some(entries[key].value);
    }

    method Set(key: K, value: V, expiresAt: int)
      requires capacity >= 1
      modifies this
      ensures State() == Put(old(State()), capacity, key, Entry(value, expiresAt))
    {
      if key in entries {
        order := [key] + Without(order, key);
      } else {
        if |order| >= capacity {
          entries := entries - {order[|order| - 1]};
          order := order[..|order| - 1];
        }
        order := [key] + order;
      }
      entries := entries[key := Entry(value, expiresAt)];
    }
  }
}
