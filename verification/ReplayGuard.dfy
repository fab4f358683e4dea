/**
  The per-replica guard behind single use: it remembers identifiers that were
  presented, each for a time of its own, in a bounded store.
 */
module ReplayGuard {
  import opened Recency
  import opened TtlStore

  type Guard<!K> = Contents<K, ()>

  /** One call: whether the identifier was known, and what the guard holds then. */
  function Seen<K(==)>(c: Guard<K>, capacity: nat, jti: K, ttl: int, now: int): (bool, Guard<K>)
    requires capacity >= 1
  {
    if Live(c, jti, now) then (true, Touch(c, jti))
    else (false, Put(c, capacity, jti, Entry((), now + ttl)))
  }

  class MemoryReplayGuard {
    const c: Store<string, ()>

    predicate Valid() { c.capacity >= 1 }

    constructor (maxSize: nat)
      requires maxSize >= 1
      ensures Valid() && fresh(c) && c.State() == Contents(map[], []) && c.capacity == maxSize
    {
      c := new Store(maxSize);
    }

    method SeenBefore(jti: string, ttl: int, now: int) returns (seen: bool)
      requires Valid()
      modifies c
      ensures Valid()
      ensures (seen, c.State()) == Seen(old(c.State()), c.capacity, jti, ttl, now)
    {
      var item := c.Get(jti, now);
      if item.Some? {
        return true;
      }
      c.Set(jti, (), now + ttl);
      seen := false;
    }
  }

  // ---- histories of calls --------------------------------------------------------

  datatype Call<+K> = Call(jti: K, ttl: int, now: int)

  function AfterCalls<K(==)>(c: Guard<K>, capacity: nat, calls: seq<Call<K>>): Guard<K>
    requires capacity >= 1
  {
    if calls == [] then c
    else
      var last := calls[|calls| - 1];
      Seen(AfterCalls(c, capacity, calls[..|calls| - 1]), capacity, last.jti, last.ttl, last.now).1
  }

  /** The identifiers other than `jti` that a history presents. */
  function Others<K(==)>(calls: seq<Call<K>>, jti: K): set<K> {
    set call <- calls | call.jti != jti :: call.jti
  }

  lemma SeenConsistent<K(!new)>(c: Guard<K>, capacity: nat, call: Call<K>)
    requires capacity >= 1 && Consistent(c, capacity)
    ensures Consistent(Seen(c, capacity, call.jti, call.ttl, call.now).1, capacity)
  {
    CallUses(c, capacity, call);
    UsesConsistent(c, Seen(c, capacity, call.jti, call.ttl, call.now).1, capacity, call.jti);
  }

  /** In any history the guard stays consistent, so it never outgrows its size. */
  lemma {:induction false} NeverOutgrows<K(!new)>(c: Guard<K>, capacity: nat, calls: seq<Call<K>>)
    requires capacity >= 1 && Consistent(c, capacity)
    ensures Consistent(AfterCalls(c, capacity, calls), capacity)
    ensures |AfterCalls(c, capacity, calls).entries| <= capacity
  {
    if calls == [] {
    } else {
      var init := calls[..|calls| - 1];
      NeverOutgrows(c, capacity, init);
      SeenConsistent(AfterCalls(c, capacity, init), capacity, calls[|calls| - 1]);
    }
    var d := AfterCalls(c, capacity, calls);
    assert d.entries.Keys == (set k <- d.order);
    MembersOf(d.order);
  }

  lemma {:induction false} MembersOf<K(!new)>(keys: seq<K>)
    ensures |(set k <- keys)| <= |keys|
  {
    if keys == [] {
    } else {
      MembersOf(keys[1..]);
      assert (set k <- keys) == {keys[0]} + (set k <- keys[1..]);
    }
  }

  // ---- how long an identifier is remembered ---------------------------------------

  lemma CallUses<K(!new)>(c: Guard<K>, capacity: nat, call: Call<K>)
    requires capacity >= 1
    ensures Uses(c, Seen(c, capacity, call.jti, call.ttl, call.now).1, capacity, call.jti)
  {
    if Live(c, call.jti, call.now) {
      TouchUses(c, capacity, call.jti);
    } else {
      PutUses(c, capacity, call.jti, Entry((), call.now + call.ttl));
    }
  }

  /** One call for another identifier: OneOtherUse, for a guard. */
  lemma OneOtherCall<K(!new)>(c: Guard<K>, capacity: nat, jti: K, call: Call<K>)
    requires capacity >= 1 && Consistent(c, capacity) && jti in c.entries && call.jti != jti
    ensures var d := Seen(c, capacity, call.jti, call.ttl, call.now).1;
            && (jti in d.entries <==> |Ahead(c.order, jti) + {call.jti}| < capacity)
            && (jti in d.entries ==> Ahead(d.order, jti) == Ahead(c.order, jti) + {call.jti}
                                     && d.entries[jti] == c.entries[jti])
  {
    CallUses(c, capacity, call);
    OneOtherUse(c, Seen(c, capacity, call.jti, call.ttl, call.now).1, capacity, jti, call.jti);
  }

  /**
    Exactly how long an identifier is kept: until those presented since,
    together with those that were ahead of it, are as many as the guard holds.
    Its expiry does not move meanwhile.
   */
  lemma {:induction false} KeptExactly<K(!new)>(c: Guard<K>, capacity: nat, jti: K, calls: seq<Call<K>>)
    requires capacity >= 1 && Consistent(c, capacity) && jti in c.entries
    requires forall call <- calls :: call.jti != jti
    ensures var d, others := AfterCalls(c, capacity, calls), Ahead(c.order, jti) + Others(calls, jti);
            && (jti in d.entries <==> |others| < capacity)
            && (jti in d.entries ==> Ahead(d.order, jti) == others && d.entries[jti] == c.entries[jti])
  {
    var before := Ahead(c.order, jti);
    if calls == [] {
      AheadIsShorter(c.order, jti);
      assert before + Others(calls, jti) == before;
    } else {
      hide Ahead, Consistent, Uses, Seen;
      var init, last := calls[..|calls| - 1], calls[|calls| - 1];
      OneMoreOther(calls, jti);
      assert before + Others(calls, jti) == before + Others(init, jti) + {last.jti};
      assert forall call <- init :: call in calls;
      assert last in calls;
      KeptExactly(c, capacity, jti, init);
      NeverOutgrows(c, capacity, init);
      var d := AfterCalls(c, capacity, init);
      CallUses(d, capacity, last);
      OthersPushOut(d, AfterCalls(c, capacity, calls), capacity, jti, last.jti, before + Others(init, jti));
    }
  }

  lemma OneMoreOther<K>(calls: seq<Call<K>>, jti: K)
    requires calls != []
    ensures var init, last := calls[..|calls| - 1], calls[|calls| - 1];
            Others(calls, jti) == Others(init, jti) + (if last.jti == jti then {} else {last.jti})
  {
    assert calls == calls[..|calls| - 1] + [calls[|calls| - 1]];
  }

  /** When the entry of an identifier expires after it is presented: known ones keep their expiry. */
  function ExpiryAfter<K(==)>(c: Guard<K>, call: Call<K>): int {
    if Live(c, call.jti, call.now) then c.entries[call.jti].expiresAt else call.now + call.ttl
  }

  /**
    What a caller can rely on, exactly: an identifier presented again is
    recognised iff its entry has not expired and fewer than `capacity` other
    identifiers were presented since it last was.
   */
  lemma RememberedExactly<K(!new)>(c: Guard<K>, capacity: nat, first: Call<K>, calls: seq<Call<K>>, again: Call<K>)
    requires capacity >= 1 && Consistent(c, capacity)
    requires again.jti == first.jti && forall call <- calls :: call.jti != first.jti
    ensures var burned := Seen(c, capacity, first.jti, first.ttl, first.now).1;
            Seen(AfterCalls(burned, capacity, calls), capacity, again.jti, again.ttl, again.now).0 <==>
              again.now <= ExpiryAfter(c, first) && |Others(calls, first.jti)| < capacity
  {
    SeenConsistent(c, capacity, first);
    assert {} + Others(calls, first.jti) == Others(calls, first.jti);
    KeptExactly(Seen(c, capacity, first.jti, first.ttl, first.now).1, capacity, first.jti, calls);
  }

  /** A guard of one entry: an identifier that is still in force is forgotten for one other. */
  lemma ForgottenForAnother(a: string, b: string, ttl: int, now: int)
    requires a != b && ttl >= 0
    ensures var burned := Seen(Contents(map[], []), 1, a, ttl, now).1;
            && now <= burned.entries[a].expiresAt
            && !Seen(AfterCalls(burned, 1, [Call(b, ttl, now)]), 1, a, ttl, now).0
  {
    var none: Guard<string> := Contents(map[], []);
    RememberedExactly(none, 1, Call(a, ttl, now), [Call(b, ttl, now)], Call(a, ttl, now));
    assert Call(b, ttl, now) in [Call(b, ttl, now)];
    assert b in Others([Call(b, ttl, now)], a);
  }

  /**
    Presented again and again, an identifier outlives every history with fewer
    than `capacity` others in all, with an expiry that never moves back, and
    that does not move at all while the identifier keeps being found.
   */
  lemma {:induction false} Retained<K(!new)>(c: Guard<K>, capacity: nat, jti: K, calls: seq<Call<K>>)
    requires capacity >= 1 && Consistent(c, capacity)
    requires c.order != [] && c.order[0] == jti
    requires |Others(calls, jti)| < capacity
    requires forall call <- calls :: call.jti == jti ==> call.ttl >= 0
    ensures var d := AfterCalls(c, capacity, calls);
            && jti in d.entries
            && Ahead(d.order, jti) <= Others(calls, jti)
            && d.entries[jti].expiresAt >= c.entries[jti].expiresAt
            && ((forall call <- calls :: call.jti == jti ==> call.now <= c.entries[jti].expiresAt)
                ==> d.entries[jti].expiresAt == c.entries[jti].expiresAt)
  {
    if calls == [] {
    } else {
      var init, last := calls[..|calls| - 1], calls[|calls| - 1];
      OneMoreOther(calls, jti);
      assert forall call <- init :: call in calls;
      Subset(Others(init, jti), Others(calls, jti));
      Retained(c, capacity, jti, init);
      NeverOutgrows(c, capacity, init);
      assert last in calls;
      RetainedByCall(AfterCalls(c, capacity, init), capacity, jti, last, Others(init, jti));
    }
  }

  /** One more call keeps `jti` known unless it brings the count of others up to the size. */
  lemma RetainedByCall<K(!new)>(c: Guard<K>, capacity: nat, jti: K, call: Call<K>, others: set<K>)
    requires capacity >= 1 && Consistent(c, capacity)
    requires jti in c.entries && Ahead(c.order, jti) <= others
    requires call.jti != jti ==> |others + {call.jti}| < capacity
    ensures var d := Seen(c, capacity, call.jti, call.ttl, call.now).1;
            && jti in d.entries
            && Ahead(d.order, jti) <= others + (if call.jti == jti then {} else {call.jti})
            && d.entries[jti].expiresAt == (if call.jti == jti && !Live(c, jti, call.now)
                                            then call.now + call.ttl else c.entries[jti].expiresAt)
  {
    if call.jti != jti {
      Subset(Ahead(c.order, jti) + {call.jti}, others + {call.jti});
      OneOtherCall(c, capacity, jti, call);
    }
  }
}
