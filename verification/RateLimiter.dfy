/**
  The fixed-window limiter in front of the unauthenticated endpoints: one
  counter per key, installed by the first hit with a lifetime of one window.
 */
module RateLimiter {
  import opened Wrappers
  import opened Recency
  import opened TtlStore

  type Counts<!K> = Contents<K, int>

  /** The settings of a limiter. */
  datatype Limits = Limits(capacity: nat, limit: int, window: int) {
    predicate Sane() { capacity >= 1 && window >= 1 }
  }

  /** One more hit on an entry, whose expiry stays where it was. */
  function Counted<K(==)>(c: Counts<K>, key: K): Counts<K>
    requires key in c.entries
  {
    c.(entries := c.entries[key := Entry(c.entries[key].value + 1, c.entries[key].expiresAt)])
  }

  /** One hit: the verdict, and the counters after it. */
  function OnHit<K(==)>(c: Counts<K>, l: Limits, key: K, now: int): (bool, Counts<K>)
    requires l.Sane()
  {
    if Live(c, key, now) then
      (c.entries[key].value + 1 <= l.limit, Counted(Touch(c, key), key))
    else
      (true, Put(c, l.capacity, key, Entry(1, now + l.window)))
  }

  class Counter {
    var n: int

    constructor (n: int)
      ensures this.n == n
    {
      this.n := n;
    }
  }

  class RateLimiter {
    const c: Store<string, Counter>
    const limits: Limits
    /** The counts as values; Valid ties them to the store and its counters. */
    ghost var counts: Counts<string>
    /** Every counter handed out so far, with the key it was made for. */
    ghost var owner: map<Counter, string>

    ghost function Repr(): set<object>
      reads this
    {
      {this, c} + owner.Keys
    }

    /** No two keys share a counter, and each counter holds its key's count. */
    ghost predicate Valid()
      reads Repr()
    {
      && limits.Sane() && c.capacity == limits.capacity
      && counts.order == c.order && counts.entries.Keys == c.entries.Keys
      && forall k :: k in c.entries ==>
           && c.entries[k].value in owner && owner[c.entries[k].value] == k
           && counts.entries[k] == Entry(c.entries[k].value.n, c.entries[k].expiresAt)
    }

    constructor (limits: Limits)
      requires limits.Sane()
      ensures Valid() && fresh(this) && fresh(c) && owner == map[]
      ensures counts == Contents(map[], []) && this.limits == limits
    {
      this.limits := limits;
      c := new Store(limits.capacity);
      counts := Contents(map[], []);
      owner := map[];
    }

    /** Counting in place: the entry is reached through the shared counter alone. */
    method Increment(key: string, counter: Counter)
      requires Valid() && key in c.entries && c.entries[key].value == counter
      modifies this`counts, counter
      ensures Valid()
      ensures counter.n == old(counter.n) + 1
      ensures counts == Counted(old(counts), key)
    {
      counter.n := counter.n + 1;
      counts := Counted(counts, key);
    }

    method Install(key: string, now: int)
      requires Valid()
      modifies this, c
      ensures Valid() && fresh(owner.Keys - old(owner.Keys))
      ensures counts == Put(old(counts), limits.capacity, key, Entry(1, now + limits.window))
    {
      hide Put, Evicts;
      ghost var stored := c.State();
      var counter := new Counter(1);
      c.Set(key, counter, now + limits.window);
      PutAlike(stored, counts, limits.capacity, key, Entry(counter, now + limits.window), Entry(1,
                                                                                                now + limits.window));
      owner := owner[counter := key];
      counts := Put(counts, limits.capacity, key, Entry(1, now + limits.window));
    }

    method Allow(key: string, now: int) returns (allowed: bool)
      requires Valid()
      modifies Repr()
      ensures Valid() && fresh(owner.Keys - old(owner.Keys))
      ensures (allowed, counts) == OnHit(old(counts), limits, key, now)
    {
      var item := c.Get(key, now);
      if item.Some? {
        var counter := item.value;
        counts := Touch(counts, key);
        Increment(key, counter);
        return counter.n <= limits.limit;
      }
      Install(key, now);
      allowed := true;
    }
  }

  // ---- histories of hits -----------------------------------------------------------

  datatype Hit<+K> = Hit(key: K, now: int)

  /** The counters after the first `n` hits, starting from none. */
  function AfterHits<K(==)>(l: Limits, hits: seq<Hit<K>>, n: nat): Counts<K>
    requires l.Sane() && n <= |hits|
  {
    if n == 0 then Contents(map[], [])
    else OnHit(AfterHits(l, hits, n - 1), l, hits[n - 1].key, hits[n - 1].now).1
  }

  /** The verdict on the i-th hit. */
  predicate Allowed<K(==)>(l: Limits, hits: seq<Hit<K>>, i: nat)
    requires l.Sane() && i < |hits|
  {
    OnHit(AfterHits(l, hits, i), l, hits[i].key, hits[i].now).0
  }

  lemma HitUses<K(!new)>(c: Counts<K>, l: Limits, hit: Hit<K>)
    requires l.Sane()
    ensures Uses(c, OnHit(c, l, hit.key, hit.now).1, l.capacity, hit.key)
  {
    if Live(c, hit.key, hit.now) {
      TouchUses(c, l.capacity, hit.key);
    } else {
      PutUses(c, l.capacity, hit.key, Entry(1, hit.now + l.window));
    }
  }

  /** A limiter never holds more counters than its capacity. */
  lemma {:induction false} HitsConsistent<K(!new)>(l: Limits, hits: seq<Hit<K>>, n: nat)
    requires l.Sane() && n <= |hits|
    ensures Consistent(AfterHits(l, hits, n), l.capacity)
  {
    if n == 0 {
    } else {
      HitsConsistent(l, hits, n - 1);
      HitUses(AfterHits(l, hits, n - 1), l, hits[n - 1]);
      UsesConsistent(AfterHits(l, hits, n - 1), AfterHits(l, hits, n), l.capacity, hits[n - 1].key);
    }
  }

  // ---- windows, without reference to the store -----------------------------------------

  /** The latest hit on `key` before position `i`. */
  function LatestBefore<K(==)>(hits: seq<Hit<K>>, key: K, i: nat): (r: Option<nat>)
    requires i <= |hits|
    ensures r.Some? ==> r.value < i && hits[r.value].key == key
    ensures forall j :: (if r.Some? then r.value + 1 else 0) <= j < i ==> hits[j].key != key
  {
    if i == 0 then None
    else if hits[i - 1].key == key then Some(i - 1)
    else LatestBefore(hits, key, i - 1)
  }

  /** The keys other than `key` that are hit strictly between two positions. */
  function Between<K(==)>(hits: seq<Hit<K>>, key: K, p: nat, i: nat): set<K>
    requires i <= |hits|
  {
    set n | p < n < i && hits[n].key != key :: hits[n].key
  }

  /** Between a hit and the one before it on the same key, as many other keys came as there are counters. */
  predicate Crowded<K(==)>(l: Limits, hits: seq<Hit<K>>, p: nat, i: nat)
    requires p < i < |hits|
  {
    |Between(hits, hits[i].key, p, i)| >= l.capacity
  }

  /**
    The hit that opened the window the i-th hit falls in. A window lasts a fixed
    time, and ends early if its key is crowded out.
   */
  function Opener<K(==)>(l: Limits, hits: seq<Hit<K>>, i: nat): (o: nat)
    requires i < |hits|
    ensures o <= i && hits[o].key == hits[i].key
  {
    var previous := LatestBefore(hits, hits[i].key, i);
    if previous.None? then i
    else
      var o := Opener(l, hits, previous.value);
      if hits[i].now <= hits[o].now + l.window && !Crowded(l, hits, previous.value, i) then o else i
  }

  /** The i-th hit comes in a window that is not over, and opens a new one for being crowded out. */
  predicate ResetEarly<K(==)>(l: Limits, hits: seq<Hit<K>>, i: nat)
    requires i < |hits|
  {
    var previous := LatestBefore(hits, hits[i].key, i);
    && previous.Some?
    && hits[i].now <= hits[Opener(l, hits, previous.value)].now + l.window
    && Crowded(l, hits, previous.value, i)
  }

  /** How many hits on `key` there are at positions from `o` up to and including `i`. */
  function Rank<K(==)>(hits: seq<Hit<K>>, key: K, o: nat, i: nat): nat
    requires i < |hits|
    decreases i
  {
    if i < o then 0
    else (if hits[i].key == key then 1 else 0) + (if i == 0 then 0 else Rank(hits, key, o, i - 1))
  }

  lemma {:induction false} RankSkips<K>(hits: seq<Hit<K>>, key: K, o: nat, p: nat, i: nat)
    requires o <= p <= i < |hits|
    requires forall j :: p < j <= i ==> hits[j].key != key
    ensures Rank(hits, key, o, i) == Rank(hits, key, o, p)
    decreases i
  {
    if i == p {
    } else {
      RankSkips(hits, key, o, p, i - 1);
    }
  }

  lemma RankAtOpening<K>(hits: seq<Hit<K>>, i: nat)
    requires i < |hits|
    ensures Rank(hits, hits[i].key, i, i) == 1
  {
    assert i > 0 ==> Rank(hits, hits[i].key, i, i - 1) == 0;
  }

  lemma RankStep<K>(hits: seq<Hit<K>>, key: K, o: nat, i: nat)
    requires o < i < |hits| && hits[i].key == key
    ensures Rank(hits, key, o, i) == 1 + Rank(hits, key, o, i - 1)
  {
  }

  lemma RankIsPositive<K>(hits: seq<Hit<K>>, key: K, o: nat, i: nat)
    requires o <= i < |hits| && hits[i].key == key
    ensures Rank(hits, key, o, i) >= 1
  {
  }

  /** What the counters hold for `key` after the first `n` hits, told from the hits alone. */
  ghost predicate Tracks<K(!new)>(l: Limits, hits: seq<Hit<K>>, n: nat, key: K)
    requires l.Sane() && n <= |hits|
  {
    var c := AfterHits(l, hits, n);
    match LatestBefore(hits, key, n)
    case None => key !in c.entries
    case Some(p) =>
      var o, others := Opener(l, hits, p), Between(hits, key, p, n);
      && (key in c.entries <==> |others| < l.capacity)
      && (key in c.entries ==> && Ahead(c.order, key) == others
                               && c.entries[key] == Entry(Rank(hits, key, o, p), hits[o].now + l.window))
  }

  /** A hit either joins the window of the previous hit on its key or opens one. */
  lemma RankOfHit<K>(l: Limits, hits: seq<Hit<K>>, i: nat)
    requires i < |hits|
    ensures var key, o := hits[i].key, Opener(l, hits, i);
            match LatestBefore(hits, key, i)
            case None => o == i && Rank(hits, key, o, i) == 1
            case Some(p) =>
              var before := Opener(l, hits, p);
              if hits[i].now <= hits[before].now + l.window && !Crowded(l, hits, p, i) then
                o == before && Rank(hits, key, o, i) == Rank(hits, key, before, p) + 1
                && Rank(hits, key, before, p) >= 1
              else o == i && Rank(hits, key, o, i) == 1
  {
    hide Crowded, LatestBefore, Rank;
    var key := hits[i].key;
    RankAtOpening(hits, i);
    var previous := LatestBefore(hits, key, i);
    if previous.Some? {
      RankStep(hits, key, Opener(l, hits, previous.value), i);
      RankSkips(hits, key, Opener(l, hits, previous.value), previous.value, i - 1);
      RankIsPositive(hits, key, Opener(l, hits, previous.value), previous.value);
    }
  }

  lemma OthersGrow<K>(hits: seq<Hit<K>>, key: K, p: nat, n: nat)
    requires p < n < |hits| && hits[n].key != key
    ensures Between(hits, key, p, n + 1) == Between(hits, key, p, n) + {hits[n].key}
  {
  }

  lemma OtherHitTracks<K(!new)>(l: Limits, hits: seq<Hit<K>>, n: nat, key: K)
    requires l.Sane() && n < |hits| && hits[n].key != key
    requires Tracks(l, hits, n, key)
    ensures Tracks(l, hits, n + 1, key)
  {
    hide OnHit, Consistent, Ahead, Uses, Between, Opener, Rank;
    var c, d, hit := AfterHits(l, hits, n), AfterHits(l, hits, n + 1), hits[n];
    HitsConsistent(l, hits, n);
    HitUses(c, l, hit);
    assert LatestBefore(hits, key, n + 1) == LatestBefore(hits, key, n);
    match LatestBefore(hits, key, n) {
      case None => StaysOut(c, d, l.capacity, key, hit.key);
      case Some(p) =>
        OthersGrow(hits, key, p, n);
        OthersPushOut(c, d, l.capacity, key, hit.key, Between(hits, key, p, n));
    }
  }

  lemma LatestIsOwn<K>(hits: seq<Hit<K>>, n: nat)
    requires n < |hits|
    ensures LatestBefore(hits, hits[n].key, n + 1) == Some(n) && Between(hits, hits[n].key, n, n + 1) == {}
  {
  }

  lemma OwnHitTracks<K(!new)>(l: Limits, hits: seq<Hit<K>>, n: nat)
    requires l.Sane() && n < |hits|
    requires Tracks(l, hits, n, hits[n].key)
    ensures Tracks(l, hits, n + 1, hits[n].key)
  {
    hide Opener, Rank, LatestBefore, Between;
    RankOfHit(l, hits, n);
    LatestIsOwn(hits, n);
    OwnHit(AfterHits(l, hits, n), l, hits[n]);
  }

  lemma OwnHit<K>(c: Counts<K>, l: Limits, hit: Hit<K>)
    requires l.Sane()
    ensures var d := OnHit(c, l, hit.key, hit.now).1;
            && hit.key in d.entries && Ahead(d.order, hit.key) == {}
            && d.entries[hit.key] == if Live(c, hit.key, hit.now)
                 then Entry(c.entries[hit.key].value + 1, c.entries[hit.key].expiresAt) else Entry(1,
                                                                                                   hit.now + l.window)
  {
  }

  /** Whatever the history, the store holds what the windows say. */
  lemma {:induction false} CountersTrackHits<K(!new)>(l: Limits, hits: seq<Hit<K>>, n: nat, key: K)
    requires l.Sane() && n <= |hits|
    ensures Tracks(l, hits, n, key)
    decreases n
  {
    if n == 0 {
    } else {
      hide *;
      CountersTrackHits(l, hits, n - 1, key);
      if hits[n - 1].key == key {
        OwnHitTracks(l, hits, n - 1);
      } else {
        OtherHitTracks(l, hits, n - 1, key);
      }
    }
  }

  /**
    Exactly what a limiter allows, for every history: the n-th hit of a window
    iff n is within the limit, and the first of one always, even by a limit
    below one.
   */
  lemma AllowedIffWithinLimit<K(!new)>(l: Limits, hits: seq<Hit<K>>, i: nat)
    requires l.Sane() && i < |hits|
    ensures var n := Rank(hits, hits[i].key, Opener(l, hits, i), i);
            Allowed(l, hits, i) <==> n == 1 || n <= l.limit
  {
    CountersTrackHits(l, hits, i, hits[i].key);
    RankOfHit(l, hits, i);
  }

  /** One counter, limit one: a second hit is refused, unless another key's hit came in between. */
  lemma CrowdedOutByAnother(a: string, b: string, window: int, now: int)
    requires a != b && window >= 1
    ensures var l := Limits(1, 1, window);
            && !Allowed(l, [Hit(a, now), Hit(a, now)], 1)
            && Allowed(l, [Hit(a, now), Hit(b, now), Hit(a, now)], 2)
  {
    var l, twice, thrice := Limits(1, 1, window), [Hit(a, now), Hit(a, now)], [Hit(a, now), Hit(b, now), Hit(a, now)];
    AllowedIffWithinLimit(l, twice, 1);
    AllowedIffWithinLimit(l, thrice, 2);
    assert LatestBefore(twice, a, 1) == Some(0) && Between(twice, a, 0, 1) == {};
    assert LatestBefore(thrice, a, 2) == Some(0) && thrice[1].key in Between(thrice, a, 0, 2);
    RankOfHit(l, twice, 1);
    RankOfHit(l, thrice, 2);
  }

  // ---- the rate over any interval ---------------------------------------------------------

  /** The hits on `key` allowed at positions i, ..., j - 1. */
  function AllowedCount<K(==)>(l: Limits, hits: seq<Hit<K>>, key: K, i: nat, j: nat): nat
    requires l.Sane() && j <= |hits|
    decreases j
  {
    if j <= i then 0
    else AllowedCount(l, hits, key, i, j - 1)
         + (if hits[j - 1].key == key && Allowed(l, hits, j - 1) then 1 else 0)
  }

  /** The windows of `key` that are opened early at positions i, ..., j - 1. */
  function EarlyResets<K(==)>(l: Limits, hits: seq<Hit<K>>, key: K, i: nat, j: nat): nat
    requires j <= |hits|
    decreases j
  {
    if j <= i then 0
    else EarlyResets(l, hits, key, i, j - 1)
         + (if hits[j - 1].key == key && ResetEarly(l, hits, j - 1) then 1 else 0)
  }

  function Max(a: int, b: int): int { if a >= b then a else b }

  /** The most hits that windows opening within a span of the given length can let through. */
  function WindowHits(l: Limits, span: int): nat
    requires l.Sane()
    decreases span
  {
    if span < 0 then 0 else Max(l.limit, 1) + WindowHits(l, span - l.window - 1)
  }

  /**
    The most hits on `key` that can still be allowed after the first `n`, from
    instant `from` through `to`, if no window is opened early.
   */
  function Budget<K(==)>(l: Limits, hits: seq<Hit<K>>, key: K, n: nat, from: int, to: int): nat
    requires l.Sane() && n <= |hits|
  {
    match LatestBefore(hits, key, n)
    case None => WindowHits(l, to - from)
    case Some(p) =>
      var o := Opener(l, hits, p);
      var end := hits[o].now + l.window;
      if from <= end then Max(Max(l.limit, 1) - Rank(hits, key, o, p), 0) + WindowHits(l, to - end - 1)
      else WindowHits(l, to - from)
  }

  lemma {:induction false} WindowHitsMonotone(l: Limits, short: int, long: int)
    requires l.Sane() && short <= long
    ensures WindowHits(l, short) <= WindowHits(l, long)
    decreases long
  {
    if short < 0 {
    } else {
      WindowHitsMonotone(l, short - l.window - 1, long - l.window - 1);
    }
  }

  lemma {:induction false} WindowHitsWithin(l: Limits, span: int, k: nat)
    requires l.Sane() && span < k * l.window
    ensures WindowHits(l, span) <= k * Max(l.limit, 1)
    decreases span
  {
    if span < 0 {
    } else {
      assert k * l.window == (k - 1) * l.window + l.window;
      WindowHitsWithin(l, span - l.window - 1, k - 1);
    }
  }

  /** Waiting costs nothing: a later start leaves no more to be allowed. */
  lemma BudgetShrinks<K>(l: Limits, hits: seq<Hit<K>>, key: K, n: nat, from: int, later: int, to: int)
    requires l.Sane() && n <= |hits| && from <= later <= to
    ensures Budget(l, hits, key, n, later, to) <= Budget(l, hits, key, n, from, to)
  {
    match LatestBefore(hits, key, n) {
      case None => WindowHitsMonotone(l, to - later, to - from);
      case Some(p) =>
        var end := hits[Opener(l, hits, p)].now + l.window;
        WindowHitsMonotone(l, to - later, if from <= end < later then to - end - 1 else to - from);
    }
  }

  /** One hit is paid for out of the budget, or, when it opens a window early, out of a whole new limit. */
  lemma HitIsPaid<K(!new)>(l: Limits, hits: seq<Hit<K>>, i: nat, from: int, to: int)
    requires l.Sane() && i < |hits| && from <= hits[i].now <= to
    requires forall a :: 0 <= a < i ==> hits[a].now <= hits[i].now
    ensures var key := hits[i].key;
            (if Allowed(l, hits, i) then 1 else 0) + Budget(l, hits, key, i + 1, hits[i].now, to)
              <= Budget(l, hits, key, i, from, to) + (if ResetEarly(l, hits, i) then Max(l.limit, 1) else 0)
  {
    hide Allowed, Between;
    var key, now := hits[i].key, hits[i].now;
    AllowedIffWithinLimit(l, hits, i);
    RankOfHit(l, hits, i);
    assert LatestBefore(hits, key, i + 1) == Some(i);
    BudgetShrinks(l, hits, key, i, from, now, to);
    match LatestBefore(hits, key, i) {
      case None =>
      case Some(p) =>
        var end := hits[Opener(l, hits, p)].now + l.window;
        if now <= end && Crowded(l, hits, p, i) {
          WindowHitsMonotone(l, to - now - l.window - 1, to - end - 1);
        }
    }
  }

  /** The instant of the last hit before position `j`, `from` if there is none since `i`. */
  function Reached<K>(hits: seq<Hit<K>>, i: nat, j: nat, from: int): int
    requires j <= |hits|
  {
    if i < j then hits[j - 1].now else from
  }

  /** A whole limit for each window opened early. */
  function Owed<K(==)>(l: Limits, hits: seq<Hit<K>>, key: K, i: nat, j: nat): nat
    requires j <= |hits|
  {
    Max(l.limit, 1) * EarlyResets(l, hits, key, i, j)
  }

  /** Allowed hits and what is left never exceed the budget and what is owed for early windows. */
  ghost predicate Paid<K(!new)>(l: Limits, hits: seq<Hit<K>>, key: K, i: nat, j: nat, from: int, to: int)
    requires l.Sane() && i <= j <= |hits|
  {
    AllowedCount(l, hits, key, i, j) + Budget(l, hits, key, j, Reached(hits, i, j, from), to)
      <= Budget(l, hits, key, i, from, to) + Owed(l, hits, key, i, j)
  }

  lemma {:induction false} AllowedHitsArePaid<K(!new)>(l: Limits, hits: seq<Hit<K>>, key: K,
                                                    i: nat, j: nat, from: int, to: int)
    requires l.Sane() && i <= j <= |hits| && from <= to
    requires forall a, b :: 0 <= a <= b < j ==> hits[a].now <= hits[b].now
    requires forall n :: i <= n < j ==> from <= hits[n].now <= to
    ensures Paid(l, hits, key, i, j, from, to)
    decreases j
  {
    if i == j {
      hide Budget;
    } else {
      hide Paid;
      AllowedHitsArePaid(l, hits, key, i, j - 1, from, to);
      if hits[j - 1].key == key {
        OwnHitPaid(l, hits, i, j - 1, from, to);
      } else {
        OtherHitPaid(l, hits, key, i, j - 1, from, to);
      }
    }
  }

  lemma OwnHitPaid<K(!new)>(l: Limits, hits: seq<Hit<K>>, i: nat, n: nat, from: int, to: int)
    requires l.Sane() && i <= n < |hits| && Reached(hits, i, n, from) <= hits[n].now <= to
    requires forall a :: 0 <= a < n ==> hits[a].now <= hits[n].now
    requires Paid(l, hits, hits[n].key, i, n, from, to)
    ensures Paid(l, hits, hits[n].key, i, n + 1, from, to)
  {
    hide Allowed, Budget, ResetEarly, Max, Owed;
    HitIsPaid(l, hits, n, Reached(hits, i, n, from), to);
    OwedAddsUp(l, hits, hits[n].key, i, n + 1);
  }

  lemma OtherHitPaid<K(!new)>(l: Limits, hits: seq<Hit<K>>, key: K, i: nat, n: nat, from: int, to: int)
    requires l.Sane() && i <= n < |hits| && hits[n].key != key && Reached(hits, i, n, from) <= hits[n].now <= to
    requires Paid(l, hits, key, i, n, from, to)
    ensures Paid(l, hits, key, i, n + 1, from, to)
  {
    hide Allowed, Budget, ResetEarly, Max, Owed;
    BudgetShrinks(l, hits, key, n, Reached(hits, i, n, from), hits[n].now, to);
    OtherHitIsFree(l, hits, key, n, hits[n].now, to);
    OwedAddsUp(l, hits, key, i, n + 1);
  }

  lemma OwedAddsUp<K>(l: Limits, hits: seq<Hit<K>>, key: K, i: nat, j: nat)
    requires i < j <= |hits|
    ensures Owed(l, hits, key, i, j) == Owed(l, hits, key, i, j - 1)
                                        + (if hits[j - 1].key == key && ResetEarly(l, hits, j - 1) then Max(l.limit,
                                                                                                            1) else 0)
  {
    var m, resets := Max(l.limit, 1), EarlyResets(l, hits, key, i, j - 1);
    assert m * (resets + 1) == m * resets + m;
  }

  lemma OtherHitIsFree<K>(l: Limits, hits: seq<Hit<K>>, key: K, i: nat, from: int, to: int)
    requires l.Sane() && i < |hits| && hits[i].key != key
    ensures Budget(l, hits, key, i + 1, from, to) == Budget(l, hits, key, i, from, to)
  {
    assert LatestBefore(hits, key, i + 1) == LatestBefore(hits, key, i);
  }

  /**
    No interval of k windows lets more than (k + 1) times the limit through for
    one key, and as much again for each window that was opened early in it.
   */
  lemma RateBound<K(!new)>(l: Limits, hits: seq<Hit<K>>, key: K, i: nat, j: nat, from: int, to: int, k: nat)
    requires l.Sane() && i <= j <= |hits| && from <= to <= from + k * l.window
    requires forall a, b :: 0 <= a <= b < j ==> hits[a].now <= hits[b].now
    requires forall n :: i <= n < j ==> from <= hits[n].now <= to
    ensures AllowedCount(l, hits, key, i, j) <= (k + 1 + EarlyResets(l, hits, key, i, j)) * Max(l.limit, 1)
  {
    hide Budget, EarlyResets, AllowedCount, Max;
    AllowedHitsArePaid(l, hits, key, i, j, from, to);
    BudgetWithin(l, hits, key, i, from, to, k);
    Distribute(k + 1, EarlyResets(l, hits, key, i, j), Max(l.limit, 1));
  }

  lemma Distribute(a: int, b: int, m: int)
    ensures (a + b) * m == a * m + m * b
  {
  }

  lemma BudgetWithin<K>(l: Limits, hits: seq<Hit<K>>, key: K, n: nat, from: int, to: int, k: nat)
    requires l.Sane() && n <= |hits| && from <= to <= from + k * l.window
    ensures Budget(l, hits, key, n, from, to) <= (k + 1) * Max(l.limit, 1)
  {
    var m := Max(l.limit, 1);
    assert (k + 1) * m == k * m + m;
    WindowHitsWithin(l, to - from - l.window - 1, k);
    match LatestBefore(hits, key, n) {
      case None =>
      case Some(p) =>
        var end := hits[Opener(l, hits, p)].now + l.window;
        if from <= end {
          WindowHitsWithin(l, to - end - 1, k);
        }
    }
  }

  /** No window is opened early where fewer other keys than there are counters come between hits on the key. */
  lemma {:induction false} UncrowdedHasNoResets<K>(l: Limits, hits: seq<Hit<K>>, key: K, i: nat, j: nat)
    requires j <= |hits|
    requires forall n :: i <= n < j && hits[n].key == key && LatestBefore(hits, key, n).Some?
               ==> !Crowded(l, hits, LatestBefore(hits, key, n).value, n)
    ensures EarlyResets(l, hits, key, i, j) == 0
    decreases j
  {
    if j <= i {
    } else {
      hide Crowded;
      UncrowdedHasNoResets(l, hits, key, i, j - 1);
    }
  }
}
