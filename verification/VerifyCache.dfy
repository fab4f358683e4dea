/**
  The memoised ID-token verifier: a success is kept until the token's own
  expiry, under the hash of the raw token; a failure is never kept.
 */
module VerifyCache {
  import opened Wrappers
  import opened Recency
  import opened TtlStore

  datatype Verified = Verified(subject: string, email: string, nonce: string, expiry: int)

  /** A verifier consulted at an instant. */
  type VerifyFunc = (string, int) -> Result<Verified>

  type Cache = Contents<string, Verified>

  /** One call: the answer, and the cache after it. */
  function Wrapped(inner: VerifyFunc, key: string -> string, c: Cache, capacity: nat, tok: string, now: int)
    : (Result<Verified>, Cache)
    requires capacity >= 1
  {
    var k := key(tok);
    if Live(c, k, now) then (Ok(c.entries[k].value), Touch(c, k))
    else
      match inner(tok, now)
      case Err(e) => (Err(e), c)
      case Ok(v) =>
        var ttl := v.expiry - now;
        (Ok(v), if ttl > 0 then Put(c, capacity, k, Entry(v, now + ttl)) else c)
  }

  class CachedVerifier {
    const inner: VerifyFunc
    const key: string -> string
    const c: Store<string, Verified>

    predicate Valid() { c.capacity >= 1 }

    constructor (inner: VerifyFunc, key: string -> string, c: Store<string, Verified>)
      requires c.capacity >= 1
      ensures Valid() && this.inner == inner && this.key == key && this.c == c
    {
      this.inner := inner;
      this.key := key;
      this.c := c;
    }

    method Verify(tok: string, now: int) returns (answer: Result<Verified>)
      requires Valid()
      modifies c
      ensures (answer, c.State()) == Wrapped(inner, key, old(c.State()), c.capacity, tok, now)
    {
      var k := key(tok);
      var item := c.Get(k, now);
      if item.Some? {
        return Ok(item.value);
      }
      answer := inner(tok, now);
      if answer.Ok? {
        var ttl := answer.value.expiry - now;
        if ttl > 0 {
          c.Set(k, answer.value, now + ttl);
        }
      }
    }
  }

  // ---- any sequence of calls, any loss of entries --------------------------------------

  /** A success stays the answer until the expiry it names. */
  ghost predicate Stable(inner: VerifyFunc) {
    forall tok, t, u :: inner(tok, t).Ok? && t <= u <= inner(tok, t).value.expiry ==> inner(tok, u) == inner(tok, t)
  }

  ghost predicate Injective(key: string -> string) {
    forall a, b :: key(a) == key(b) ==> a == b
  }

  /** Entries may also vanish between calls, in any pattern. */
  datatype Event = Call(tok: string, now: int) | Lose(key: string)

  function After(inner: VerifyFunc, key: string -> string, capacity: nat, events: seq<Event>, n: nat): Cache
    requires capacity >= 1 && n <= |events|
  {
    if n == 0 then Contents(map[], [])
    else
      var c := After(inner, key, capacity, events, n - 1);
      match events[n - 1]
      case Call(tok, now) => Wrapped(inner, key, c, capacity, tok, now).1
      case Lose(k) => Contents(c.entries - {k}, Without(c.order, k))
  }

  /** The entry under `k` is a success of the inner verifier, obtained no later than `now`. */
  ghost predicate Backed(inner: VerifyFunc, key: string -> string, c: Cache, k: string, now: int)
    requires k in c.entries
  {
    exists tok, t :: k == key(tok) && t <= now && inner(tok, t) == Ok(c.entries[k].value)
                     && c.entries[k].expiresAt == c.entries[k].value.expiry
  }

  ghost predicate AllBacked(inner: VerifyFunc, key: string -> string, c: Cache, now: int) {
    forall k :: k in c.entries ==> Backed(inner, key, c, k, now)
  }

  lemma BackedLater(inner: VerifyFunc, key: string -> string, c: Cache, now: int, later: int)
    requires AllBacked(inner, key, c, now) && now <= later
    ensures AllBacked(inner, key, c, later)
  {
    forall k | k in c.entries
      ensures Backed(inner, key, c, k, later)
    {
      assert Backed(inner, key, c, k, now);
    }
  }

  lemma CallKeepsBacked(inner: VerifyFunc, key: string -> string, c: Cache, capacity: nat, tok: string, now: int)
    requires capacity >= 1 && AllBacked(inner, key, c, now)
    ensures AllBacked(inner, key, Wrapped(inner, key, c, capacity, tok, now).1, now)
  {
    var d := Wrapped(inner, key, c, capacity, tok, now).1;
    forall k | k in d.entries
      ensures Backed(inner, key, d, k, now)
    {
      if k in c.entries && d.entries[k] == c.entries[k] {
        assert Backed(inner, key, c, k, now);
      } else {
        assert k == key(tok) && inner(tok, now) == Ok(d.entries[k].value);
      }
    }
  }

  ghost predicate OneClock(events: seq<Event>) {
    forall i, j :: 0 <= i <= j < |events| && events[i].Call? && events[j].Call? ==> events[i].now <= events[j].now
  }

  lemma {:induction false} CacheStaysBacked(inner: VerifyFunc, key: string -> string, capacity: nat,
                                            events: seq<Event>, n: nat, now: int)
    requires capacity >= 1 && n <= |events| && OneClock(events)
    requires forall i :: 0 <= i < n && events[i].Call? ==> events[i].now <= now
    ensures AllBacked(inner, key, After(inner, key, capacity, events, n), now)
  {
    if n == 0 {
    } else {
      var c := After(inner, key, capacity, events, n - 1);
      match events[n - 1]
      case Call(tok, t) =>
        CacheStaysBacked(inner, key, capacity, events, n - 1, t);
        CallKeepsBacked(inner, key, c, capacity, tok, t);
        BackedLater(inner, key, After(inner, key, capacity, events, n), t, now);
      case Lose(k) =>
        CacheStaysBacked(inner, key, capacity, events, n - 1, now);
        forall m | m in c.entries && m != k
          ensures Backed(inner, key, After(inner, key, capacity, events, n), m, now)
        {
          assert Backed(inner, key, c, m, now);
        }
    }
  }

  /**
    Whatever was called and whatever was lost before, the wrapped verifier
    answers exactly as the inner one does at that instant, success or failure.
   */
  lemma WrappedIsInner(inner: VerifyFunc, key: string -> string, capacity: nat, events: seq<Event>, n: nat)
    requires capacity >= 1 && n < |events| && events[n].Call? && OneClock(events)
    requires Stable(inner) && Injective(key)
    ensures var c := After(inner, key, capacity, events, n);
            Wrapped(inner, key, c, capacity, events[n].tok, events[n].now).0 == inner(events[n].tok, events[n].now)
  {
    var c := After(inner, key, capacity, events, n);
    var tok, now := events[n].tok, events[n].now;
    CacheStaysBacked(inner, key, capacity, events, n, now);
    if Live(c, key(tok), now) {
      assert Backed(inner, key, c, key(tok), now);
    }
  }

  /** Nothing is served from memory past the expiry it carries, even by an unstable verifier. */
  lemma NeverServedPastExpiry(inner: VerifyFunc, key: string -> string, capacity: nat, events: seq<Event>, n: nat)
    requires capacity >= 1 && n < |events| && events[n].Call? && OneClock(events)
    ensures var c := After(inner, key, capacity, events, n);
            var answer := Wrapped(inner, key, c, capacity, events[n].tok, events[n].now).0;
            answer == inner(events[n].tok, events[n].now)
            || (answer.Ok? && events[n].now <= answer.value.expiry
                && exists tok, t :: key(tok) == key(events[n].tok) && t <= events[n].now && inner(tok, t) == answer)
  {
    var c := After(inner, key, capacity, events, n);
    var k, now := key(events[n].tok), events[n].now;
    CacheStaysBacked(inner, key, capacity, events, n, now);
    if Live(c, k, now) {
      assert Backed(inner, key, c, k, now);
    }
  }

  /** The cache never outgrows its capacity. */
  lemma {:induction false} StaysWithinCapacity(inner: VerifyFunc, key: string -> string, capacity: nat,
                                               events: seq<Event>, n: nat)
    requires capacity >= 1 && n <= |events|
    ensures Consistent(After(inner, key, capacity, events, n), capacity)
  {
    if n == 0 {
    } else {
      StaysWithinCapacity(inner, key, capacity, events, n - 1);
      var c := After(inner, key, capacity, events, n - 1);
      match events[n - 1]
      case Call(tok, now) =>
        if Live(c, key(tok), now) {
          TouchConsistent(c, capacity, key(tok));
        } else if inner(tok, now).Ok? {
          PutConsistent(c, capacity, key(tok), Entry(inner(tok, now).value, inner(tok, now).value.expiry));
        }
      case Lose(k) =>
        WithoutDistinct(c.order, k);
        WithoutMembers(c.order, k);
    }
  }

  // ---- what the cache saves -------------------------------------------------------------

  /** The keys other than `k` that are asked for strictly between two events. */
  function OthersAsked(key: string -> string, events: seq<Event>, k: string, m: nat, n: nat): set<string>
    requires n <= |events|
  {
    set j | m < j < n && events[j].Call? && key(events[j].tok) != k :: key(events[j].tok)
  }

  lemma {:induction false} AheadAfterLoss(order: seq<string>, lost: string, k: string)
    requires lost != k
    ensures Ahead(Without(order, lost), k) <= Ahead(order, k)
  {
    if order == [] || order[0] == k {
    } else {
      AheadAfterLoss(order[1..], lost, k);
      if order[0] != lost {
        assert Without(order, lost)[1..] == Without(order[1..], lost);
      }
    }
  }

  /** `k` holds this success, behind no more than `others`. */
  ghost predicate Holds(c: Cache, k: string, v: Verified, others: set<string>) {
    k in c.entries && c.entries[k] == Entry(v, v.expiry) && Ahead(c.order, k) <= others
  }

  lemma CallHolds(inner: VerifyFunc, key: string -> string, c: Cache, capacity: nat, tok: string, now: int,
                  k: string, v: Verified, others: set<string>)
    requires capacity >= 1 && Consistent(c, capacity) && Holds(c, k, v, others) && now <= v.expiry
    requires key(tok) != k ==> |others + {key(tok)}| < capacity
    ensures Holds(Wrapped(inner, key, c, capacity, tok, now).1, k, v,
                  others + (if key(tok) == k then {} else {key(tok)}))
  {
    hide Consistent;
    var d, used := Wrapped(inner, key, c, capacity, tok, now).1, key(tok);
    if used != k && d != c {
      assert Uses(c, d, capacity, used) by {
        if Live(c, used, now) {
          TouchUses(c, capacity, used);
        } else {
          var w := inner(tok, now).value;
          PutUses(c, capacity, used, Entry(w, now + (w.expiry - now)));
        }
      }
      Subset(Ahead(c.order, k) + {used}, others + {used});
      OneOtherUse(c, d, capacity, k, used);
    }
  }

  lemma {:induction false} SuccessIsHeld(inner: VerifyFunc, key: string -> string, capacity: nat, events: seq<Event>,
                                         m: nat, n: nat, v: Verified)
    requires capacity >= 1 && m < n <= |events| && OneClock(events) && events[m].Call?
    requires var k := key(events[m].tok);
             && !Live(After(inner, key, capacity, events, m), k, events[m].now)
             && inner(events[m].tok, events[m].now) == Ok(v) && events[m].now < v.expiry
             && (forall j :: m < j < n && events[j].Call? ==> events[j].now <= v.expiry)
             && (forall j :: m < j < n && events[j].Lose? ==> events[j].key != k)
             && |OthersAsked(key, events, k, m, n)| < capacity
    ensures var k := key(events[m].tok);
            Holds(After(inner, key, capacity, events, n), k, v, OthersAsked(key, events, k, m, n))
    decreases n
  {
    var k := key(events[m].tok);
    if n == m + 1 {
    } else {
      hide Holds, Wrapped, Consistent;
      var before, now := OthersAsked(key, events, k, m, n - 1), OthersAsked(key, events, k, m, n);
      Subset(before, now);
      SuccessIsHeld(inner, key, capacity, events, m, n - 1, v);
      var c := After(inner, key, capacity, events, n - 1);
      match events[n - 1] {
        case Call(tok, t) =>
          assert now == before + (if key(tok) == k then {} else {key(tok)});
          StaysWithinCapacity(inner, key, capacity, events, n - 1);
          CallHolds(inner, key, c, capacity, tok, t, k, v, before);
        case Lose(lost) =>
          assert now == before;
          LossHolds(c, lost, k, v, before);
      }
    }
  }

  lemma LossHolds(c: Cache, lost: string, k: string, v: Verified, others: set<string>)
    requires Holds(c, k, v, others) && lost != k
    ensures Holds(Contents(c.entries - {lost}, Without(c.order, lost)), k, v, others)
  {
    AheadAfterLoss(c.order, lost, k);
  }

  /**
    What the cache is for: a success the inner verifier gave is the answer, from
    memory and without asking again, up to the token's own expiry, as long as
    its entry is not lost and fewer other tokens than the cache holds come in
    between.
   */
  lemma ServedFromMemory(inner: VerifyFunc, key: string -> string, capacity: nat, events: seq<Event>,
                         m: nat, n: nat, v: Verified)
    requires capacity >= 1 && m < n < |events| && OneClock(events) && events[m].Call? && events[n].Call?
    requires events[n].tok == events[m].tok && events[n].now <= v.expiry
    requires var k := key(events[m].tok);
             && !Live(After(inner, key, capacity, events, m), k, events[m].now)
             && inner(events[m].tok, events[m].now) == Ok(v) && events[m].now < v.expiry
             && (forall j :: m < j < n && events[j].Lose? ==> events[j].key != k)
             && |OthersAsked(key, events, k, m, n)| < capacity
    ensures var c := After(inner, key, capacity, events, n);
            && Live(c, key(events[n].tok), events[n].now)
            && forall other: VerifyFunc ::
                 Wrapped(other, key, c, capacity, events[n].tok, events[n].now).0 == Ok(v)
  {
    SuccessIsHeld(inner, key, capacity, events, m, n, v);
  }

  /** And a failure is never kept: it leaves the cache as it was, and the next call asks again. */
  lemma FailuresAreNotKept(inner: VerifyFunc, key: string -> string, c: Cache, capacity: nat, tok: string, now: int,
                           later: int)
    requires capacity >= 1 && now <= later && !Live(c, key(tok), now) && inner(tok, now).Err?
    ensures var (answer, d) := Wrapped(inner, key, c, capacity, tok, now);
            && answer == inner(tok, now) && d == c
            && Wrapped(inner, key, d, capacity, tok, later).0 == inner(tok, later)
  {
  }
}
