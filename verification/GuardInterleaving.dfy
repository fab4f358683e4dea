/**
  The replay guard under concurrency: each call is a lookup step and, after a
  miss, a separate store step; steps of any number of calls interleave freely.
 */
module GuardInterleaving {
  import opened Wrappers
  import opened Recency
  import opened TtlStore
  import opened ReplayGuard

  /** The arguments of a call; calls are told apart by number. */
  datatype Args<+K> = Args(jti: K, ttl: int)

  datatype Event = Lookup(call: nat, now: int) | Record(call: nat, now: int)

  datatype Progress = Missed | Returned(seen: bool)

  datatype State<!K> = State(guard: Guard<K>, progress: map<nat, Progress>)

  predicate Enabled<K>(calls: seq<Args<K>>, s: State<K>, e: Event) {
    && e.call < |calls|
    && match e
       case Lookup(call, _) => call !in s.progress
       case Record(call, _) => call in s.progress && s.progress[call] == Missed
  }

  function Next<K(==)>(calls: seq<Args<K>>, capacity: nat, s: State<K>, e: Event): State<K>
    requires capacity >= 1 && Enabled(calls, s, e)
  {
    var args := calls[e.call];
    match e
    case Lookup(call, now) =>
      if Live(s.guard, args.jti, now) then
        State(Touch(s.guard, args.jti), s.progress[call := Returned(true)])
      else s.(progress := s.progress[call := Missed])
    case Record(call, now) =>
      State(Put(s.guard, capacity, args.jti, Entry((), now + args.ttl)), s.progress[call := Returned(false)])
  }

  /** The state after the first `n` steps of an interleaving, None if one was not enabled. */
  function Run<K(==)>(calls: seq<Args<K>>, capacity: nat, trace: seq<Event>, n: nat): Option<State<K>>
    requires capacity >= 1 && n <= |trace|
  {
    if n == 0 then Some(State(Contents(map[], []), map[]))
    else
      var before := Run(calls, capacity, trace, n - 1);
      if before.Some? && Enabled(calls, before.value, trace[n - 1]) then
        Some(Next(calls, capacity, before.value, trace[n - 1]))
      else None
  }

  /** Step `n` is enabled. */
  predicate Proceeds<K(==)>(calls: seq<Args<K>>, capacity: nat, trace: seq<Event>, n: nat)
    requires capacity >= 1 && n < |trace|
  {
    var s := Run(calls, capacity, trace, n);
    s.Some? && Enabled(calls, s.value, trace[n])
  }

  /** Any interleaving of the calls' steps. */
  ghost predicate Possible<K>(calls: seq<Args<K>>, capacity: nat, trace: seq<Event>) {
    capacity >= 1 && forall n :: 0 <= n < |trace| ==> Proceeds(calls, capacity, trace, n)
  }

  /** The state of an interleaving after `n` steps. */
  function After<K(==)>(calls: seq<Args<K>>, capacity: nat, trace: seq<Event>, n: nat): State<K>
    requires Possible(calls, capacity, trace) && n <= |trace|
  {
    assert n > 0 ==> Proceeds(calls, capacity, trace, n - 1);
    Run(calls, capacity, trace, n).value
  }

  lemma AfterStep<K>(calls: seq<Args<K>>, capacity: nat, trace: seq<Event>, n: nat)
    requires Possible(calls, capacity, trace) && n < |trace|
    ensures var s := After(calls, capacity, trace, n);
            && Enabled(calls, s, trace[n])
            && After(calls, capacity, trace, n + 1) == Next(calls, capacity, s, trace[n])
  {
    assert Proceeds(calls, capacity, trace, n);
  }

  // ---- what the guard knows, told from the steps --------------------------------------

  /** The identifier of a step's call. */
  function IdOf<K>(calls: seq<Args<K>>, capacity: nat, trace: seq<Event>, n: nat): K
    requires Possible(calls, capacity, trace) && n < |trace|
  {
    assert Proceeds(calls, capacity, trace, n);
    calls[trace[n].call].jti
  }

  /** Step `n` makes its identifier the most recent one: it stores it, or finds it. */
  predicate Touches<K(==)>(calls: seq<Args<K>>, capacity: nat, trace: seq<Event>, n: nat)
    requires Possible(calls, capacity, trace) && n < |trace|
  {
    trace[n].Record? || Live(After(calls, capacity, trace, n).guard, IdOf(calls, capacity, trace, n), trace[n].now)
  }

  /** The latest of the first `n` steps that touches `jti`. */
  function LastTouch<K(==)>(calls: seq<Args<K>>, capacity: nat, trace: seq<Event>, n: nat, jti: K): (r: Option<nat>)
    requires Possible(calls, capacity, trace) && n <= |trace|
    ensures r.Some? ==> r.value < n && Touches(calls, capacity, trace, r.value)
                        && IdOf(calls, capacity, trace, r.value) == jti
    ensures forall m :: (if r.Some? then r.value + 1 else 0) <= m < n && IdOf(calls, capacity, trace, m) == jti
              ==> !Touches(calls, capacity, trace, m)
  {
    if n == 0 then None
    else if Touches(calls, capacity, trace, n - 1) && IdOf(calls, capacity, trace, n - 1) == jti then Some(n - 1)
    else LastTouch(calls, capacity, trace, n - 1, jti)
  }

  /** The latest of the first `n` steps that stores `jti`. */
  function LastRecord<K(==)>(calls: seq<Args<K>>, capacity: nat, trace: seq<Event>, n: nat, jti: K): (r: Option<nat>)
    requires Possible(calls, capacity, trace) && n <= |trace|
    ensures r.Some? ==> r.value < n && trace[r.value].Record? && IdOf(calls, capacity, trace, r.value) == jti
    ensures forall m :: (if r.Some? then r.value + 1 else 0) <= m < n && IdOf(calls, capacity, trace, m) == jti
              ==> !trace[m].Record?
  {
    if n == 0 then None
    else if trace[n - 1].Record? && IdOf(calls, capacity, trace, n - 1) == jti then Some(n - 1)
    else LastRecord(calls, capacity, trace, n - 1, jti)
  }

  /** The other identifiers touched strictly between two steps. */
  function OthersBetween<K(==)>(calls: seq<Args<K>>, capacity: nat, trace: seq<Event>, jti: K, p: nat, n: nat): set<K>
    requires Possible(calls, capacity, trace) && n <= |trace|
  {
    set m | p < m < n && Touches(calls, capacity, trace, m) && IdOf(calls, capacity, trace, m) != jti
      :: IdOf(calls, capacity, trace, m)
  }

  /** Between two steps as many other identifiers were touched as the guard holds. */
  predicate Flooded<K(==)>(calls: seq<Args<K>>, capacity: nat, trace: seq<Event>, jti: K, p: nat, n: nat)
    requires Possible(calls, capacity, trace) && n <= |trace|
  {
    |OthersBetween(calls, capacity, trace, jti, p, n)| >= capacity
  }

  /** The latest record of `jti` counts at `now`, and the guard was not flooded since `jti` was last touched. */
  predicate InForce<K(==)>(calls: seq<Args<K>>, capacity: nat, trace: seq<Event>, n: nat, jti: K, now: int)
    requires Possible(calls, capacity, trace) && n <= |trace|
  {
    var q := LastRecord(calls, capacity, trace, n, jti);
    && q.Some?
    && (assert Proceeds(calls, capacity, trace, q.value);
        now <= trace[q.value].now + calls[trace[q.value].call].ttl)
    && (assert Touches(calls, capacity, trace, q.value);
        !Flooded(calls, capacity, trace, jti, LastTouch(calls, capacity, trace, n, jti).value, n))
  }

  ghost predicate Knows<K(!new)>(calls: seq<Args<K>>, capacity: nat, trace: seq<Event>, n: nat, jti: K)
    requires Possible(calls, capacity, trace) && n <= |trace|
  {
    var g, q := After(calls, capacity, trace, n).guard, LastRecord(calls, capacity, trace, n, jti);
    match LastTouch(calls, capacity, trace, n, jti)
    case None => jti !in g.entries && q.None?
    case Some(p) =>
      && q.Some?
      && (jti in g.entries <==> !Flooded(calls, capacity, trace, jti, p, n))
      && (jti in g.entries ==>
            && Ahead(g.order, jti) == OthersBetween(calls, capacity, trace, jti, p, n)
            && (assert Proceeds(calls, capacity, trace, q.value);
                g.entries[jti].expiresAt == trace[q.value].now + calls[trace[q.value].call].ttl))
  }

  lemma TouchingUses<K(!new)>(calls: seq<Args<K>>, capacity: nat, trace: seq<Event>, n: nat)
    requires Possible(calls, capacity, trace) && n < |trace|
    ensures var g, h := After(calls, capacity, trace, n).guard, After(calls, capacity, trace, n + 1).guard;
            if Touches(calls, capacity, trace, n) then Uses(g, h, capacity, IdOf(calls, capacity, trace, n)) else h == g
  {
    AfterStep(calls, capacity, trace, n);
    var g, args := After(calls, capacity, trace, n).guard, calls[trace[n].call];
    if trace[n].Record? {
      PutUses(g, capacity, args.jti, Entry((), trace[n].now + args.ttl));
    } else if Touches(calls, capacity, trace, n) {
      TouchUses(g, capacity, args.jti);
    }
  }

  /** Under any interleaving the guard stays consistent, and so within its size. */
  lemma {:induction false} StaysConsistent<K(!new)>(calls: seq<Args<K>>, capacity: nat, trace: seq<Event>, n: nat)
    requires Possible(calls, capacity, trace) && n <= |trace|
    ensures Consistent(After(calls, capacity, trace, n).guard, capacity)
  {
    if n == 0 {
    } else {
      hide Uses, Consistent;
      StaysConsistent(calls, capacity, trace, n - 1);
      TouchingUses(calls, capacity, trace, n - 1);
      if Touches(calls, capacity, trace, n - 1) {
        UsesConsistent(After(calls, capacity, trace, n - 1).guard, After(calls, capacity, trace, n).guard, capacity,
                       IdOf(calls, capacity, trace, n - 1));
      }
    }
  }

  lemma OthersGrow<K(!new)>(calls: seq<Args<K>>, capacity: nat, trace: seq<Event>, jti: K, p: nat, n: nat)
    requires Possible(calls, capacity, trace) && p < n < |trace|
    ensures var now := OthersBetween(calls, capacity, trace, jti, p, n);
            OthersBetween(calls, capacity, trace, jti, p, n + 1)
              == if Touches(calls, capacity, trace, n) && IdOf(calls, capacity, trace, n) != jti
                 then now + {IdOf(calls, capacity, trace, n)} else now
  {
    hide Possible, Touches, IdOf;
  }

  lemma OthersAreNotLatest<K>(calls: seq<Args<K>>, capacity: nat, trace: seq<Event>, n: nat, jti: K)
    requires Possible(calls, capacity, trace) && n < |trace| && IdOf(calls, capacity, trace, n) != jti
    ensures LastTouch(calls, capacity, trace, n + 1, jti) == LastTouch(calls, capacity, trace, n, jti)
    ensures LastRecord(calls, capacity, trace, n + 1, jti) == LastRecord(calls, capacity, trace, n, jti)
  {
    hide Touches, IdOf;
  }

  lemma OtherStepKnows<K(!new)>(calls: seq<Args<K>>, capacity: nat, trace: seq<Event>, n: nat, jti: K)
    requires Possible(calls, capacity, trace) && n < |trace| && Knows(calls, capacity, trace, n, jti)
    requires Touches(calls, capacity, trace, n) && IdOf(calls, capacity, trace, n) != jti
    ensures Knows(calls, capacity, trace, n + 1, jti)
  {
    hide Uses, Consistent, Ahead, Touches, After, IdOf, OthersBetween, LastTouch, LastRecord, Proceeds;
    OthersAreNotLatest(calls, capacity, trace, n, jti);
    var g, h := After(calls, capacity, trace, n).guard, After(calls, capacity, trace, n + 1).guard;
    var other := IdOf(calls, capacity, trace, n);
    StaysConsistent(calls, capacity, trace, n);
    TouchingUses(calls, capacity, trace, n);
    match LastTouch(calls, capacity, trace, n, jti) {
      case None => StaysOut(g, h, capacity, jti, other);
      case Some(p) =>
        OthersGrow(calls, capacity, trace, jti, p, n);
        OthersPushOut(g, h, capacity, jti, other, OthersBetween(calls, capacity, trace, jti, p, n));
    }
  }

  lemma OwnStepKnows<K(!new)>(calls: seq<Args<K>>, capacity: nat, trace: seq<Event>, n: nat, jti: K)
    requires Possible(calls, capacity, trace) && n < |trace| && Knows(calls, capacity, trace, n, jti)
    requires Touches(calls, capacity, trace, n) && IdOf(calls, capacity, trace, n) == jti
    ensures Knows(calls, capacity, trace, n + 1, jti)
  {
    AfterStep(calls, capacity, trace, n);
    assert OthersBetween(calls, capacity, trace, jti, n, n + 1) == {};
  }

  lemma IdleStepKnows<K(!new)>(calls: seq<Args<K>>, capacity: nat, trace: seq<Event>, n: nat, jti: K)
    requires Possible(calls, capacity, trace) && n < |trace| && Knows(calls, capacity, trace, n, jti)
    requires !Touches(calls, capacity, trace, n)
    ensures Knows(calls, capacity, trace, n + 1, jti)
  {
    TouchingUses(calls, capacity, trace, n);
    var p := LastTouch(calls, capacity, trace, n, jti);
    if p.Some? {
      assert OthersBetween(calls, capacity, trace, jti, p.value, n)
          == OthersBetween(calls, capacity, trace, jti, p.value, n + 1);
    }
  }

  lemma StepKnows<K(!new)>(calls: seq<Args<K>>, capacity: nat, trace: seq<Event>, n: nat, jti: K)
    requires Possible(calls, capacity, trace) && n < |trace| && Knows(calls, capacity, trace, n, jti)
    ensures Knows(calls, capacity, trace, n + 1, jti)
  {
    hide Possible, Knows, Touches, IdOf, After, Proceeds;
    if !Touches(calls, capacity, trace, n) {
      IdleStepKnows(calls, capacity, trace, n, jti);
    } else if IdOf(calls, capacity, trace, n) == jti {
      OwnStepKnows(calls, capacity, trace, n, jti);
    } else {
      OtherStepKnows(calls, capacity, trace, n, jti);
    }
  }

  lemma {:induction false} AlwaysKnows<K(!new)>(calls: seq<Args<K>>, capacity: nat, trace: seq<Event>, n: nat, jti: K)
    requires Possible(calls, capacity, trace) && n <= |trace|
    ensures Knows(calls, capacity, trace, n, jti)
  {
    if n == 0 {
    } else {
      hide Possible, Knows;
      AlwaysKnows(calls, capacity, trace, n - 1, jti);
      StepKnows(calls, capacity, trace, n - 1, jti);
    }
  }

  /** Under any interleaving the guard knows exactly the identifiers whose latest record is in force. */
  lemma KnowsItsRecords<K(!new)>(calls: seq<Args<K>>, capacity: nat, trace: seq<Event>, n: nat, jti: K, now: int)
    requires Possible(calls, capacity, trace) && n <= |trace|
    ensures Live(After(calls, capacity, trace, n).guard, jti, now) <==> InForce(calls, capacity, trace, n, jti, now)
  {
    hide Touches, OthersBetween;
    AlwaysKnows(calls, capacity, trace, n, jti);
  }

  /**
    A lookup reports "seen" exactly when the latest store of the same identifier
    is within its lifetime and fewer other identifiers than the guard holds were
    touched since this one last was.
   */
  lemma SeenExactlyAfterRecord<K(!new)>(calls: seq<Args<K>>, capacity: nat, trace: seq<Event>, n: nat)
    requires Possible(calls, capacity, trace) && n < |trace| && trace[n].Lookup?
    ensures trace[n].call < |calls| && trace[n].call in After(calls, capacity, trace, n + 1).progress
    ensures After(calls, capacity, trace, n + 1).progress[trace[n].call] == Returned(true)
       <==> InForce(calls, capacity, trace, n, calls[trace[n].call].jti, trace[n].now)
  {
    hide InForce;
    AfterStep(calls, capacity, trace, n);
    KnowsItsRecords(calls, capacity, trace, n, calls[trace[n].call].jti, trace[n].now);
  }

  /** A call that has returned stays returned, with the same answer. */
  lemma {:induction false} AnswerStands<K>(calls: seq<Args<K>>, capacity: nat, trace: seq<Event>, m: nat, n: nat,
                                           call: nat)
    requires Possible(calls, capacity, trace) && m <= n <= |trace|
    requires call in After(calls, capacity, trace, m).progress
    requires After(calls, capacity, trace, m).progress[call].Returned?
    ensures call in After(calls, capacity, trace, n).progress
    ensures After(calls, capacity, trace, n).progress[call] == After(calls, capacity, trace, m).progress[call]
    decreases n
  {
    if n == m {
    } else {
      AnswerStands(calls, capacity, trace, m, n - 1, call);
      AfterStep(calls, capacity, trace, n - 1);
    }
  }

  // ---- concurrent presentations of one identifier ------------------------------------------

  /** One clock, and one lifetime per identifier: codes and refresh tokens never share one. */
  ghost predicate Regular<K>(calls: seq<Args<K>>, capacity: nat, trace: seq<Event>) {
    && Possible(calls, capacity, trace)
    && (forall i, j :: 0 <= i <= j < |trace| ==> trace[i].now <= trace[j].now)
    && (forall a, b :: 0 <= a < |calls| && 0 <= b < |calls| && calls[a].jti == calls[b].jti
                       ==> calls[a].ttl == calls[b].ttl)
  }

  /** Call `a` looked up at step `get`, missed, and recorded at step `set_`: it answered "not seen". */
  ghost predicate AnsweredNotSeen(trace: seq<Event>, a: nat, get: nat, set_: nat) {
    && get < set_ < |trace|
    && trace[get].Lookup? && trace[get].call == a
    && trace[set_].Record? && trace[set_].call == a
  }

  /** A call that starts after an earlier one has returned answers "seen", unless the guard was flooded since. */
  lemma LateCallSeesIt<K(!new)>(calls: seq<Args<K>>, capacity: nat, trace: seq<Event>, a: nat, setA: nat, b: nat,
                                getB: nat)
    requires Regular(calls, capacity, trace)
    requires setA < getB < |trace|
    requires trace[setA].Record? && trace[setA].call == a && trace[getB].Lookup? && trace[getB].call == b
    requires a < |calls| && b < |calls| && calls[a].jti == calls[b].jti
    requires trace[getB].now <= trace[setA].now + calls[a].ttl
    ensures b in After(calls, capacity, trace, getB + 1).progress
    ensures After(calls, capacity, trace, getB + 1).progress[b] == Returned(true)
            || Flooded(calls, capacity, trace, calls[b].jti, setA, getB)
  {
    var jti := calls[b].jti;
    SeenExactlyAfterRecord(calls, capacity, trace, getB);
    RecordStillCounts(calls, capacity, trace, setA, getB, jti, trace[getB].now);
  }

  lemma RecordStillCounts<K(!new)>(calls: seq<Args<K>>, capacity: nat, trace: seq<Event>, set_: nat, n: nat, jti: K,
                                   now: int)
    requires Regular(calls, capacity, trace) && set_ < n <= |trace| && trace[set_].Record? && trace[set_].call < |calls|
    requires calls[trace[set_].call].jti == jti && now <= trace[set_].now + calls[trace[set_].call].ttl
    ensures InForce(calls, capacity, trace, n, jti, now) || Flooded(calls, capacity, trace, jti, set_, n)
  {
    hide After, Proceeds;
    assert IdOf(calls, capacity, trace, set_) == jti && Touches(calls, capacity, trace, set_);
    var p, q := LastTouch(calls, capacity, trace, n, jti).value, LastRecord(calls, capacity, trace, n, jti).value;
    assert set_ <= q && set_ <= p && trace[set_].now <= trace[q].now;
    assert trace[q].call < |calls| && calls[trace[q].call].ttl == calls[trace[set_].call].ttl by {
      AfterStep(calls, capacity, trace, q);
    }
    Subset(OthersBetween(calls, capacity, trace, jti, p, n), OthersBetween(calls, capacity, trace, jti, set_, n));
  }

  lemma NotSeenStartsBefore<K(!new)>(calls: seq<Args<K>>, capacity: nat, trace: seq<Event>,
                                     a: nat, setA: nat, b: nat, getB: nat, setB: nat)
    requires Regular(calls, capacity, trace)
    requires setA < |trace| && trace[setA].Record? && trace[setA].call == a
    requires AnsweredNotSeen(trace, b, getB, setB)
    requires a < |calls| && b < |calls| && calls[a].jti == calls[b].jti
    requires trace[getB].now <= trace[setA].now + calls[a].ttl
    ensures getB < setA || Flooded(calls, capacity, trace, calls[a].jti, setA, getB)
  {
    if getB > setA && !Flooded(calls, capacity, trace, calls[a].jti, setA, getB) {
      LateCallSeesIt(calls, capacity, trace, a, setA, b, getB);
      AnswerStands(calls, capacity, trace, getB + 1, setB, b);
      AfterStep(calls, capacity, trace, setB);
      assert false;
    }
  }

  /**
    Two calls for one identifier that both answer "not seen" within its
    lifetime overlap, neither starting after the other has returned, unless the
    guard was flooded after the one and before the other.
   */
  lemma NotSeenTwiceMeansOverlap<K(!new)>(calls: seq<Args<K>>, capacity: nat, trace: seq<Event>,
                                          a: nat, getA: nat, setA: nat, b: nat, getB: nat, setB: nat)
    requires Regular(calls, capacity, trace)
    requires AnsweredNotSeen(trace, a, getA, setA) && AnsweredNotSeen(trace, b, getB, setB)
    requires a < |calls| && b < |calls| && calls[a].jti == calls[b].jti
    requires trace[getB].now <= trace[setA].now + calls[a].ttl
    requires trace[getA].now <= trace[setB].now + calls[b].ttl
    ensures getB < setA || Flooded(calls, capacity, trace, calls[a].jti, setA, getB)
    ensures getA < setB || Flooded(calls, capacity, trace, calls[a].jti, setB, getA)
  {
    NotSeenStartsBefore(calls, capacity, trace, a, setA, b, getB, setB);
    NotSeenStartsBefore(calls, capacity, trace, b, setB, a, getA, setA);
  }

  /**
    However many calls answer "not seen" for one identifier within a lifetime,
    all of them are in flight at the moment of the first store step, but for
    those before which the guard was flooded: otherwise the number of accepted
    presentations is bounded by the concurrency at that moment.
   */
  lemma NotSeenAnswersShareAMoment<K(!new)>(calls: seq<Args<K>>, capacity: nat, trace: seq<Event>,
                                            a: nat, firstSet: nat, b: nat, getB: nat, setB: nat)
    requires Regular(calls, capacity, trace)
    requires firstSet < |trace| && trace[firstSet].Record? && trace[firstSet].call == a
    requires AnsweredNotSeen(trace, b, getB, setB)
    requires a < |calls| && b < |calls| && calls[a].jti == calls[b].jti
    requires forall p :: 0 <= p < firstSet && trace[p].Record? && trace[p].call < |calls|
                         ==> calls[trace[p].call].jti != calls[a].jti
    requires trace[getB].now <= trace[firstSet].now + calls[a].ttl
    ensures firstSet <= setB
    ensures getB < firstSet || Flooded(calls, capacity, trace, calls[a].jti, firstSet, getB)
  {
    NotSeenStartsBefore(calls, capacity, trace, a, firstSet, b, getB, setB);
  }

  /** Run back to back on one clock reading, the two steps are the sequential call. */
  lemma BackToBackIsSequential<K>(calls: seq<Args<K>>, capacity: nat, s: State<K>, call: nat, now: int)
    requires capacity >= 1 && Enabled(calls, s, Lookup(call, now))
    ensures var looked := Next(calls, capacity, s, Lookup(call, now));
            var (seen, guard) := Seen(s.guard, capacity, calls[call].jti, calls[call].ttl, now);
            if looked.progress[call] == Missed then
              Next(calls, capacity, looked, Record(call, now))
                == State(guard, looked.progress[call := Returned(seen)])
            else looked == State(guard, s.progress[call := Returned(seen)])
  {
    assert s.progress[call := Missed][call := Returned(false)] == s.progress[call := Returned(false)];
  }
}
