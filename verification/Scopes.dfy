/** Granting, advertising and requiring scopes. */
module Scopes {
  import opened Wrappers
  import opened Text
  import opened Recency

  /** `xs` with every repetition of an earlier element dropped. */
  function FirstOccurrences(xs: seq<string>): seq<string> {
    if xs == [] then []
    else
      var init := FirstOccurrences(xs[..|xs| - 1]);
      if xs[|xs| - 1] in init then init else init + [xs[|xs| - 1]]
  }

  /** The first scope that is not supported, if there is one. */
  function FirstUnsupported(supported: seq<string>, fields: seq<string>): (r: Option<string>)
    ensures r.None? <==> forall f <- fields :: f in supported
    ensures r.Some? ==> r.value in fields && r.value !in supported
  {
    if fields == [] then None
    else if fields[0] !in supported then Some(fields[0])
    else
      assert fields == [fields[0]] + fields[1..];
      FirstUnsupported(supported, fields[1..])
  }

  function Unsupported(scope: string): string { "scope " + scope + " is not supported" }

  function Granted(supported: seq<string>, requested: string): Result<string> {
    var fields := Fields(requested);
    if fields == [] then Ok(Join(supported, ' '))
    else
      match FirstUnsupported(supported, fields)
      case Some(f) => Err(Unsupported(f))
      case None => Ok(Join(FirstOccurrences(fields), ' '))
  }

  lemma FirstUnsupportedAt(supported: seq<string>, fields: seq<string>, i: nat)
    requires i < |fields| && fields[i] !in supported
    requires forall j :: 0 <= j < i ==> fields[j] in supported
    ensures FirstUnsupported(supported, fields) == Some(fields[i])
  {
    if i > 0 {
      FirstUnsupportedAt(supported, fields[1..], i - 1);
    }
  }

  method GrantScope(supported: seq<string>, requested: string) returns (r: Result<string>)
    ensures r == Granted(supported, requested)
  {
    var fields := Fields(requested);
    if |fields| == 0 {
      return Ok(Join(supported, ' '));
    }
    var granted := [];
    for i := 0 to |fields|
      invariant forall j :: 0 <= j < i ==> fields[j] in supported
      invariant granted == FirstOccurrences(fields[..i])
    {
      var f := fields[i];
      if f !in supported {
        FirstUnsupportedAt(supported, fields, i);
        return Err(Unsupported(f));
      }
      assert fields[..i + 1][..i] == fields[..i];
      if f !in granted {
        granted := granted + [f];
      }
    }
    assert fields[..|fields|] == fields;
    r := Ok(Join(granted, ' '));
  }

  predicate Covers(required: seq<string>, tokenScope: string) {
    forall want <- required :: want in Fields(tokenScope)
  }

  method HasRequiredScopes(required: seq<string>, tokenScope: string) returns (ok: bool)
    ensures ok == Covers(required, tokenScope)
  {
    if |required| == 0 {
      return true;
    }
    var held := Fields(tokenScope);
    for i := 0 to |required|
      invariant forall j :: 0 <= j < i ==> required[j] in held
    {
      if required[i] !in held {
        return false;
      }
    }
    ok := true;
  }

  // ---- what granting does to a request ----------------------------------------------

  /** The position of the first occurrence. */
  function IndexOf(xs: seq<string>, x: string): (i: nat)
    requires x in xs
    ensures i < |xs| && xs[i] == x && x !in xs[..i]
  {
    if xs[0] == x then 0
    else
      assert forall j :: 0 <= j <= |xs| - 1 ==> xs[..j + 1] == [xs[0]] + xs[1..][..j];
      1 + IndexOf(xs[1..], x)
  }

  lemma IndexOfUnique(xs: seq<string>, x: string, i: nat)
    requires i < |xs| && xs[i] == x && x !in xs[..i]
    ensures IndexOf(xs, x) == i
  {
    var k := IndexOf(xs, x);
  }

  /** Same members, no repetition, in the order of first appearance. */
  lemma {:induction false} FirstOccurrencesFaithful(xs: seq<string>)
    ensures var r := FirstOccurrences(xs);
            && Distinct(r)
            && (forall x :: x in r <==> x in xs)
            && (forall i, j :: 0 <= i < j < |r| ==> IndexOf(xs, r[i]) < IndexOf(xs, r[j]))
  {
    if xs == [] {
    } else {
      var n := |xs| - 1;
      var init := xs[..n];
      FirstOccurrencesFaithful(init);
      assert xs == init + [xs[n]];
      var r := FirstOccurrences(init);
      forall x | x in r
        ensures IndexOf(xs, x) == IndexOf(init, x)
      {
        var i := IndexOf(init, x);
        assert xs[..i] == init[..i];
        IndexOfUnique(xs, x, i);
      }
      if xs[n] !in r {
        IndexOfUnique(xs, xs[n], n);
      }
    }
  }

  lemma {:induction false} DistinctIsUnchanged(xs: seq<string>)
    requires Distinct(xs)
    ensures FirstOccurrences(xs) == xs
  {
    if xs == [] {
    } else {
      var n := |xs| - 1;
      DistinctIsUnchanged(xs[..n]);
      assert xs == xs[..n] + [xs[n]];
    }
  }

  /**
    A granted request means exactly what it asked for: the same scopes, each
    once, in the order first asked, all of them supported. Anything else in a
    request is refused, and an empty one gets what is advertised.
   */
  lemma GrantMeansRequest(supported: seq<string>, requested: string)
    ensures var fields := Fields(requested);
            var r := Granted(supported, requested);
            && (r.Ok? <==> forall f <- fields :: f in supported)
            && (fields == [] ==> r == Ok(Join(supported, ' ')))
            && (fields != [] && r.Ok? ==>
                  var granted := Fields(r.value);
                  && Distinct(granted)
                  && (forall x :: x in granted <==> x in fields)
                  && (forall i, j :: 0 <= i < j < |granted| ==>
                        IndexOf(fields, granted[i]) < IndexOf(fields, granted[j])))
  {
    var fields := Fields(requested);
    if fields != [] && Granted(supported, requested).Ok? {
      FirstOccurrencesFaithful(fields);
      FieldsOfJoin(FirstOccurrences(fields));
    }
  }

  ghost predicate AllTokens(xs: seq<string>) { forall x <- xs :: IsToken(x) }

  /** Granting a granted scope again changes nothing. */
  ghost predicate Idempotent(supported: seq<string>) {
    forall requested :: Granted(supported, requested).Ok? ==>
      Granted(supported, Granted(supported, requested).value) == Granted(supported, requested)
  }

  lemma GrantOfJoin(supported: seq<string>, xs: seq<string>)
    requires AllTokens(xs) && xs != [] && forall x <- xs :: x in supported
    ensures Granted(supported, Join(xs, ' ')) == Ok(Join(FirstOccurrences(xs), ' '))
  {
    FieldsOfJoin(xs);
  }

  // ---- granting again ---------------------------------------------------------------

  /** The length of a joined list, but for its last separator. */
  function Weight(xs: seq<string>): nat {
    if xs == [] then 0 else |xs[0]| + 1 + Weight(xs[1..])
  }

  lemma {:induction false} WeightOfJoin(xs: seq<string>)
    requires xs != []
    ensures |Join(xs, ' ')| == Weight(xs) - 1
  {
    if |xs| > 1 {
      WeightOfJoin(xs[1..]);
    } else {
      assert Weight(xs[1..]) == 0;
    }
  }

  lemma {:induction false} WeightWithout(xs: seq<string>, k: nat)
    requires k < |xs|
    ensures Weight(xs) == Weight(xs[..k] + xs[k + 1..]) + |xs[k]| + 1
  {
    if k == 0 {
      assert xs[..0] + xs[1..] == xs[1..];
    } else {
      WeightWithout(xs[1..], k - 1);
      assert (xs[..k] + xs[k + 1..])[1..] == xs[1..][..k - 1] + xs[1..][k..];
    }
  }

  /** Distinct members of a list that weigh as much as all of it are all of it, each once. */
  lemma {:induction false} NoRoomForMore(part: seq<string>, whole: seq<string>)
    requires Distinct(part) && (forall x <- part :: x in whole) && Weight(part) >= Weight(whole)
    ensures Distinct(whole) && forall x <- whole :: x in part
  {
    if part == [] {
    } else {
      assert part[0] in whole;
      var k := IndexOf(whole, part[0]);
      var rest := whole[..k] + whole[k + 1..];
      WeightWithout(whole, k);
      forall x | x in part[1..]
        ensures x in rest
      {
        assert x in part && x != part[0];
        var m :| 0 <= m < |whole| && whole[m] == x;
        assert if m < k then rest[m] == x else rest[m - 1] == x;
      }
      NoRoomForMore(part[1..], rest);
      forall m, n | 0 <= m < n < |whole|
        ensures whole[m] != whole[n]
      {
        InRest(whole, k, m);
        InRest(whole, k, n);
      }
      forall x | x in whole
        ensures x in part
      {
        var m :| 0 <= m < |whole| && whole[m] == x;
        InRest(whole, k, m);
      }
    }
  }

  lemma InRest(whole: seq<string>, k: nat, m: nat)
    requires k < |whole| && m < |whole|
    ensures var rest := whole[..k] + whole[k + 1..];
            m != k ==> whole[m] in rest && rest[if m < k then m else m - 1] == whole[m]
  {
    var rest := whole[..k] + whole[k + 1..];
    if m != k {
      assert rest[if m < k then m else m - 1] == whole[m];
    }
  }

  /** The supported list, advertised as one string, reads back as it is, or as nothing at all. */
  ghost predicate ReadsBack(supported: seq<string>) {
    Fields(Join(supported, ' ')) == [] || (AllTokens(supported) && Distinct(supported))
  }

  lemma AdvertisedAgain(supported: seq<string>)
    ensures Granted(supported, Join(supported, ' ')) == Ok(Join(supported, ' ')) <==> ReadsBack(supported)
  {
    var fields := Fields(Join(supported, ' '));
    if fields != [] {
      FirstOccurrencesFaithful(fields);
      var kept := FirstOccurrences(fields);
      assert fields[0] in kept;
      if Granted(supported, Join(supported, ' ')) == Ok(Join(supported, ' ')) {
        assert supported != [] by { assert supported == [] ==> Join(supported, ' ') == ""; }
        WeightOfJoin(kept);
        WeightOfJoin(supported);
        NoRoomForMore(kept, supported);
      }
      if AllTokens(supported) && Distinct(supported) {
        FieldsOfJoin(supported);
        DistinctIsUnchanged(supported);
      }
    }
  }

  /**
    A granted scope, asked for again, is granted unchanged exactly when the
    request named something, or the advertised list is blank, or it consists of
    single tokens and repeats none: an empty request gets that list as it is.
   */
  lemma RegrantedExactly(supported: seq<string>, requested: string)
    requires Granted(supported, requested).Ok?
    ensures Granted(supported, Granted(supported, requested).value) == Granted(supported, requested) <==>
              Fields(requested) != [] || ReadsBack(supported)
  {
    var fields := Fields(requested);
    if fields == [] {
      AdvertisedAgain(supported);
    } else {
      var xs := FirstOccurrences(fields);
      FirstOccurrencesFaithful(fields);
      assert fields[0] in xs;
      GrantOfJoin(supported, xs);
      DistinctIsUnchanged(xs);
    }
  }

  lemma IdempotentExactly(supported: seq<string>)
    ensures Idempotent(supported) <==> ReadsBack(supported)
  {
    assert Fields("") == [];
    RegrantedExactly(supported, "");
    if ReadsBack(supported) {
      forall requested | Granted(supported, requested).Ok?
        ensures Granted(supported, Granted(supported, requested).value) == Granted(supported, requested)
      {
        RegrantedExactly(supported, requested);
      }
    }
  }

  lemma FieldsOfTwo(a: string, b: string)
    requires IsToken(a) && IsToken(b)
    ensures Join([a, b], ' ') == a + [' '] + b && Fields(a + [' '] + b) == [a, b]
  {
    assert [a, b][1..] == [b];
    FieldsOfJoin([a, b]);
  }

  /** A setting with a space inside is advertised, and refused when asked for. */
  lemma SpacedIsRefused(a: string, b: string)
    requires IsToken(a) && IsToken(b)
    ensures var supported := [a + [' '] + b];
            Granted(supported, "") == Ok(supported[0]) && Granted(supported, supported[0]) == Err(Unsupported(a))
  {
    hide Fields, Join;
    var supported := [a + [' '] + b];
    assert Fields("") == [] && Join(supported, ' ') == supported[0] by { EmptyAndSingle(supported); }
    FieldsOfTwo(a, b);
    assert [a, b][0] == a && |a| != |supported[0]|;
  }

  /** A setting given twice is advertised twice, and granted once when asked for. */
  lemma RepeatedIsDropped(a: string)
    requires IsToken(a)
    ensures var supported := [a, a];
            Granted(supported, "") == Ok(a + [' '] + a) && Granted(supported, a + [' '] + a) == Ok(a)
  {
    hide Fields, Join;
    var supported := [a, a];
    assert Fields("") == [] && Join([a], ' ') == a by { EmptyAndSingle([a]); }
    FieldsOfTwo(a, a);
    assert supported[..1] == [a] && [a][..0] == [];
    assert FirstOccurrences([a]) == [a];
    assert FirstOccurrences(supported) == [a];
  }

  lemma EmptyAndSingle(xs: seq<string>)
    requires |xs| == 1
    ensures Fields("") == [] && Join(xs, ' ') == xs[0]
  {
  }

  /**
    Step-up: a client told which scopes an operation needs asks for exactly
    those. The request is granted and the result suffices if and only if every
    required scope is a single token; one with white space in it, or an empty
    one, can never be held.
   */
  lemma StepUpClosesIffTokens(supported: seq<string>, required: seq<string>)
    requires forall r <- required :: r in supported
    ensures var granted := Granted(supported, Join(required, ' '));
            (granted.Ok? && Covers(required, granted.value)) <==> AllTokens(required)
  {
    var granted := Granted(supported, Join(required, ' '));
    if AllTokens(required) {
      FieldsOfJoin(required);
      if required != [] {
        GrantOfJoin(supported, required);
        FirstOccurrencesFaithful(required);
        FieldsOfJoin(FirstOccurrences(required));
      }
    } else if granted.Ok? {
      var bad :| bad in required && !IsToken(bad);
      assert bad !in Fields(granted.value);
    }
  }
}
