/**
  The string operations the authorization server rests on, with the laws that
  later modules need: fields and join, split and join, case folding, decimal
  parsing.
 */
module Text {
  import opened Wrappers

  // ---- characters -----------------------------------------------------------

  /** Unicode white space, as Go's unicode.IsSpace lists it. */
  predicate IsSpace(c: char) {
    || '\t' <= c <= '\r' || c == ' ' || c == '\U{0085}' || c == '\U{00A0}'
    || c == '\U{1680}' || '\U{2000}' <= c <= '\U{200A}' || c == '\U{2028}'
    || c == '\U{2029}' || c == '\U{202F}' || c == '\U{205F}' || c == '\U{3000}'
  }

  /** By code point. */
  lemma SpacesExactly(c: char)
    ensures IsSpace(c) <==> c as int in {9, 10, 11, 12, 13, 32, 133, 160, 5760, 8192, 8193, 8194, 8195, 8196, 8197,
                                         8198,
                                         8199, 8200, 8201, 8202, 8232, 8233, 8239, 8287, 12288}
  {
  }

  predicate IsDigit(c: char) { '0' <= c <= '9' }

  lemma DigitsExactly(c: char)
    ensures IsDigit(c) <==> c in "0123456789"
  {
    assert forall i :: 0 <= i < 10 ==> "0123456789"[i] as int == '0' as int + i;
    if IsDigit(c) {
      assert "0123456789"[c as int - '0' as int] == c;
    }
  }

  function LowerChar(c: char): char {
    if 'A' <= c <= 'Z' then (c as int + 32) as char else c
  }

  /** ASCII case folding. */
  function ToLower(s: string): (r: string)
    ensures |r| == |s|
    ensures forall i :: 0 <= i < |s| ==> r[i] == LowerChar(s[i])
  {
    seq(|s|, i requires 0 <= i < |s| => LowerChar(s[i]))
  }

  const UPPER := "ABCDEFGHIJKLMNOPQRSTUVWXYZ"
  const LOWER := "abcdefghijklmnopqrstuvwxyz"

  /** Letter by letter, and nothing else. */
  lemma LowerCharExactly(c: char)
    ensures forall i :: 0 <= i < 26 ==> LowerChar(UPPER[i]) == LOWER[i]
    ensures c !in UPPER ==> LowerChar(c) == c
  {
    assert forall i :: 0 <= i < 26 ==> UPPER[i] as int == 'A' as int + i && LOWER[i] as int == 'a' as int + i;
    if 'A' <= c <= 'Z' {
      assert UPPER[c as int - 'A' as int] == c;
    }
  }

  // ---- trimming and searching -----------------------------------------------

  function TrimLeft(s: string): string {
    if s != "" && IsSpace(s[0]) then TrimLeft(s[1..]) else s
  }

  function TrimRight(s: string): string {
    if s != "" && IsSpace(s[|s| - 1]) then TrimRight(s[..|s| - 1]) else s
  }

  function TrimSpace(s: string): string { TrimRight(TrimLeft(s)) }

  predicate HasPrefix(s: string, prefix: string) { prefix <= s }

  predicate HasSuffix(s: string, suffix: string) {
    |suffix| <= |s| && s[|s| - |suffix|..] == suffix
  }

  predicate Contains(s: string, part: string) {
    HasPrefix(s, part) || (s != "" && Contains(s[1..], part))
  }

  /** The position just after the last `c` in `s`, or None. */
  function AfterLast(s: string, c: char): (r: Option<nat>)
    ensures r.None? <==> c !in s
    ensures r.Some? ==> 0 < r.value <= |s| && s[r.value - 1] == c && c !in s[r.value..]
  {
    if s == "" then None
    else if s[|s| - 1] == c then Some(|s|)
    else
      var r := AfterLast(s[..|s| - 1], c);
      assert r.Some? ==> s[r.value..] == s[..|s| - 1][r.value..] + [s[|s| - 1]];
      r
  }

  predicate OccursAt(s: string, part: string, i: int) {
    0 <= i <= |s| - |part| && s[i..i + |part|] == part
  }

  lemma {:induction false} ContainsExactly(s: string, part: string)
    ensures Contains(s, part) <==> exists i :: OccursAt(s, part, i)
  {
    if HasPrefix(s, part) {
      assert OccursAt(s, part, 0);
    } else if s != "" {
      ContainsExactly(s[1..], part);
      assert OccursAt(s, part, 0) ==> part <= s;
      if i :| OccursAt(s, part, i) {
        assert s[1..][i - 1..i - 1 + |part|] == s[i..i + |part|];
        assert OccursAt(s[1..], part, i - 1);
      }
      if i :| OccursAt(s[1..], part, i) {
        assert s[i + 1..i + 1 + |part|] == s[1..][i..i + |part|];
        assert OccursAt(s, part, i + 1);
      }
    }
  }

  ghost predicate AllSpace(s: string) { forall c <- s :: IsSpace(c) }

  /** No white space at either end. */
  predicate Tight(s: string) { s != "" ==> !IsSpace(s[0]) && !IsSpace(s[|s| - 1]) }

  lemma {:induction false} TrimLeftSkips(front: string, s: string)
    requires AllSpace(front)
    ensures TrimLeft(front + s) == TrimLeft(s)
  {
    if front == "" {
      assert front + s == s;
    } else {
      assert IsSpace(front[0]) && (front + s)[1..] == front[1..] + s;
      TrimLeftSkips(front[1..], s);
    }
  }

  lemma {:induction false} TrimRightSkips(s: string, back: string)
    requires AllSpace(back)
    ensures TrimRight(s + back) == TrimRight(s)
  {
    if back == "" {
      assert s + back == s;
    } else {
      var n := |back| - 1;
      assert IsSpace(back[n]) && (s + back)[..|s + back| - 1] == s + back[..n];
      TrimRightSkips(s, back[..n]);
    }
  }

  /** Trimming takes white space off both ends, and all of it. */
  lemma TrimSpaceExactly(front: string, s: string, back: string)
    requires AllSpace(front) && AllSpace(back) && Tight(s)
    ensures TrimSpace(front + s + back) == s
  {
    assert front + s + back == front + (s + back);
    TrimLeftSkips(front, s + back);
    if s == "" {
      assert s + back == back + "";
      TrimLeftSkips(back, "");
    } else {
      TrimRightSkips(s, back);
    }
  }

  // ---- white-space separated fields -------------------------------------------

  /** A non-empty string without white space: what a scope value has to be. */
  predicate IsToken(s: string) { s != "" && forall c <- s :: !IsSpace(c) }

  /** The length of the leading run of non-space characters. */
  function WordLength(s: string): (n: nat)
    ensures n <= |s|
    ensures forall i :: 0 <= i < n ==> !IsSpace(s[i])
    ensures n < |s| ==> IsSpace(s[n])
  {
    if s == "" || IsSpace(s[0]) then 0 else 1 + WordLength(s[1..])
  }

  /** strings.Fields: the maximal runs of non-space characters, in order. */
  function Fields(s: string): (r: seq<string>)
    ensures forall f <- r :: IsToken(f)
    decreases |s|
  {
    if s == "" then []
    else if IsSpace(s[0]) then Fields(s[1..])
    else [s[..WordLength(s)]] + Fields(s[WordLength(s)..])
  }

  /** strings.Join with a one-character separator. */
  function Join(xs: seq<string>, sep: char): string {
    if xs == [] then "" else if |xs| == 1 then xs[0] else xs[0] + [sep] + Join(xs[1..], sep)
  }

  lemma {:induction false} WordLengthOfToken(word: string, rest: string)
    requires forall c <- word :: !IsSpace(c)
    requires rest == "" || IsSpace(rest[0])
    ensures WordLength(word + rest) == |word|
  {
    if word == "" {
      assert word + rest == rest;
    } else {
      assert (word + rest)[1..] == word[1..] + rest;
      assert !IsSpace(word[0]) by { assert word[0] in word; }
      WordLengthOfToken(word[1..], rest);
    }
  }

  /** Reading back a joined list of tokens gives the list. */
  lemma {:induction false} FieldsOfJoin(xs: seq<string>)
    requires forall x <- xs :: IsToken(x)
    ensures Fields(Join(xs, ' ')) == xs
  {
    if xs == [] {
    } else {
      assert IsToken(xs[0]) by { assert xs[0] in xs; }
      var rest := if |xs| == 1 then "" else [' '] + Join(xs[1..], ' ');
      assert Join(xs, ' ') == xs[0] + rest;
      WordLengthOfToken(xs[0], rest);
      assert !IsSpace(xs[0][0]) by { assert xs[0][0] in xs[0]; }
      assert (xs[0] + rest)[..|xs[0]|] == xs[0] && (xs[0] + rest)[|xs[0]|..] == rest;
      if |xs| > 1 {
        FieldsOfJoin(xs[1..]);
        assert rest[1..] == Join(xs[1..], ' ');
      }
      assert Fields(rest) == xs[1..];
    }
  }

  lemma {:induction false} WordLengthOfLonger(a: string, b: string)
    requires WordLength(a) < |a|
    ensures WordLength(a + b) == WordLength(a)
  {
    if !IsSpace(a[0]) {
      assert (a + b)[1..] == a[1..] + b;
      WordLengthOfLonger(a[1..], b);
    }
  }

  lemma {:induction false} WordLengthBeforeSpace(a: string, b: string)
    requires WordLength(a) == |a| && b != "" && IsSpace(b[0])
    ensures WordLength(a + b) == |a|
  {
    if a == "" {
      assert a + b == b;
    } else {
      assert (a + b)[1..] == a[1..] + b;
      WordLengthBeforeSpace(a[1..], b);
    }
  }

  lemma FieldsStep(s: string)
    requires s != ""
    ensures var n := WordLength(s);
            Fields(s) == if IsSpace(s[0]) then Fields(s[1..]) else [s[..n]] + Fields(s[n..])
    ensures !IsSpace(s[0]) ==> WordLength(s) > 0
  {
  }

  /** Any white space separates: with FieldsOfJoin this says what the fields of every string are. */
  lemma {:induction false} FieldsOfConcat(a: string, c: char, b: string)
    requires IsSpace(c)
    ensures Fields(a + [c] + b) == Fields(a) + Fields(b)
    decreases |a|
  {
    var whole := a + [c] + b;
    FieldsStep(whole);
    if a == "" {
      assert whole[1..] == b;
    } else {
      hide Fields, WordLength, IsSpace;
      FieldsStep(a);
      if IsSpace(a[0]) {
        assert whole[1..] == a[1..] + [c] + b;
        FieldsOfConcat(a[1..], c, b);
      } else {
        FirstWordOfConcat(a, c, b);
        var n := WordLength(a);
        assert whole[..n] == a[..n] && whole[n..] == a[n..] + [c] + b;
        FieldsOfConcat(a[n..], c, b);
      }
    }
  }

  lemma FirstWordOfConcat(a: string, c: char, b: string)
    requires IsSpace(c) && a != "" && !IsSpace(a[0])
    ensures WordLength(a + [c] + b) == WordLength(a)
  {
    assert a + [c] + b == a + ([c] + b);
    if WordLength(a) < |a| {
      WordLengthOfLonger(a, [c] + b);
    } else {
      WordLengthBeforeSpace(a, [c] + b);
    }
  }

  // ---- split on a separator ------------------------------------------------------

  /** strings.Split with a one-character separator: never empty. */
  function Split(s: string, sep: char): (r: seq<string>)
    ensures |r| >= 1
    ensures forall part <- r :: sep !in part
  {
    if s == "" then [""]
    else
      var r := Split(s[1..], sep);
      if s[0] == sep then [""] + r else [[s[0]] + r[0]] + r[1..]
  }

  lemma {:induction false} JoinOfSplit(s: string, sep: char)
    ensures Join(Split(s, sep), sep) == s
  {
    if s == "" {
    } else {
      JoinOfSplit(s[1..], sep);
      var r := Split(s[1..], sep);
      if s[0] == sep {
        assert ([""] + r)[1..] == r;
      } else if |r| > 1 {
        assert ([[s[0]] + r[0]] + r[1..])[1..] == r[1..];
      }
    }
  }

  lemma {:induction false} SplitOfConcat(a: string, b: string, sep: char)
    ensures Split(a + [sep] + b, sep) == Split(a, sep) + Split(b, sep)
  {
    if a == "" {
      assert (a + [sep] + b)[1..] == b;
    } else {
      SplitOfConcat(a[1..], b, sep);
      Shift(a, [sep] + b);
      assert a[1..] + ([sep] + b) == a[1..] + [sep] + b && a + ([sep] + b) == a + [sep] + b;
      OneInFront(a[0], Split(a[1..], sep), Split(b, sep), sep);
    }
  }

  lemma Shift(a: string, b: string)
    requires a != ""
    ensures (a + b)[0] == a[0] && (a + b)[1..] == a[1..] + b
  {
  }

  /** What one more leading character does to a split, on its own and in front of another. */
  lemma OneInFront(c: char, r: seq<string>, q: seq<string>, sep: char)
    requires r != []
    ensures (if c == sep then [""] + (r + q) else [[c] + (r + q)[0]] + (r + q)[1..])
         == (if c == sep then [""] + r else [[c] + r[0]] + r[1..]) + q
  {
  }

  lemma {:induction false} JoinOfConcat(xs: seq<string>, ys: seq<string>, sep: char)
    requires xs != [] && ys != []
    ensures Join(xs + ys, sep) == Join(xs, sep) + [sep] + Join(ys, sep)
  {
    if |xs| == 1 {
      assert (xs + ys)[1..] == ys;
    } else {
      JoinOfConcat(xs[1..], ys, sep);
      assert (xs + ys)[1..] == xs[1..] + ys;
    }
  }

  // ---- decimal integers -----------------------------------------------------------

  const MAX_INT64 := 0x7FFF_FFFF_FFFF_FFFF
  const MIN_INT64 := -0x8000_0000_0000_0000

  function DigitsValue(s: string): nat
    requires forall c <- s :: IsDigit(c)
  {
    if s == "" then 0
    else
      assert IsDigit(s[|s| - 1]) by { assert s[|s| - 1] in s; }
      DigitsValue(s[..|s| - 1]) * 10 + (s[|s| - 1] as int - '0' as int)
  }

  /** strconv.Atoi on a 64-bit platform: an optional sign, at least one digit, in range. */
  function Atoi(s: string): (r: Option<int>)
    ensures r.Some? ==> MIN_INT64 <= r.value <= MAX_INT64
  {
    var digits := if s != "" && (s[0] == '+' || s[0] == '-') then s[1..] else s;
    if digits == "" || exists c <- digits :: !IsDigit(c) then None
    else
      var magnitude: int := DigitsValue(digits);
      var n := if s[0] == '-' then -magnitude else magnitude;
      if MIN_INT64 <= n <= MAX_INT64 then Some(n) else None
  }

  ghost predicate AllDigits(s: string) { s != "" && forall c <- s :: IsDigit(c) }

  /** Decimal digits after an optional sign are read as that number, if it is one of 64 bits; nothing else is. */
  lemma AtoiExactly(digits: string)
    requires AllDigits(digits)
    ensures var n: int := DigitsValue(digits);
            && Atoi(digits) == (if n <= 0x7FFF_FFFF_FFFF_FFFF then Some(n) else None)
            && Atoi("+" + digits) == Atoi(digits)
            && Atoi("-" + digits) == (if n <= 0x8000_0000_0000_0000 then Some(-n) else None)
  {
    assert digits[0] in digits;
    assert ("+" + digits)[1..] == digits && ("-" + digits)[1..] == digits;
  }

  lemma AtoiRefuses(s: string)
    requires !AllDigits(s) && !(s != "" && s[0] in "+-" && AllDigits(s[1..]))
    ensures Atoi(s) == None
  {
    assert s != "" && s[0] in "+-" ==> s[0] !in "0123456789";
  }
}
