/** How long a fetched metadata document is kept, from its Cache-Control header. */
module CacheControl {
  import opened Wrappers
  import opened Text
  import opened Clock

  const MIN_TTL := MINUTE
  const MAX_TTL := 24 * HOUR

  function Clamp(d: int, lo: int, hi: int): int {
    if d < lo then lo else if d > hi then hi else d
  }

  /** The value a 64-bit signed integer takes after wrapping around. */
  function Wrap64(n: int): (r: int)
    ensures (n - r) % 0x1_0000_0000_0000_0000 == 0
    ensures -0x8000_0000_0000_0000 <= r < 0x8000_0000_0000_0000
    ensures -0x8000_0000_0000_0000 <= n < 0x8000_0000_0000_0000 ==> r == n
  {
    (n + 0x8000_0000_0000_0000) % 0x1_0000_0000_0000_0000 - 0x8000_0000_0000_0000
  }

  /** What one comma-separated part of the header says. */
  datatype Directive = Uncacheable | MaxAge(secs: int) | Irrelevant

  function Classify(part: string): Directive {
    var p := ToLower(TrimSpace(part));
    if p == "no-store" || p == "no-cache" then Uncacheable
    else if HasPrefix(p, "max-age=") then
      match Atoi(p[8..])
      case Some(secs) => MaxAge(secs)
      case None => Irrelevant
    else Irrelevant
  }

  function Lifetime(d: Directive, defaultTTL: int): int {
    match d
    case Uncacheable => MIN_TTL
    case MaxAge(secs) => Clamp(Wrap64(secs * SECOND), MIN_TTL, MAX_TTL)
    case Irrelevant => Clamp(defaultTTL, MIN_TTL, MAX_TTL)
  }

  /** The first directive that decides, if any does. */
  function Deciding(parts: seq<string>): Directive {
    if parts == [] then Irrelevant
    else if Classify(parts[0]) != Irrelevant then Classify(parts[0])
    else Deciding(parts[1..])
  }

  function TTL(cacheControl: string, defaultTTL: int): int {
    Lifetime(Deciding(Split(cacheControl, ',')), defaultTTL)
  }

  lemma {:induction false} DecidingIsFirst(parts: seq<string>, i: nat)
    requires i < |parts| && Classify(parts[i]) != Irrelevant
    requires forall j :: 0 <= j < i ==> Classify(parts[j]) == Irrelevant
    ensures Deciding(parts) == Classify(parts[i])
  {
    if i == 0 {
    } else {
      assert Classify(parts[0]) == Irrelevant;
      DecidingIsFirst(parts[1..], i - 1);
    }
  }

  lemma {:induction false} NothingDecides(parts: seq<string>)
    requires forall j :: 0 <= j < |parts| ==> Classify(parts[j]) == Irrelevant
    ensures Deciding(parts) == Irrelevant
  {
    if parts == [] {
    } else {
      NothingDecides(parts[1..]);
    }
  }

  method CacheTTL(cacheControl: string, defaultTTL: int) returns (ttl: int)
    ensures ttl == TTL(cacheControl, defaultTTL)
  {
    var parts := Split(cacheControl, ',');
    for i := 0 to |parts|
      invariant forall j :: 0 <= j < i ==> Classify(parts[j]) == Irrelevant
    {
      var part := ToLower(TrimSpace(parts[i]));
      if part == "no-store" || part == "no-cache" {
        DecidingIsFirst(parts, i);
        return MIN_TTL;
      } else if HasPrefix(part, "max-age=") {
        var secs := Atoi(part[8..]);
        if secs.None? {
          continue;
        }
        DecidingIsFirst(parts, i);
        return Clamp(Wrap64(secs.value * SECOND), MIN_TTL, MAX_TTL);
      }
    }
    NothingDecides(parts);
    ttl := Clamp(defaultTTL, MIN_TTL, MAX_TTL);
  }

  /** Every header, whatever it says, keeps the lifetime inside the band: a minute to a day, in nanoseconds. */
  lemma TTLInBand(cacheControl: string, defaultTTL: int)
    ensures 60_000_000_000 <= TTL(cacheControl, defaultTTL) <= 86_400_000_000_000
  {
  }

  /** The first part that decides settles the lifetime; parts after it are not read. */
  lemma FirstDirectiveDecides(cacheControl: string, defaultTTL: int, i: nat)
    requires i < |Split(cacheControl, ',')| && Classify(Split(cacheControl, ',')[i]) != Irrelevant
    requires forall j :: 0 <= j < i ==> Classify(Split(cacheControl, ',')[j]) == Irrelevant
    ensures TTL(cacheControl, defaultTTL) == Lifetime(Classify(Split(cacheControl, ',')[i]), defaultTTL)
  {
    DecidingIsFirst(Split(cacheControl, ','), i);
  }

  /** A part of a header once trimmed and in lower case. */
  function PartAt(cacheControl: string, i: nat): string
    requires i < |Split(cacheControl, ',')|
  {
    ToLower(TrimSpace(Split(cacheControl, ',')[i]))
  }

  /** What a part may say that settles nothing. */
  ghost predicate Neutral(p: string) {
    && p != "no-store" && p != "no-cache"
    && ("max-age=" <= p ==> Atoi(p[8..]) == None)
  }

  lemma NeutralExactly(part: string)
    ensures Neutral(ToLower(TrimSpace(part))) <==> Classify(part) == Irrelevant
  {
  }

  /**
    The lifetime a header gives, whole: that of its first part that is not
    neutral, a minute for one that forbids storing, the seconds asked for, as
    far as 64 bits carry them, for a max-age; the default if all parts are
    neutral; always cut to between a minute and a day.
   */
  lemma LifetimeExactly(cacheControl: string, defaultTTL: int, i: nat)
    requires i <= |Split(cacheControl, ',')|
    requires forall j :: 0 <= j < i ==> Neutral(PartAt(cacheControl, j))
    requires i < |Split(cacheControl, ',')| ==> !Neutral(PartAt(cacheControl, i))
    ensures TTL(cacheControl, defaultTTL)
         == if i == |Split(cacheControl, ',')| then Between(defaultTTL)
            else if PartAt(cacheControl, i) in ["no-store", "no-cache"] then 60_000_000_000
            else Between(Wrap64(Atoi(PartAt(cacheControl, i)[8..]).value * 1_000_000_000))
  {
    hide Atoi, ToLower, TrimSpace, Neutral, Classify, Wrap64;
    var parts := Split(cacheControl, ',');
    forall j | 0 <= j < i
      ensures Classify(parts[j]) == Irrelevant
    {
      assert Neutral(PartAt(cacheControl, j));
      NeutralExactly(parts[j]);
    }
    if i == |parts| {
      NothingDecides(parts);
    } else {
      NeutralExactly(parts[i]);
      DecidingIsFirst(parts, i);
      Decides(parts[i], defaultTTL);
    }
  }

  lemma Decides(part: string, defaultTTL: int)
    requires Classify(part) != Irrelevant
    ensures var p := ToLower(TrimSpace(part));
            Lifetime(Classify(part), defaultTTL)
              == if p in ["no-store", "no-cache"] then 60_000_000_000
                 else if "max-age=" <= p && Atoi(p[8..]).Some? then Between(Wrap64(Atoi(p[8..]).value * 1_000_000_000))
                 else 0
    ensures ToLower(TrimSpace(part)) !in ["no-store", "no-cache"] ==>
              "max-age=" <= ToLower(TrimSpace(part)) && Atoi(ToLower(TrimSpace(part))[8..]).Some?
  {
  }

  /** A duration cut to between a minute and a day. */
  function Between(d: int): (r: int)
    ensures 60_000_000_000 <= d <= 86_400_000_000_000 ==> r == d
    ensures d < 60_000_000_000 ==> r == 60_000_000_000
    ensures d > 86_400_000_000_000 ==> r == 86_400_000_000_000
  {
    if d < 60_000_000_000 then 60_000_000_000 else if d > 86_400_000_000_000 then 86_400_000_000_000 else d
  }

  // ---- seconds that do not fit ------------------------------------------------------

  const TWO_TO_64 := 0x1_0000_0000_0000_0000

  /**
    The seconds whose lifetime survives the multiplication: those that fit, and
    beyond them those whose nanosecond count, on its lap of 64 bits, comes to
    lie on the right side of the band.
   */
  predicate Survives(secs: int) {
    var lap := (secs * 1_000_000_000) % 0x1_0000_0000_0000_0000;
    || -9_223_372_036 <= secs <= 9_223_372_036
    || (secs > 0 && 86_400_000_000_000 <= lap < 0x8000_0000_0000_0000)
    || (secs < 0 && (lap <= 60_000_000_000 || 0x8000_0000_0000_0000 <= lap))
  }

  /** The lifetime is the one asked for, cut to the band, exactly when the seconds survive. */
  lemma MaxAgeExact(secs: int, defaultTTL: int)
    ensures Lifetime(MaxAge(secs), defaultTTL) == Between(secs * 1_000_000_000) <==> Survives(secs)
  {
    var n := secs * SECOND;
    var lap := n % TWO_TO_64;
    assert Wrap64(n) == if lap < TWO_TO_64 / 2 then lap else lap - TWO_TO_64 by { LapOf(n); }
  }

  lemma LapOf(n: int)
    ensures Wrap64(n) == if n % TWO_TO_64 < TWO_TO_64 / 2 then n % TWO_TO_64 else n % TWO_TO_64 - TWO_TO_64
  {
    var q, lap := n / TWO_TO_64, n % TWO_TO_64;
    assert n == q * TWO_TO_64 + lap;
  }

  // ---- headers ---------------------------------------------------------------------------

  function MaxAgeHeader(digits: string): string { "max-age=" + digits }

  lemma {:induction false} SplitOfOne(s: string, sep: char)
    requires sep !in s
    ensures Split(s, sep) == [s]
  {
    if s == "" {
    } else {
      SplitOfOne(s[1..], sep);
      assert [s[0]] + s[1..] == s;
    }
  }

  lemma DigitsAreDigits(digits: string, i: nat)
    requires (forall c <- digits :: IsDigit(c)) && i < |MaxAgeHeader(digits)|
    ensures var c := MaxAgeHeader(digits)[i];
            c in "max-age=" || IsDigit(c)
  {
    if i >= 8 {
      assert MaxAgeHeader(digits)[i] == digits[i - 8];
    }
  }

  /** A header that is one max-age in decimal digits is read as that number, if it is one of 64 bits. */
  lemma MaxAgeIsRead(digits: string)
    requires digits != "" && forall c <- digits :: IsDigit(c)
    ensures Deciding(Split(MaxAgeHeader(digits), ','))
         == if DigitsValue(digits) <= MAX_INT64 then MaxAge(DigitsValue(digits)) else Irrelevant
  {
    var s := MaxAgeHeader(digits);
    forall i: nat | i < |s|
      ensures s[i] != ',' && !IsSpace(s[i]) && LowerChar(s[i]) == s[i]
    {
      DigitsAreDigits(digits, i);
    }
    SplitOfOne(s, ',');
    assert TrimSpace(s) == s;
    assert ToLower(s) == s;
    assert s[8..] == digits;
    assert IsDigit(digits[0]);
    assert Deciding([s]) == Classify(s);
  }

  /**
    What a server sending one max-age gets: its own number of seconds, cut to
    the band, exactly when they survive; the default for a number that is too
    large to read at all.
   */
  lemma MaxAgeHeaderExact(digits: string, defaultTTL: int)
    requires digits != "" && forall c <- digits :: IsDigit(c)
    ensures var secs := DigitsValue(digits);
            if secs <= MAX_INT64 then
              TTL(MaxAgeHeader(digits), defaultTTL) == Between(secs * 1_000_000_000) <==> Survives(secs)
            else TTL(MaxAgeHeader(digits), defaultTTL) == Between(defaultTTL)
  {
    MaxAgeIsRead(digits);
    MaxAgeExact(DigitsValue(digits), defaultTTL);
  }

  lemma AppendDigit(front: string, d: char)
    requires (forall c <- front :: IsDigit(c)) && IsDigit(d)
    ensures forall c <- front + [d] :: IsDigit(c)
    ensures DigitsValue(front + [d]) == DigitsValue(front) * 10 + (d as int - '0' as int)
  {
    assert (front + [d])[..|front|] == front;
  }

  /** A max-age of 18446744074 seconds asks for the ceiling and gets the floor. */
  lemma MaxAgeWrapsToFloor(defaultTTL: int)
    ensures TTL(MaxAgeHeader("18446744074"), defaultTTL) == 60_000_000_000
    ensures Between(18_446_744_074 * 1_000_000_000) == 86_400_000_000_000
  {
    hide Split, Deciding, DigitsValue, MaxAgeHeader;
    ManySeconds();
    MaxAgeIsRead("18446744074");
  }

  lemma ManySeconds()
    ensures (forall c <- "18446744074" :: IsDigit(c)) && DigitsValue("18446744074") == 18_446_744_074
  {
    hide DigitsValue;
    assert DigitsValue("") == 0 by { NoDigits(); }
    AppendDigit("", '1');
    assert "" + ['1'] == "1";
    AppendDigit("1", '8');
    assert "1" + ['8'] == "18";
    AppendDigit("18", '4');
    assert "18" + ['4'] == "184";
    AppendDigit("184", '4');
    assert "184" + ['4'] == "1844";
    AppendDigit("1844", '6');
    assert "1844" + ['6'] == "18446";
    AppendDigit("18446", '7');
    assert "18446" + ['7'] == "184467";
    AppendDigit("184467", '4');
    assert "184467" + ['4'] == "1844674";
    AppendDigit("1844674", '4');
    assert "1844674" + ['4'] == "18446744";
    AppendDigit("18446744", '0');
    assert "18446744" + ['0'] == "184467440";
    AppendDigit("184467440", '7');
    assert "184467440" + ['7'] == "1844674407";
    AppendDigit("1844674407", '4');
    assert "1844674407" + ['4'] == "18446744074";
  }

  lemma NoDigits()
    ensures DigitsValue("") == 0
  {
  }
}
