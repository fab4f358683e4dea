/** The trust policy on metadata hosts: exact names and "*." suffixes. */
module HostPolicy {
  import opened Text

  // ---- normalising the configured list ----------------------------------------------

  function Normalized(hosts: seq<string>): seq<string> {
    if hosts == [] then []
    else
      var h := ToLower(TrimSpace(hosts[|hosts| - 1]));
      Normalized(hosts[..|hosts| - 1]) + (if h != "" then [h] else [])
  }

  method NormalizeHosts(hosts: seq<string>) returns (out: seq<string>)
    ensures out == Normalized(hosts)
  {
    out := [];
    for i := 0 to |hosts|
      invariant out == Normalized(hosts[..i])
    {
      assert hosts[..i + 1][..i] == hosts[..i];
      var h := ToLower(TrimSpace(hosts[i]));
      if h != "" {
        out := out + [h];
      }
    }
    assert hosts[..|hosts|] == hosts;
  }

  /** The policy holds exactly the trimmed, lower-cased, non-blank settings. */
  lemma {:induction false} NormalizedMembers(hosts: seq<string>, entry: string)
    ensures entry in Normalized(hosts) <==> entry != "" && exists h <- hosts :: entry == ToLower(TrimSpace(h))
  {
    if hosts == [] {
    } else {
      var init := hosts[..|hosts| - 1];
      NormalizedMembers(init, entry);
      assert hosts == init + [hosts[|hosts| - 1]];
    }
  }

  // ---- deciding on a host ---------------------------------------------------------------

  predicate EntryAllows(entry: string, host: string) {
    if HasPrefix(entry, "*.") then HasSuffix(host, "." + entry[2..]) || host == entry[2..]
    else host == entry
  }

  predicate Allows(policy: seq<string>, host: string) {
    policy == [] || exists entry <- policy :: EntryAllows(entry, ToLower(host))
  }

  method HostAllowed(policy: seq<string>, host: string) returns (ok: bool)
    ensures ok == Allows(policy, host)
  {
    if |policy| == 0 {
      return true;
    }
    var h := ToLower(host);
    for i := 0 to |policy|
      invariant forall j :: 0 <= j < i ==> !EntryAllows(policy[j], h)
    {
      var a := policy[i];
      assert a in policy;
      if HasPrefix(a, "*.") {
        var suffix := a[2..];
        if HasSuffix(h, "." + suffix) || h == suffix {
          return true;
        }
        continue;
      }
      if h == a {
        return true;
      }
    }
    ok := false;
  }

  // ---- what the string test means for labels ----------------------------------------------

  function Labels(host: string): seq<string> { Split(host, '.') }

  predicate EndsWith(xs: seq<string>, suffix: seq<string>) {
    |suffix| <= |xs| && xs[|xs| - |suffix|..] == suffix
  }

  lemma LabelSuffixIsSuffix(host: string, domain: string)
    requires EndsWith(Labels(host), Labels(domain))
    ensures HasSuffix(host, "." + domain) || host == domain
  {
    var front := Labels(host)[..|Labels(host)| - |Labels(domain)|];
    assert Labels(host) == front + Labels(domain);
    JoinOfSplit(host, '.');
    JoinOfSplit(domain, '.');
    if front == [] {
      assert Labels(host) == Labels(domain);
    } else {
      JoinOfConcat(front, Labels(domain), '.');
      assert host == Join(front, '.') + ("." + domain);
    }
  }

  /** Ending in a dot and a domain, or being the domain, is having the domain's labels last. */
  lemma SuffixIsLabelSuffix(host: string, domain: string)
    ensures HasSuffix(host, "." + domain) || host == domain <==> EndsWith(Labels(host), Labels(domain))
  {
    if HasSuffix(host, "." + domain) {
      var front := host[..|host| - |domain| - 1];
      assert host == front + ['.'] + domain;
      SplitOfConcat(front, domain, '.');
    }
    if EndsWith(Labels(host), Labels(domain)) {
      LabelSuffixIsSuffix(host, domain);
    }
  }

  /**
    A non-empty policy admits a host iff it names the lower-cased host, or a
    "*." entry names a domain whose labels the host's labels end with: whole
    labels, never part of one.
   */
  lemma AllowsByLabels(policy: seq<string>, host: string)
    requires policy != []
    ensures Allows(policy, host)
       <==> exists entry <- policy ::
              if HasPrefix(entry, "*.") then EndsWith(Labels(ToLower(host)), Labels(entry[2..]))
              else entry == ToLower(host)
  {
    forall entry | entry in policy
      ensures EntryAllows(entry, ToLower(host))
         <==> if HasPrefix(entry, "*.") then EndsWith(Labels(ToLower(host)), Labels(entry[2..]))
              else entry == ToLower(host)
    {
      if HasPrefix(entry, "*.") {
        SuffixIsLabelSuffix(ToLower(host), entry[2..]);
      }
    }
  }
}
