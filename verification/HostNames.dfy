/** Host-name matching of the selector: three near-duplicate lookups over one table of groups. */
module HostNames {
  import opened Common

  /** One endpoint group: accepted client domains, each paired with the upstream host to send. */
  datatype HostDef = HostDef(
    name: string,
    domainMap: seq<(string, string)>,
    ips: seq<IpAddr>,
    upstreamPort: nat,
    testUrl: string)

  function LowerChar(c: char): char {
    if 'A' <= c <= 'Z' then c - 'A' + 'a' else c
  }

  /** `to_ascii_lowercase`. */
  function Lower(s: string): (r: string)
    ensures |r| == |s|
    ensures forall i :: 0 <= i < |s| ==> r[i] == LowerChar(s[i])
  {
    seq(|s|, i requires 0 <= i < |s| => LowerChar(s[i]))
  }

  /** `trim_end_matches('.')`. */
  function TrimDots(s: string): (r: string)
    ensures r <= s
    ensures r == "" || r[|r| - 1] != '.'
    ensures forall i :: |r| <= i < |s| ==> s[i] == '.'
  {
    if s != "" && s[|s| - 1] == '.' then TrimDots(s[..|s| - 1]) else s
  }

  function Normalize(host: string): string {
    Lower(TrimDots(host))
  }

  predicate HasSuffix(s: string, t: string) {
    |t| <= |s| && s[|s| - |t|..] == t
  }

  /** The host is the domain itself or a subdomain of it; both arguments are normalized. */
  predicate Matches(host: string, domain: string) {
    host == domain || HasSuffix(host, "." + domain)
  }

  /** Index of the first pair of one group's map whose domain matches. */
  function EntryFor(entries: seq<(string, string)>, host: string): (r: Option<nat>)
    ensures r.Some? ==> r.value < |entries| && Matches(host, Normalize(entries[r.value].0))
    ensures forall j :: 0 <= j < |entries| && (r.Some? ==> j < r.value) ==>
              !Matches(host, Normalize(entries[j].0))
  {
    if entries == [] then None
    else if Matches(host, Normalize(entries[0].0)) then Some(0)
    else
      match EntryFor(entries[1..], host)
      case None => None
      case Some(j) => Some(j + 1)
  }

  function HostFor(defs: seq<HostDef>, host: string): Option<HostDef> {
    if defs == [] then None
    else if EntryFor(defs[0].domainMap, Normalize(host)).Some? then Some(defs[0])
    else HostFor(defs[1..], host)
  }

  function UpstreamHostFor(defs: seq<HostDef>, host: string): Option<string> {
    if defs == [] then None
    else
      match EntryFor(defs[0].domainMap, Normalize(host))
      case Some(j) => Some(defs[0].domainMap[j].1)
      case None => UpstreamHostFor(defs[1..], host)
  }

  /** The group's own name, compared without regard to case, is also accepted here. */
  predicate IsName(def: HostDef, host: string) {
    Lower(def.name) == Normalize(host)
  }

  function IndexOf(defs: seq<HostDef>, host: string): (r: Option<nat>)
    ensures r.Some? ==> r.value < |defs|
  {
    if defs == [] then None
    else if IsName(defs[0], host) then Some(0)
    else if EntryFor(defs[0].domainMap, Normalize(host)).Some? then Some(0)
    else
      match IndexOf(defs[1..], host)
      case None => None
      case Some(i) => Some(i + 1)
  }

  // ---- What the lookups are meant to compute, without any recursion ----

  /** Pair j of the group accepts the host. */
  predicate Accepts(def: HostDef, host: string, j: nat) {
    j < |def.domainMap| && Matches(Normalize(host), Normalize(def.domainMap[j].0))
  }

  /** The group claims the host, by name or by domain. */
  ghost predicate ClaimsHost(def: HostDef, host: string) {
    IsName(def, host) || exists j: nat :: Accepts(def, host, j)
  }

  predicate Hit(defs: seq<HostDef>, host: string, i: nat, j: nat) {
    i < |defs| && Accepts(defs[i], host, j)
  }

  ghost predicate Claims(defs: seq<HostDef>, host: string, i: nat) {
    i < |defs| && ClaimsHost(defs[i], host)
  }

  /** (i, j) is the first pair, group by group, that accepts the host. */
  ghost predicate FirstHit(defs: seq<HostDef>, host: string, i: nat, j: nat) {
    Hit(defs, host, i, j) && forall k: nat, l: nat :: Hit(defs, host, k, l) ==> i < k || (i == k && j <= l)
  }

  /** Both domain lookups answer from pair (i, j), the first that accepts the host. */
  ghost predicate AnswersFrom(defs: seq<HostDef>, host: string, i: nat, j: nat) {
    && FirstHit(defs, host, i, j)
    && HostFor(defs, host) == Some(defs[i])
    && UpstreamHostFor(defs, host) == Some(defs[i].domainMap[j].1)
  }

  /** One of the first n groups bears the host as its own name. */
  ghost predicate NamedBefore(defs: seq<HostDef>, host: string, n: nat) {
    exists k: nat :: k < n && k < |defs| && IsName(defs[k], host)
  }

  /** Position (i, j) holds a pair of the table. */
  predicate IsPair(defs: seq<HostDef>, i: nat, j: nat) {
    i < |defs| && j < |defs[i].domainMap|
  }

  /** The client domain of pair (k, l) is neither equal to nor a label suffix of that of another pair (i, j). */
  predicate Apart(defs: seq<HostDef>, i: nat, j: nat, k: nat, l: nat) {
    IsPair(defs, i, j) && IsPair(defs, k, l) && (i != k || j != l) ==>
      !Matches(Normalize(defs[i].domainMap[j].0), Normalize(defs[k].domainMap[l].0))
  }

  ghost predicate LabelSuffixFree(defs: seq<HostDef>) {
    forall i: nat, j: nat, k: nat, l: nat :: Apart(defs, i, j, k, l)
  }

  /** Two names that differ only in letter case and in trailing dots. */
  ghost predicate SameHost(a: string, b: string) {
    exists n: nat, m: nat :: SameUpTo(a, n, b, m)
  }

  /** The first n and first m characters agree but for case, and only dots follow. */
  ghost predicate SameUpTo(a: string, n: nat, b: string, m: nat) {
    && n <= |a| && m <= |b| && Lower(a[..n]) == Lower(b[..m])
    && (forall i :: n <= i < |a| ==> a[i] == '.')
    && (forall i :: m <= i < |b| ==> b[i] == '.')
  }

  // ---- Normalization ----

  lemma {:induction false} TrimDotsAppend(s: string, n: nat)
    requires n <= |s| && forall i :: n <= i < |s| ==> s[i] == '.'
    ensures TrimDots(s) == TrimDots(s[..n])
    decreases |s|
  {
    if n < |s| {
      TrimDotsAppend(s[..|s| - 1], n);
      assert s[..|s| - 1][..n] == s[..n];
    } else {
      assert s[..n] == s;
    }
  }

  lemma LowerTakes(a: string, b: string, n: nat)
    requires Lower(a) == Lower(b) && n <= |a|
    ensures |a| == |b| && Lower(a[..n]) == Lower(b[..n])
    ensures forall i :: 0 <= i < |a| ==> (a[i] == '.' <==> b[i] == '.')
  {
    assert |Lower(a)| == |a| && |Lower(b)| == |b|;
    assert forall i :: 0 <= i < |a| ==> LowerChar(a[i]) == Lower(a)[i] == Lower(b)[i] == LowerChar(b[i]);
  }

  lemma {:induction false} TrimDotsCase(a: string, b: string)
    requires Lower(a) == Lower(b)
    ensures Lower(TrimDots(a)) == Lower(TrimDots(b))
    decreases |a|
  {
    LowerTakes(a, b, if a == "" then 0 else |a| - 1);
    if a != "" && a[|a| - 1] == '.' {
      TrimDotsCase(a[..|a| - 1], b[..|b| - 1]);
    }
  }

  /** Normalization identifies exactly the names that differ in case and trailing dots. */
  lemma NormalizeIdentifiesSameHost(a: string, b: string)
    ensures Normalize(a) == Normalize(b) <==> SameHost(a, b)
  {
    if SameHost(a, b) {
      var n: nat, m: nat :| SameUpTo(a, n, b, m);
      TrimDotsAppend(a, n);
      TrimDotsAppend(b, m);
      TrimDotsCase(a[..n], b[..m]);
    }
    if Normalize(a) == Normalize(b) {
      var n, m := |TrimDots(a)|, |TrimDots(b)|;
      assert a[..n] == TrimDots(a) && b[..m] == TrimDots(b);
      assert SameUpTo(a, n, b, m);
    }
  }

  lemma LowerIdempotent(s: string)
    ensures Lower(Lower(s)) == Lower(s)
  {
  }

  lemma NormalizeIdempotent(s: string)
    ensures Normalize(Normalize(s)) == Normalize(s)
  {
    var t := TrimDots(s);
    var u := Lower(t);
    assert u == "" || u[|u| - 1] != '.';
    assert TrimDots(u) == u;
    LowerIdempotent(t);
  }

  // ---- The three lookups ----

  lemma {:induction false} HitShift(defs: seq<HostDef>, host: string, i: nat, j: nat)
    requires defs != []
    ensures Hit(defs[1..], host, i, j) <==> Hit(defs, host, i + 1, j)
  {
    if i < |defs[1..]| {
      assert defs[1..][i] == defs[i + 1];
    }
  }

  lemma {:induction false} HostForFinds(defs: seq<HostDef>, host: string)
    ensures HostFor(defs, host).None? <==> UpstreamHostFor(defs, host).None?
    ensures HostFor(defs, host).None? ==> forall i: nat, j: nat :: !Hit(defs, host, i, j)
    ensures HostFor(defs, host).Some? ==> exists i: nat, j: nat :: AnswersFrom(defs, host, i, j)
  {
    if defs != [] {
      match EntryFor(defs[0].domainMap, Normalize(host)) {
        case Some(j) =>
          assert FirstHit(defs, host, 0, j);
          assert AnswersFrom(defs, host, 0, j);
        case None =>
          HostForFinds(defs[1..], host);
          forall k: nat, l: nat | Hit(defs, host, k, l)
            ensures k > 0 && Hit(defs[1..], host, k - 1, l)
          {
            assert k > 0;
            HitShift(defs, host, k - 1, l);
          }
          if HostFor(defs, host).Some? {
            var i: nat, j: nat :| AnswersFrom(defs[1..], host, i, j);
            HitShift(defs, host, i, j);
            assert AnswersFrom(defs, host, i + 1, j);
          }
      }
    }
  }

  lemma {:induction false} IndexOfFinds(defs: seq<HostDef>, host: string)
    ensures IndexOf(defs, host).None? ==> forall i: nat :: !Claims(defs, host, i)
    ensures IndexOf(defs, host).Some? ==>
              Claims(defs, host, IndexOf(defs, host).value)
              && forall k: nat :: k < IndexOf(defs, host).value ==> !Claims(defs, host, k)
  {
    if defs != [] {
      var e := EntryFor(defs[0].domainMap, Normalize(host));
      if IsName(defs[0], host) {
        assert Claims(defs, host, 0);
      } else if e.Some? {
        assert Hit(defs, host, 0, e.value);
        assert Claims(defs, host, 0);
      } else {
        IndexOfFinds(defs[1..], host);
        forall k: nat | Claims(defs, host, k)
          ensures k > 0 && Claims(defs[1..], host, k - 1)
        {
          assert k > 0;
          assert defs[1..][k - 1] == defs[k];
        }
        if IndexOf(defs, host).Some? {
          var i := IndexOf(defs[1..], host).value;
          assert defs[1..][i] == defs[i + 1];
        }
      }
    }
  }

  /** A group index is determined by being the first claimant. */
  lemma {:induction false} IndexOfIsFirstClaim(defs: seq<HostDef>, host: string, i: nat)
    ensures IndexOf(defs, host) == Some(i) <==>
            Claims(defs, host, i) && forall k: nat :: k < i ==> !Claims(defs, host, k)
  {
    IndexOfFinds(defs, host);
  }

  /** `host_for` and `upstream_host_for` name the same pair of the same group, and `index_of` agrees
      with them exactly when no group before that one (no group at all, if none accepts) bears the host as its name. */
  lemma {:induction false} LookupsAgree(defs: seq<HostDef>, host: string)
    ensures HostFor(defs, host).None? <==> UpstreamHostFor(defs, host).None?
    ensures HostFor(defs, host).None? ==>
              (IndexOf(defs, host).None? <==> !NamedBefore(defs, host, |defs|))
    ensures HostFor(defs, host).Some? ==> exists i: nat, j: nat :: AnswersFrom(defs, host, i, j)
    ensures forall i: nat, j: nat :: AnswersFrom(defs, host, i, j) ==>
              (IndexOf(defs, host) == Some(i) <==> !NamedBefore(defs, host, i))
  {
    HostForFinds(defs, host);
    IndexOfFinds(defs, host);
    if HostFor(defs, host).None? && IndexOf(defs, host).Some? {
      var k := IndexOf(defs, host).value;
      if !IsName(defs[k], host) {
        var j: nat :| Accepts(defs[k], host, j);
        assert Hit(defs, host, k, j);
      }
    }
    if HostFor(defs, host).None? && NamedBefore(defs, host, |defs|) {
      var k: nat :| k < |defs| && IsName(defs[k], host);
      assert Claims(defs, host, k);
    }
    forall i: nat, j: nat | AnswersFrom(defs, host, i, j)
      ensures IndexOf(defs, host) == Some(i) <==> !NamedBefore(defs, host, i)
    {
      IndexAgainstFirstHit(defs, host, i, j);
    }
  }

  /** A managed host always has a group index. */
  lemma {:induction false} ManagedHostHasIndex(defs: seq<HostDef>, host: string)
    requires HostFor(defs, host).Some?
    ensures IndexOf(defs, host).Some?
  {
    HostForFinds(defs, host);
    IndexOfFinds(defs, host);
    var i: nat, j: nat :| AnswersFrom(defs, host, i, j);
    assert Hit(defs, host, i, j);
    assert Claims(defs, host, i);
  }

  lemma {:induction false} IndexAgainstFirstHit(defs: seq<HostDef>, host: string, i: nat, j: nat)
    requires FirstHit(defs, host, i, j)
    ensures IndexOf(defs, host) == Some(i) <==> !NamedBefore(defs, host, i)
  {
    IndexOfIsFirstClaim(defs, host, i);
    assert Hit(defs, host, i, j);
    assert Claims(defs, host, i);
    forall k: nat | k < i
      ensures Claims(defs, host, k) <==> IsName(defs[k], host)
    {
      if Claims(defs, host, k) && !IsName(defs[k], host) {
        var l: nat :| Accepts(defs[k], host, l);
        assert Hit(defs, host, k, l);
      }
    }
  }

  /** Every lookup depends only on the name up to case and trailing dots. */
  lemma {:induction false} LookupsIgnoreCaseAndDots(defs: seq<HostDef>, a: string, b: string)
    requires SameHost(a, b)
    ensures HostFor(defs, a) == HostFor(defs, b)
    ensures UpstreamHostFor(defs, a) == UpstreamHostFor(defs, b)
    ensures IndexOf(defs, a) == IndexOf(defs, b)
  {
    NormalizeIdentifiesSameHost(a, b);
    if defs != [] {
      LookupsIgnoreCaseAndDots(defs[1..], a, b);
    }
  }

  // ---- Uniqueness ----

  /** Two suffixes of one string are nested: domains that match one host match one another. */
  lemma SuffixesNest(host: string, d: string, e: string)
    requires Matches(host, d) && Matches(host, e)
    ensures Matches(d, e) || Matches(e, d)
  {
    if |d| < |e| {
      NestInto(host, e, d);
    } else if |e| < |d| {
      NestInto(host, d, e);
    } else {
      TailIs(host, d);
      TailIs(host, e);
    }
  }

  /** Every subdomain of a domain matches it. */
  lemma SubdomainMatches(x: string, d: string)
    ensures Matches(x + "." + d, d)
  {
    var t := "." + d;
    assert x + "." + d == x + t;
    assert (x + t)[|x + t| - |t|..] == t;
  }

  lemma TailIs(host: string, d: string)
    requires Matches(host, d)
    ensures |d| <= |host| && host[|host| - |d|..] == d
    ensures host != d ==> |d| < |host| && host[|host| - |d| - 1] == '.'
  {
    if host != d {
      var t := "." + d;
      assert d == t[1..];
      assert host[|host| - |t|..][0] == '.';
      assert host[|host| - |d|..] == host[|host| - |t|..][1..];
    }
  }

  lemma NestInto(host: string, long: string, short: string)
    requires Matches(host, long) && Matches(host, short) && |short| < |long|
    ensures Matches(long, short)
  {
    TailIs(host, long);
    TailIs(host, short);
    var off := |host| - |long|;
    assert long == host[off..];
    var t := "." + short;
    assert long[|long| - |t|..] == host[|host| - |t|..];
    assert host[|host| - |t|..] == t;
  }

  /** On a label-suffix-free table every host string is accepted by at most one pair. */
  lemma {:induction false} AtMostOnePairMatches(defs: seq<HostDef>, host: string, i: nat, j: nat, k: nat, l: nat)
    requires LabelSuffixFree(defs) && Hit(defs, host, i, j) && Hit(defs, host, k, l)
    ensures i == k && j == l
  {
    SuffixesNest(Normalize(host), Normalize(defs[i].domainMap[j].0), Normalize(defs[k].domainMap[l].0));
    assert Apart(defs, i, j, k, l) && Apart(defs, k, l, i, j);
  }

  // ---- Rewriting ----

  /** Pair (i, l) maps the upstream host of pair (i, j) to itself. */
  predicate FixesUpstream(defs: seq<HostDef>, i: nat, j: nat, l: nat) {
    IsPair(defs, i, j) && IsPair(defs, i, l) && defs[i].domainMap[l] == (defs[i].domainMap[j].1, defs[i].domainMap[j].1)
  }

  /** The upstream host of pair (i, j) is a client domain of the same group, maps to itself and is no group's name. */
  ghost predicate UpstreamStays(defs: seq<HostDef>, i: nat, j: nat) {
    IsPair(defs, i, j) ==>
      (exists l: nat :: FixesUpstream(defs, i, j, l)) && !NamedBefore(defs, defs[i].domainMap[j].1, |defs|)
  }

  ghost predicate RewriteClosed(defs: seq<HostDef>) {
    forall i: nat, j: nat :: UpstreamStays(defs, i, j)
  }

  /** For every accepted host, subdomains included: the upstream host rewrites to itself and stays in the group,
      and the index lookup the connector makes on it yields the group the selector used for the original host. */
  lemma {:induction false} RewriteIsIdempotent(defs: seq<HostDef>, host: string)
    requires LabelSuffixFree(defs) && RewriteClosed(defs)
    requires HostFor(defs, host).Some?
    ensures UpstreamHostFor(defs, host).Some?
    ensures var up := UpstreamHostFor(defs, host).value;
            && UpstreamHostFor(defs, up) == Some(up)
            && HostFor(defs, up) == HostFor(defs, host)
            && (!NamedBefore(defs, host, |defs|) ==>
                  IndexOf(defs, up).Some? && IndexOf(defs, up) == IndexOf(defs, host))
  {
    LookupsAgree(defs, host);
    var i: nat, j: nat :| AnswersFrom(defs, host, i, j);
    UpstreamOfPair(defs, i, j);
    assert !NamedBefore(defs, host, |defs|) ==> !NamedBefore(defs, host, i);
  }

  /** The upstream host of pair (i, j) is answered from the pair that maps it to itself, in group i. */
  lemma {:induction false} UpstreamOfPair(defs: seq<HostDef>, i: nat, j: nat)
    requires LabelSuffixFree(defs) && RewriteClosed(defs)
    requires i < |defs| && j < |defs[i].domainMap|
    ensures var up := defs[i].domainMap[j].1;
            && UpstreamHostFor(defs, up) == Some(up)
            && HostFor(defs, up) == Some(defs[i])
            && IndexOf(defs, up) == Some(i)
  {
    var up := defs[i].domainMap[j].1;
    assert UpstreamStays(defs, i, j);
    var l: nat :| FixesUpstream(defs, i, j, l);
    assert Hit(defs, up, i, l);
    FirstHitIsOnlyHit(defs, up, i, l);
    assert !NamedBefore(defs, up, |defs|);
    assert !NamedBefore(defs, up, i);
    IndexAgainstFirstHit(defs, up, i, l);
  }

  lemma {:induction false} FirstHitIsOnlyHit(defs: seq<HostDef>, host: string, i: nat, j: nat)
    requires LabelSuffixFree(defs) && Hit(defs, host, i, j)
    ensures AnswersFrom(defs, host, i, j)
  {
    forall k: nat, l: nat | Hit(defs, host, k, l)
      ensures i == k && j == l
    {
      AtMostOnePairMatches(defs, host, i, j, k, l);
    }
    HostForFinds(defs, host);
  }

  /** A group's own name leads back to it exactly when it carries no trailing dot that normalization would
      strip (or some domain of its own matches it) and no earlier group claims it. */
  lemma {:induction false} NameResolvesExactly(defs: seq<HostDef>, i: nat)
    requires i < |defs|
    ensures IndexOf(defs, defs[i].name) == Some(i) <==>
            (TrimDots(defs[i].name) == defs[i].name || exists j: nat :: Accepts(defs[i], defs[i].name, j))
            && forall k: nat :: k < i ==> !Claims(defs, defs[i].name, k)
  {
    var name := defs[i].name;
    IndexOfIsFirstClaim(defs, name, i);
    if IsName(defs[i], name) {
      assert |Lower(name)| == |Lower(TrimDots(name))|;
      assert TrimDots(name) == name;
    }
  }
}
