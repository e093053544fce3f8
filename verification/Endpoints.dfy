/** The bundled endpoint table, the loading of its address lists, and pinning at start-up. */
module Endpoints {
  import opened Common
  import opened HostNames

  const ASSETS_DOMAINS: seq<(string, string)> := [
    ("assets1.xboxlive.com", "assets1.xboxlive.cn"),
    ("assets2.xboxlive.com", "assets2.xboxlive.cn"),
    ("d1.xboxlive.com", "assets1.xboxlive.cn"),
    ("d2.xboxlive.com", "assets2.xboxlive.cn"),
    ("xvcf1.xboxlive.com", "assets1.xboxlive.cn"),
    ("xvcf2.xboxlive.com", "assets2.xboxlive.cn"),
    ("assets1.xboxlive.cn", "assets1.xboxlive.cn"),
    ("assets2.xboxlive.cn", "assets2.xboxlive.cn"),
    ("d1.xboxlive.cn", "assets1.xboxlive.cn"),
    ("d2.xboxlive.cn", "assets2.xboxlive.cn")]

  const CONTENT_DOMAINS: seq<(string, string)> := [
    ("dlassets.xboxlive.com", "dlassets.xboxlive.cn"),
    ("dlassets2.xboxlive.com", "dlassets2.xboxlive.cn"),
    ("dlassets.xboxlive.cn", "dlassets.xboxlive.cn"),
    ("dlassets2.xboxlive.cn", "dlassets2.xboxlive.cn")]

  /** The two groups, over whatever address lists were loaded for them; test URLs are opaque texts here. */
  function Bundled(assets: seq<IpAddr>, content: seq<IpAddr>, assetsUrl: string, contentUrl: string): seq<HostDef> {
    [HostDef("xbox-assets", ASSETS_DOMAINS, assets, 80, assetsUrl),
     HostDef("xbox-content", CONTENT_DOMAINS, content, 80, contentUrl)]
  }

  function Domains(i: nat): seq<(string, string)>
    requires i < 2
  {
    if i == 0 then ASSETS_DOMAINS else CONTENT_DOMAINS
  }

  /** A lower-case name with exactly two dots, at p and q, neither of them last. */
  predicate TwoDots(s: string, p: nat, q: nat) {
    && p < q < |s| - 1
    && s[p] == '.' && s[q] == '.'
    && (forall k :: 0 <= k < |s| && k != p && k != q ==> s[k] != '.')
    && (forall k :: 0 <= k < |s| ==> !('A' <= s[k] <= 'Z'))
  }

  function Signature(s: string): (nat, char, char, char, char)
    requires |s| > 8
  {
    (|s|, s[1], s[4], s[6], s[8])
  }

  function DotAt(i: nat, j: nat): nat {
    if i == 0 then
      if j == 2 || j == 3 || j == 8 || j == 9 then 2 else if j == 4 || j == 5 then 5 else 7
    else if j == 0 || j == 2 then 8 else 9
  }

  lemma AssetsShape(j: nat)
    requires j < |ASSETS_DOMAINS|
    ensures TwoDots(ASSETS_DOMAINS[j].0, DotAt(0, j), DotAt(0, j) + 9)
  {
    if j < 3 {
      AssetsShapeFirst(j);
    } else if j < 6 {
      AssetsShapeSecond(j);
    } else {
      AssetsShapeThird(j);
    }
  }

  lemma AssetsShapeFirst(j: nat)
    requires j < 3
    ensures TwoDots(ASSETS_DOMAINS[j].0, DotAt(0, j), DotAt(0, j) + 9)
  {
  }

  lemma AssetsShapeSecond(j: nat)
    requires 3 <= j < 6
    ensures TwoDots(ASSETS_DOMAINS[j].0, DotAt(0, j), DotAt(0, j) + 9)
  {
  }

  lemma AssetsShapeThird(j: nat)
    requires 6 <= j < |ASSETS_DOMAINS|
    ensures TwoDots(ASSETS_DOMAINS[j].0, DotAt(0, j), DotAt(0, j) + 9)
  {
  }

  lemma ContentShape(j: nat)
    requires j < |CONTENT_DOMAINS|
    ensures TwoDots(CONTENT_DOMAINS[j].0, DotAt(1, j), DotAt(1, j) + 9)
  {
  }

  lemma ClientsDistinct(i: nat, j: nat, k: nat, l: nat)
    requires i < 2 && k < 2 && j < |Domains(i)| && l < |Domains(k)| && (i != k || j != l)
    ensures Domains(i)[j].0 != Domains(k)[l].0
  {
    var a, b := Domains(i)[j].0, Domains(k)[l].0;
    assert Signature(a) != Signature(b);
  }

  lemma TwoDotsNormal(s: string, p: nat, q: nat)
    requires TwoDots(s, p, q)
    ensures Normalize(s) == s
  {
    assert TrimDots(s) == s;
    assert forall k :: 0 <= k < |s| ==> LowerChar(s[k]) == s[k];
  }

  /** A proper label suffix has fewer dots, so two names with two dots match only when equal. */
  lemma EqualDotsMatchOnlyEqual(a: string, p: nat, q: nat, b: string, u: nat, v: nat)
    requires TwoDots(a, p, q) && TwoDots(b, u, v) && Matches(a, b)
    ensures a == b
  {
    TailIs(a, b);
    var off := |a| - |b|;
    assert a[off + u] == a[off..][u] == '.';
    assert a[off + v] == a[off..][v] == '.';
  }

  lemma ClientsApart(i: nat, j: nat, k: nat, l: nat)
    requires i < 2 && k < 2 && j < |Domains(i)| && l < |Domains(k)| && (i != k || j != l)
    ensures !Matches(Normalize(Domains(i)[j].0), Normalize(Domains(k)[l].0))
  {
    hide TwoDots, Normalize, Matches, Domains;
    var a, b := Domains(i)[j].0, Domains(k)[l].0;
    Shape(i, j);
    Shape(k, l);
    TwoDotsNormal(a, DotAt(i, j), DotAt(i, j) + 9);
    TwoDotsNormal(b, DotAt(k, l), DotAt(k, l) + 9);
    ClientsDistinct(i, j, k, l);
    if Matches(a, b) {
      EqualDotsMatchOnlyEqual(a, DotAt(i, j), DotAt(i, j) + 9, b, DotAt(k, l), DotAt(k, l) + 9);
    }
  }

  /** No host string can be accepted by two of the fourteen pairs. */
  lemma {:induction false} BundledSuffixFree(defs: seq<HostDef>)
    requires IsBundled(defs)
    ensures LabelSuffixFree(defs)
  {
    hide Normalize, Matches;
    forall i: nat, j: nat, k: nat, l: nat
      ensures Apart(defs, i, j, k, l)
    {
      if IsPair(defs, i, j) && IsPair(defs, k, l) && (i != k || j != l) {
        ClientsApart(i, j, k, l);
      }
    }
  }

  lemma Shape(i: nat, j: nat)
    requires i < 2 && j < |Domains(i)|
    ensures TwoDots(Domains(i)[j].0, DotAt(i, j), DotAt(i, j) + 9)
  {
    if i == 0 {
      AssetsShape(j);
    } else {
      ContentShape(j);
    }
  }

  /** The loaded definitions: the two bundled groups, with any address lists and test URLs. */
  predicate IsBundled(defs: seq<HostDef>) {
    && |defs| == 2
    && defs[0].name == "xbox-assets" && defs[0].domainMap == ASSETS_DOMAINS
    && defs[1].name == "xbox-content" && defs[1].domainMap == CONTENT_DOMAINS
  }

  function SelfPair(i: nat, j: nat): nat {
    if i == 0 then
      if j == 0 || j == 2 || j == 4 || j == 6 || j == 8 then 6 else 7
    else if j == 0 || j == 2 then 2 else 3
  }

  lemma SelfPairFixes(i: nat, j: nat)
    requires i < 2 && j < |Domains(i)|
    ensures SelfPair(i, j) < |Domains(i)|
    ensures Domains(i)[SelfPair(i, j)] == (Domains(i)[j].1, Domains(i)[j].1)
  {
  }

  predicate Plain(name: string) {
    forall c :: 0 <= c < |name| ==> name[c] != '.' && LowerChar(name[c]) == name[c]
  }

  lemma BundledNamePlain(name: string)
    requires name == "xbox-assets" || name == "xbox-content"
    ensures Plain(name) && TrimDots(name) == name && Normalize(name) == name
  {
  }

  /** A name without dots is not borne by a host with a dot before its end. */
  lemma DottedHostIsNotName(def: HostDef, host: string, p: nat)
    requires Plain(def.name) && p < |Normalize(host)| && Normalize(host)[p] == '.'
    ensures !IsName(def, host)
  {
    assert forall c :: 0 <= c < |def.name| ==> Lower(def.name)[c] != '.';
  }

  lemma {:induction false} NoBundledName(defs: seq<HostDef>, host: string, p: nat)
    requires IsBundled(defs) && p < |Normalize(host)| && Normalize(host)[p] == '.'
    ensures !NamedBefore(defs, host, |defs|)
  {
    forall k: nat | k < |defs|
      ensures !IsName(defs[k], host)
    {
      BundledNamePlain(defs[k].name);
      DottedHostIsNotName(defs[k], host, p);
    }
  }

  /** Every upstream host of the table maps to itself within its group. */
  lemma {:induction false} BundledRewriteClosed(defs: seq<HostDef>)
    requires IsBundled(defs)
    ensures RewriteClosed(defs)
  {
    forall i: nat, j: nat
      ensures UpstreamStays(defs, i, j)
    {
      if IsPair(defs, i, j) {
        var l := SelfPair(i, j);
        SelfPairFixes(i, j);
        assert FixesUpstream(defs, i, j, l);
        var up := defs[i].domainMap[j].1;
        Shape(i, l);
        TwoDotsNormal(up, DotAt(i, l), DotAt(i, l) + 9);
        NoBundledName(defs, up, DotAt(i, l));
      }
    }
  }

  lemma DotCarriesOver(host: string, d: string, p: nat)
    requires Matches(host, d) && p < |d| && d[p] == '.'
    ensures |d| <= |host| && host[|host| - |d| + p] == '.'
  {
    TailIs(host, d);
    assert host[|host| - |d|..][p] == '.';
  }

  lemma {:induction false} AcceptedHostHasDot(defs: seq<HostDef>, host: string, i: nat, j: nat)
    requires IsBundled(defs) && Hit(defs, host, i, j)
    ensures !NamedBefore(defs, host, |defs|)
  {
    var h, d, p := Normalize(host), Domains(i)[j].0, DotAt(i, j);
    Shape(i, j);
    TwoDotsNormal(d, p, p + 9);
    DotCarriesOver(h, d, p);
    NoBundledName(defs, host, |h| - |d| + p);
  }

  /** On the bundled table, for every accepted host (subdomains included): exactly one pair accepts it, its upstream
      host rewrites to itself within the same group, and the index lookups of both hosts give that group. */
  lemma {:induction false} BundledRewrite(defs: seq<HostDef>, host: string)
    requires IsBundled(defs) && HostFor(defs, host).Some?
    ensures UpstreamHostFor(defs, host).Some?
    ensures var up := UpstreamHostFor(defs, host).value;
            && UpstreamHostFor(defs, up) == Some(up)
            && HostFor(defs, up) == HostFor(defs, host)
            && IndexOf(defs, up).Some? && IndexOf(defs, up) == IndexOf(defs, host)
    ensures exists i: nat, j: nat :: AnswersFrom(defs, host, i, j) && IndexOf(defs, host) == Some(i)
                                     && forall k: nat, l: nat :: Hit(defs, host, k, l) ==> k == i && l == j
  {
    BundledSuffixFree(defs);
    BundledRewriteClosed(defs);
    LookupsAgree(defs, host);
    var i: nat, j: nat :| AnswersFrom(defs, host, i, j);
    AcceptedHostHasDot(defs, host, i, j);
    RewriteIsIdempotent(defs, host);
    forall k: nat, l: nat | Hit(defs, host, k, l)
      ensures k == i && l == j
    {
      AtMostOnePairMatches(defs, host, i, j, k, l);
    }
  }

  /** Every client domain of the table is accepted, for its own group. */
  lemma {:induction false} AllFourteenAccepted(defs: seq<HostDef>, i: nat, j: nat)
    requires IsBundled(defs) && IsPair(defs, i, j)
    ensures HostFor(defs, Domains(i)[j].0) == Some(defs[i])
    ensures UpstreamHostFor(defs, Domains(i)[j].0) == Some(Domains(i)[j].1)
  {
    hide Normalize, Domains;
    BundledSuffixFree(defs);
    assert defs[i].domainMap == Domains(i) by {
      BundledDomains(defs, i);
    }
    assert Hit(defs, Domains(i)[j].0, i, j);
    FirstHitIsOnlyHit(defs, Domains(i)[j].0, i, j);
  }

  /** The odd positions of either table lead to its second upstream host, the others to its first. */
  lemma {:induction false} UpstreamsAre(defs: seq<HostDef>, i: nat, j: nat)
    requires IsBundled(defs) && IsPair(defs, i, j)
    ensures UpstreamHostFor(defs, Domains(i)[j].0)
         == Some(if i == 0 then if j % 2 == 0 then "assets1.xboxlive.cn" else "assets2.xboxlive.cn"
                 else if j % 2 == 0 then "dlassets.xboxlive.cn" else "dlassets2.xboxlive.cn")
  {
    hide HostFor, UpstreamHostFor;
    AllFourteenAccepted(defs, i, j);
  }

  lemma NormalSubdomain(x: string, d: string, p: nat, q: nat)
    requires TwoDots(d, p, q)
    ensures Normalize(x + "." + d) == Lower(x) + "." + d
  {
    var host := x + "." + d;
    assert host[|host| - 1] == d[|d| - 1] != '.';
    assert TrimDots(host) == host;
    assert forall k :: 0 <= k < |d| ==> LowerChar(d[k]) == d[k];
    var offset := |x| + 1;
    forall k | 0 <= k < |host|
      ensures Lower(host)[k] == (Lower(x) + "." + d)[k]
    {
      assert k >= offset ==> host[k] == d[k - offset];
    }
  }

  /** And so is every subdomain of it, in any spelling of the front. */
  lemma {:induction false} SubdomainsAccepted(defs: seq<HostDef>, i: nat, j: nat, x: string)
    requires IsBundled(defs) && IsPair(defs, i, j)
    ensures HostFor(defs, x + "." + Domains(i)[j].0) == Some(defs[i])
    ensures UpstreamHostFor(defs, x + "." + Domains(i)[j].0) == Some(Domains(i)[j].1)
  {
    hide Normalize, Matches, Domains, TwoDots;
    BundledDomains(defs, i);
    var d := Domains(i)[j].0;
    BundledSuffixFree(defs);
    Shape(i, j);
    NormalSubdomain(x, d, DotAt(i, j), DotAt(i, j) + 9);
    TwoDotsNormal(d, DotAt(i, j), DotAt(i, j) + 9);
    SubdomainMatches(Lower(x), d);
    assert Hit(defs, x + "." + d, i, j);
    FirstHitIsOnlyHit(defs, x + "." + d, i, j);
  }

  lemma {:induction false} BundledDomains(defs: seq<HostDef>, i: nat)
    requires IsBundled(defs) && i < 2
    ensures defs[i].domainMap == Domains(i)
  {
  }

  /** The hosts the documentation names. */
  const DOCUMENTED: seq<string> := [
    "assets1.xboxlive.com", "assets2.xboxlive.com", "d1.xboxlive.com", "d2.xboxlive.com",
    "dlassets.xboxlive.com", "dlassets2.xboxlive.com"]

  function DocumentedAt(k: nat): (nat, nat) {
    if k < 4 then (0, k) else if k == 4 then (1, 0) else (1, 1)
  }

  lemma DocumentedIsClient(k: nat)
    requires k < |DOCUMENTED|
    ensures DocumentedAt(k).0 < 2 && DocumentedAt(k).1 < |Domains(DocumentedAt(k).0)| && DocumentedAt(k) != (0, 4)
    ensures DOCUMENTED[k] == Domains(DocumentedAt(k).0)[DocumentedAt(k).1].0
  {
  }

  lemma ExtraIsClient()
    ensures |Domains(0)| > 4 && Domains(0)[4].0 == "xvcf1.xboxlive.com"
  {
  }

  /** They are not the only ones accepted: at least this one is, which is none of them and a subdomain of none. */
  lemma {:induction false} MoreThanDocumented(defs: seq<HostDef>)
    requires IsBundled(defs)
    ensures HostFor(defs, "xvcf1.xboxlive.com") == Some(defs[0])
    ensures forall k :: 0 <= k < |DOCUMENTED| ==> !Matches(Normalize("xvcf1.xboxlive.com"), Normalize(DOCUMENTED[k]))
  {
    hide *;
    ExtraIsClient();
    ExtraIsPair(defs);
    AllFourteenAccepted(defs, 0, 4);
    forall k | 0 <= k < |DOCUMENTED|
      ensures !Matches(Normalize("xvcf1.xboxlive.com"), Normalize(DOCUMENTED[k]))
    {
      DocumentedIsClient(k);
      ClientsApart(0, 4, DocumentedAt(k).0, DocumentedAt(k).1);
    }
  }

  lemma {:induction false} ExtraIsPair(defs: seq<HostDef>)
    requires IsBundled(defs)
    ensures |defs| > 0 && IsPair(defs, 0, 4)
  {
  }

  /** Both group names lead back to their own group. */
  lemma {:induction false} BundledNamesResolve(defs: seq<HostDef>, i: nat)
    requires IsBundled(defs) && i < 2
    ensures IndexOf(defs, defs[i].name) == Some(i)
  {
    var name := defs[i].name;
    BundledNamePlain(name);
    NameResolvesExactly(defs, i);
    if i == 1 {
      assert |Lower(defs[0].name)| != |name|;
      forall j: nat
        ensures !Accepts(defs[0], name, j)
      {
        if j < |ASSETS_DOMAINS| {
          PlainMatchesNoDomain(name, j);
        }
      }
      assert !Claims(defs, name, 0);
    }
  }

  lemma PlainMatchesNoDomain(name: string, j: nat)
    requires Plain(name) && j < |ASSETS_DOMAINS|
    ensures !Matches(name, Normalize(ASSETS_DOMAINS[j].0))
  {
    var d, p := ASSETS_DOMAINS[j].0, DotAt(0, j);
    Shape(0, j);
    TwoDotsNormal(d, p, p + 9);
    if Matches(name, d) {
      DotCarriesOver(name, d, p);
    }
  }

  // ---- Loading ----

  /** Each address once, at its first position. */
  function FirstOccurrences(ips: seq<IpAddr>): (r: seq<IpAddr>)
    ensures forall x :: x in r <==> x in ips
    ensures Distinct(r)
  {
    if ips == [] then []
    else
      var front := FirstOccurrences(ips[..|ips| - 1]);
      assert ips == ips[..|ips| - 1] + [ips[|ips| - 1]];
      if ips[|ips| - 1] in front then front else front + [ips[|ips| - 1]]
  }

  /** The order is that of first occurrence: an address comes before another exactly when it does so in the list. */
  lemma {:induction false} FirstOccurrencesKeepOrder(ips: seq<IpAddr>, i: nat, j: nat)
    requires i < j < |FirstOccurrences(ips)|
    ensures exists p: nat ::
              p < |ips| && ips[p] == FirstOccurrences(ips)[i] && FirstOccurrences(ips)[j] !in ips[..p + 1]
  {
    var init := ips[..|ips| - 1];
    var front := FirstOccurrences(init);
    if j < |front| {
      FirstOccurrencesKeepOrder(init, i, j);
      var p: nat :| p < |init| && init[p] == front[i] && front[j] !in init[..p + 1];
      assert ips[..p + 1] == init[..p + 1];
    } else {
      assert front[i] in init;
      var p: nat :| p < |init| && init[p] == front[i];
      assert ips[..p + 1] <= init;
      assert ips[p] == front[i];
    }
  }

  /** Collects the parsed lines of one list (None where a line holds no address), then drops repeats;
      an empty list is the loader's error. */
  method LoadIps(parsed: seq<Option<IpAddr>>) returns (r: Option<seq<IpAddr>>)
    ensures r.None? <==> forall i :: 0 <= i < |parsed| ==> parsed[i].None?
    ensures r.Some? ==> r.value != [] && Distinct(r.value)
                        && r.value == FirstOccurrences(Addresses(parsed))
                        && forall ip :: ip in r.value <==> Some(ip) in parsed
  {
    hide Addresses, FirstOccurrences;
    var ips := CollectAddresses(parsed);
    var kept := DropRepeats(ips);
    AddressesAre(parsed);
    assert forall i :: 0 <= i < |parsed| && parsed[i].Some? ==> parsed[i].value in kept;
    if kept == [] {
      return None;
    }
    assert Some(kept[0]) in parsed;
    return Some(kept);
  }

  method CollectAddresses(parsed: seq<Option<IpAddr>>) returns (ips: seq<IpAddr>)
    ensures ips == Addresses(parsed)
  {
    ips := [];
    for i := 0 to |parsed|
      invariant ips == Addresses(parsed[..i])
    {
      assert parsed[..i + 1][..i] == parsed[..i];
      if parsed[i].Some? {
        ips := ips + [parsed[i].value];
      }
    }
    assert parsed[..|parsed|] == parsed;
  }

  /** Keeps an address when it enters the set of those seen. */
  method DropRepeats(ips: seq<IpAddr>) returns (kept: seq<IpAddr>)
    ensures kept == FirstOccurrences(ips)
  {
    var seen: set<IpAddr> := {};
    kept := [];
    for i := 0 to |ips|
      invariant kept == FirstOccurrences(ips[..i])
      invariant forall ip :: ip in seen <==> ip in kept
    {
      assert ips[..i + 1][..i] == ips[..i];
      if ips[i] !in seen {
        seen := seen + {ips[i]};
        kept := kept + [ips[i]];
      }
    }
    assert ips[..|ips|] == ips;
  }

  /** Loads both groups, or fails when either list holds no address: the table is the bundled one, every list is
      non-empty and free of repeats, and it holds exactly the addresses of its lines. */
  method LoadBundled(assets: seq<Option<IpAddr>>, content: seq<Option<IpAddr>>, assetsUrl: string, contentUrl: string)
    returns (r: Option<seq<HostDef>>)
    ensures r.None? <==>
              || (forall i :: 0 <= i < |assets| ==> assets[i].None?)
              || (forall i :: 0 <= i < |content| ==> content[i].None?)
    ensures r.Some? ==>
              && IsBundled(r.value)
              && (forall i :: 0 <= i < 2 ==>
                    r.value[i].ips != [] && Distinct(r.value[i].ips) && r.value[i].upstreamPort == 80)
              && r.value[0].testUrl == assetsUrl && r.value[1].testUrl == contentUrl
              && (forall ip :: ip in r.value[0].ips <==> Some(ip) in assets)
              && (forall ip :: ip in r.value[1].ips <==> Some(ip) in content)
  {
    hide Addresses, FirstOccurrences;
    var first := LoadIps(assets);
    if first.None? {
      return None;
    }
    var second := LoadIps(content);
    if second.None? {
      return None;
    }
    r := Some(Bundled(first.value, second.value, assetsUrl, contentUrl));
  }

  function Addresses(parsed: seq<Option<IpAddr>>): seq<IpAddr> {
    if parsed == [] then []
    else Addresses(parsed[..|parsed| - 1])
         + if parsed[|parsed| - 1].Some? then [parsed[|parsed| - 1].value] else []
  }

  function HasAddress(): Option<IpAddr> -> bool {
    (line: Option<IpAddr>) => line.Some?
  }

  /** The addresses are those of the lines that have one, in line order. */
  lemma {:induction false} AddressesInOrder(parsed: seq<Option<IpAddr>>)
    ensures var at := Positions(parsed, HasAddress());
            && Selects(parsed, HasAddress(), at) && |at| == |Addresses(parsed)|
            && forall k :: 0 <= k < |at| ==> at[k] < |parsed| && parsed[at[k]] == Some(Addresses(parsed)[k])
  {
    PositionsSelect(parsed, HasAddress());
    hide Selects;
    if parsed != [] {
      AddressesInOrder(parsed[..|parsed| - 1]);
    }
  }

  lemma {:induction false} AddressesAre(parsed: seq<Option<IpAddr>>)
    ensures forall ip :: ip in Addresses(parsed) <==> Some(ip) in parsed
  {
    if parsed != [] {
      AddressesAre(parsed[..|parsed| - 1]);
      assert parsed == parsed[..|parsed| - 1] + [parsed[|parsed| - 1]];
    }
  }

  /** Start-up pinning: overwrites the addresses of the first group with exactly this name, in place. */
  method PinGroup(hosts: array<HostDef>, name: string, ip: IpAddr)
    modifies hosts
    ensures forall i :: 0 <= i < hosts.Length ==>
              hosts[i] == if old(hosts[i].name) == name && (forall k :: 0 <= k < i ==> old(hosts[k].name) != name)
                          then old(hosts[i]).(ips := [ip]) else old(hosts[i])
  {
    var i := 0;
    while i < hosts.Length && hosts[i].name != name
      invariant 0 <= i <= hosts.Length
      invariant forall k :: 0 <= k < i ==> old(hosts[k].name) != name
      invariant hosts[..] == old(hosts[..])
    {
      i := i + 1;
    }
    assert forall k :: 0 <= k < hosts.Length ==> hosts[k] == old(hosts[..])[k];
    if i < hosts.Length {
      hosts[i] := hosts[i].(ips := [ip]);
    }
  }
}
