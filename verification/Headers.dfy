/** Header forwarding in both directions: hop-by-hop headers (section 7.6.1 of RFC 9110) never cross the proxy. */
module Headers {
  import opened Common
  import opened HostNames

  /** Header names are always lower-case; a header with several values appears once per value. */
  type HeaderName = n: string | Lower(n) == n

  datatype Header = Header(name: HeaderName, value: string)

  const HOP_BY_HOP: set<string> := {
    "connection", "keep-alive", "proxy-authenticate", "proxy-authorization", "proxy-connection", "te", "trailer",
    "transfer-encoding", "upgrade"}

  predicate IsHopByHop(name: string) {
    Lower(name) in HOP_BY_HOP
  }

  /** The value can be read as text: visible ASCII and tabs only. */
  predicate IsText(value: string) {
    forall c :: c in value ==> ' ' <= c <= '~' || c == '\t'
  }

  predicate IsSpace(c: char) {
    c == ' ' || c == '\t'
  }

  /** `trim`, on text values: the stretch between the blanks at either end. */
  function Trim(s: string): (r: string)
    ensures r == "" || (!IsSpace(r[0]) && !IsSpace(r[|r| - 1]))
    ensures IsTrimmed(s, r)
  {
    if s == "" then
      assert IsMiddle(s, 0, 0);
      s
    else if IsSpace(s[0]) then
      var r := Trim(s[1..]);
      TrimFront(s, r);
      r
    else if IsSpace(s[|s| - 1]) then
      var r := Trim(s[..|s| - 1]);
      TrimBack(s, r);
      r
    else
      assert IsMiddle(s, 0, |s|) && s == s[0..|s|];
      s
  }

  /** Only blanks stand before i and from j on. */
  predicate IsMiddle(s: string, i: int, j: int) {
    && 0 <= i <= j <= |s|
    && (forall k :: 0 <= k < i ==> s[k] == ' ' || s[k] == '\t')
    && (forall k :: j <= k < |s| ==> s[k] == ' ' || s[k] == '\t')
  }

  ghost predicate IsTrimmed(s: string, r: string) {
    exists i, j :: IsMiddle(s, i, j) && r == s[i..j]
  }

  lemma TrimFront(s: string, r: string)
    requires s != "" && IsSpace(s[0])
    requires IsTrimmed(s[1..], r)
    ensures IsTrimmed(s, r)
  {
    var i, j :| IsMiddle(s[1..], i, j) && r == s[1..][i..j];
    assert forall k :: 0 < k < |s| ==> s[k] == s[1..][k - 1];
    assert IsMiddle(s, i + 1, j + 1) && r == s[i + 1..j + 1];
  }

  lemma TrimBack(s: string, r: string)
    requires s != "" && IsSpace(s[|s| - 1])
    requires IsTrimmed(s[..|s| - 1], r)
    ensures IsTrimmed(s, r)
  {
    var i, j :| IsMiddle(s[..|s| - 1], i, j) && r == s[..|s| - 1][i..j];
    assert forall k :: 0 <= k < |s| - 1 ==> s[k] == s[..|s| - 1][k];
    assert IsMiddle(s, i, j) && r == s[i..j];
  }

  /** The position of the first comma from i on, or the end. */
  function NextComma(s: string, i: nat): (j: nat)
    requires i <= |s|
    ensures i <= j <= |s| && (j == |s| || s[j] == ',') && forall k :: i <= k < j ==> s[k] != ','
    decreases |s| - i
  {
    if i == |s| || s[i] == ',' then i else NextComma(s, i + 1)
  }

  /** The parts from position i on. */
  function SplitFrom(s: string, i: nat): seq<string>
    requires i <= |s|
    decreases |s| - i
  {
    var j := NextComma(s, i);
    [s[i..j]] + if j == |s| then [] else SplitFrom(s, j + 1)
  }

  /** `split(',')`. */
  function Split(s: string): seq<string> {
    SplitFrom(s, 0)
  }

  /** The names that the Connection headers list. */
  function ConnectionTokens(headers: seq<Header>): set<string> {
    set h, part | h in headers && h.name == "connection" && IsText(h.value)
                  && part in Split(h.value) && Trim(part) != "" :: Lower(Trim(part))
  }

  /** The hop-by-hop headers, one by one, in any spelling. */
  lemma HopByHopNames(name: string)
    ensures IsHopByHop(name) <==>
              var n := Lower(name);
              || n == "connection" || n == "keep-alive" || n == "proxy-authenticate" || n == "proxy-authorization"
              || n == "proxy-connection" || n == "te" || n == "trailer" || n == "transfer-encoding" || n == "upgrade"
  {
  }

  predicate ShouldStrip(name: string, connection: set<string>) {
    IsHopByHop(name) || name in connection
  }

  // ---- What a Connection header lists, without splitting ----

  /** The stretch between i and j is one comma-separated element of the value. */
  predicate IsElement(value: string, i: nat, j: nat) {
    && i <= j <= |value|
    && (i == 0 || value[i - 1] == ',') && (j == |value| || value[j] == ',')
    && forall k :: i <= k < j ==> value[k] != ','
  }

  /** Every character is a tab or one from the blank to the tilde. */
  predicate Readable(value: string) {
    forall k :: 0 <= k < |value| ==> value[k] == '\t' || ' ' <= value[k] <= '~'
  }

  lemma ReadableIsText(value: string)
    ensures Readable(value) <==> IsText(value)
  {
    assert Readable(value) ==> forall c :: c in value ==> ' ' <= c <= '~' || c == '\t';
    assert forall k :: 0 <= k < |value| ==> value[k] in value;
  }

  ghost predicate Lists(headers: seq<Header>, token: string) {
    exists h: Header, i: nat, j: nat :: h in headers && h.name == "connection" && Readable(h.value)
                                        && IsElement(h.value, i, j) && Names(h.value, i, j, token)
  }

  predicate Names(value: string, i: nat, j: nat, token: string) {
    i <= j <= |value| && Trim(value[i..j]) != "" && Lower(Trim(value[i..j])) == token
  }

  lemma {:induction false} PartIsElement(s: string, from: nat, part: string) returns (i: nat, j: nat)
    requires from <= |s| && (from == 0 || s[from - 1] == ',') && part in SplitFrom(s, from)
    ensures IsElement(s, i, j) && s[i..j] == part
    decreases |s| - from
  {
    i, j := from, NextComma(s, from);
    if part != s[i..j] {
      i, j := PartIsElement(s, j + 1, part);
    }
  }

  lemma {:induction false} ElementIsPart(s: string, from: nat, i: nat, j: nat)
    requires from <= i && IsElement(s, i, j)
    ensures s[i..j] in SplitFrom(s, from)
    decreases |s| - from
  {
    hide SplitFrom;
    if i == from {
      FirstCommaIs(s, from, j);
      SplitHead(s, from);
    } else {
      NoLaterThanComma(s, from, i - 1);
      ElementIsPart(s, NextComma(s, from) + 1, i, j);
      SplitStep(s, from);
    }
  }

  lemma SplitHead(s: string, from: nat)
    requires from <= |s|
    ensures s[from..NextComma(s, from)] in SplitFrom(s, from)
  {
    assert SplitFrom(s, from)[0] == s[from..NextComma(s, from)];
  }

  lemma SplitStep(s: string, from: nat)
    requires from <= |s| && NextComma(s, from) < |s|
    ensures forall part :: part in SplitFrom(s, NextComma(s, from) + 1) ==> part in SplitFrom(s, from)
  {
    var rest := SplitFrom(s, NextComma(s, from) + 1);
    assert SplitFrom(s, from) == [s[from..NextComma(s, from)]] + rest;
  }

  lemma FirstCommaIs(s: string, from: nat, j: nat)
    requires from <= j <= |s| && (j == |s| || s[j] == ',') && forall k :: from <= k < j ==> s[k] != ','
    ensures NextComma(s, from) == j
    decreases j - from
  {
    if from < j {
      FirstCommaIs(s, from + 1, j);
    }
  }

  lemma NoLaterThanComma(s: string, from: nat, p: nat)
    requires from <= p < |s| && s[p] == ','
    ensures NextComma(s, from) <= p
    decreases p - from
  {
    if from < p {
      NoLaterThanComma(s, from + 1, p);
    }
  }

  /** The tokens are exactly the names that some Connection header lists between commas. */
  lemma TokensAreListed(headers: seq<Header>, token: string)
    ensures token in ConnectionTokens(headers) <==> Lists(headers, token)
  {
    if token in ConnectionTokens(headers) {
      var h, part :| h in headers && h.name == "connection" && IsText(h.value)
                     && part in Split(h.value) && Trim(part) != "" && Lower(Trim(part)) == token;
      ReadableIsText(h.value);
      var i, j := PartIsElement(h.value, 0, part);
      assert Names(h.value, i, j, token);
    }
    if Lists(headers, token) {
      var h: Header, i: nat, j: nat :| h in headers && h.name == "connection" && Readable(h.value)
                                       && IsElement(h.value, i, j) && Names(h.value, i, j, token);
      ReadableIsText(h.value);
      ElementIsPart(h.value, 0, i, j);
      assert h.value[i..j] in Split(h.value);
    }
  }

  // ---- Responses ----

  function Passes(connection: set<string>): Header -> bool {
    (h: Header) => !ShouldStrip(h.name, connection)
  }

  /** The headers that are not stripped, in order. */
  function Kept(headers: seq<Header>, connection: set<string>): (r: seq<Header>)
    ensures forall h :: h in r <==> h in headers && !ShouldStrip(h.name, connection)
  {
    FilterMembers(headers, Passes(connection));
    Filter(headers, Passes(connection))
  }

  method CopyResponseHeaders(upstream: seq<Header>) returns (reply: seq<Header>)
    ensures reply == Kept(upstream, ConnectionTokens(upstream))
  {
    var connection := ConnectionTokens(upstream);
    reply := [];
    for i := 0 to |upstream|
      invariant reply == Kept(upstream[..i], connection)
    {
      assert upstream[..i + 1][..i] == upstream[..i];
      if ShouldStrip(upstream[i].name, connection) {
        continue;
      }
      reply := reply + [upstream[i]];
    }
    assert upstream[..|upstream|] == upstream;
  }

  /** What is kept is the subsequence of exactly the headers not stripped: order and multiplicity are preserved. */
  lemma KeptIsSubsequence(headers: seq<Header>, connection: set<string>)
    ensures exists at ::
              Selects(headers, Passes(connection), at) && ReadsAs(headers, at, Kept(headers, connection))
  {
    hide Selects, ReadsAs;
    FilterIsSubsequence(headers, Passes(connection));
  }

  lemma ConnectionIsHopByHop()
    ensures IsHopByHop("connection")
  {
    assert Lower("connection") == "connection";
  }

  /** A reply never carries a hop-by-hop header nor one that any of the upstream's Connection headers lists, it carries
      every other, and filtering it again (with its own Connection headers, of which there are none) changes nothing. */
  lemma ResponseFiltered(upstream: seq<Header>)
    ensures var reply := Kept(upstream, ConnectionTokens(upstream));
            && (forall h :: h in reply <==> h in upstream && !IsHopByHop(h.name) && !Lists(upstream, h.name))
            && Kept(reply, ConnectionTokens(reply)) == reply
  {
    var connection := ConnectionTokens(upstream);
    var reply := Kept(upstream, connection);
    forall h | h in upstream
      ensures h.name in connection <==> Lists(upstream, h.name)
    {
      TokensAreListed(upstream, h.name);
    }
    ConnectionIsHopByHop();
    assert forall h :: h in reply ==> h.name != "connection";
    assert ConnectionTokens(reply) == {};
    FilterAll(reply, Passes({}));
  }

  // ---- Requests ----

  predicate SkippedOnRequest(name: string, connection: set<string>, verb: string) {
    || ShouldStrip(name, connection)
    || name == "host"
    || ((verb == "GET" || verb == "HEAD") && (name == "content-length" || name == "transfer-encoding"))
  }

  /** Position i holds the last value of its name. */
  predicate IsLast(headers: seq<Header>, i: nat) {
    i < |headers| && forall j :: i < j < |headers| ==> headers[j].name != headers[i].name
  }

  /** Copies the client's headers one value per name, a later one replacing an earlier, then sets the client address. */
  method ForwardHeaders(client: seq<Header>, verb: string, clientIp: string) returns (fwd: map<string, string>)
    ensures forall name :: name in fwd <==>
              name == "x-forwarded-for" || name == "x-real-ip"
              || (Occurs(client, name) && name != "host" && !IsHopByHop(name) && !Lists(client, name)
                  && !((verb == "GET" || verb == "HEAD") && name == "content-length"))
    ensures "x-forwarded-for" in fwd && fwd["x-forwarded-for"] == clientIp
    ensures "x-real-ip" in fwd && fwd["x-real-ip"] == clientIp
    ensures forall i: nat :: IsLast(client, i) && client[i].name in fwd
                             && client[i].name != "x-forwarded-for" && client[i].name != "x-real-ip" ==>
              fwd[client[i].name] == client[i].value
  {
    var connection := ConnectionTokens(client);
    fwd := map[];
    for n := 0 to |client|
      invariant forall name :: name in fwd <==> Occurs(client[..n], name) && !SkippedOnRequest(name, connection, verb)
      invariant forall i: nat :: IsLast(client[..n], i) && client[i].name in fwd ==>
                  fwd[client[i].name] == client[i].value
    {
      var h := client[n];
      OccursStep(client, n);
      LastStep(client, n);
      if SkippedOnRequest(h.name, connection, verb) {
        continue;
      }
      fwd := fwd[h.name := h.value];
    }
    assert client[..|client|] == client;
    ForwardedNames(client, verb);
    fwd := fwd["x-forwarded-for" := clientIp];
    fwd := fwd["x-real-ip" := clientIp];
  }

  predicate Occurs(headers: seq<Header>, name: string) {
    exists i :: 0 <= i < |headers| && headers[i].name == name
  }

  lemma OccursStep(headers: seq<Header>, n: nat)
    requires n < |headers|
    ensures forall name :: Occurs(headers[..n + 1], name) <==> Occurs(headers[..n], name) || name == headers[n].name
  {
    forall name
      ensures Occurs(headers[..n + 1], name) <==> Occurs(headers[..n], name) || name == headers[n].name
    {
      assert headers[..n + 1] == headers[..n] + [headers[n]];
      if Occurs(headers[..n], name) {
        var i :| 0 <= i < n && headers[..n][i].name == name;
        assert headers[..n + 1][i].name == name;
      }
      assert headers[..n + 1][n] == headers[n];
    }
  }

  lemma LastStep(headers: seq<Header>, n: nat)
    requires n < |headers|
    ensures forall i: nat :: IsLast(headers[..n + 1], i) <==>
              i == n || (IsLast(headers[..n], i) && headers[i].name != headers[n].name)
  {
    var longer := headers[..n + 1];
    forall i: nat
      ensures IsLast(longer, i) <==> i == n || (IsLast(headers[..n], i) && headers[i].name != headers[n].name)
    {
      assert forall j :: 0 <= j < n ==> longer[j] == headers[j] == headers[..n][j];
      assert longer[n] == headers[n];
    }
  }

  /** What the skip test means for a name. */
  lemma ForwardedNames(client: seq<Header>, verb: string)
    ensures forall name :: Occurs(client, name) ==>
              (!SkippedOnRequest(name, ConnectionTokens(client), verb) <==>
                 name != "host" && !IsHopByHop(name) && !Lists(client, name)
                 && !((verb == "GET" || verb == "HEAD") && name == "content-length"))
  {
    assert Lower("transfer-encoding") == "transfer-encoding";
    forall name
      ensures name in ConnectionTokens(client) <==> Lists(client, name)
    {
      TokensAreListed(client, name);
    }
  }
}
