/** What the origin allowlist guarantees: what it answers is itself an allowed origin in the
    browser's spelling, a wildcard means proper subdomains, and the order of entries is immaterial. */
module OriginTheory {
  import opened Common
  import opened Text
  import opened Origin

  predicate IsHexOrColon(c: char) { IsDigit(c) || 'a' <= c <= 'f' || c == ':' }

  /** IPv6 addresses are spelled as section 4 of RFC 5952 asks: lower case, 39 characters at most,
      and one spelling each. */
  ghost predicate Lawful(ip: string -> IP) {
    forall s :: ip(s).V6? ==>
                  var t := ip(s).text;
                  0 < |t| <= 39 && (forall i :: 0 <= i < |t| ==> IsHexOrColon(t[i])) && ip(t) == V6(t)
  }

  predicate IsHostChar(c: char) { IsLabelChar(c) || c == '.' || c == ':' || c == '[' || c == ']' }

  predicate IsOriginChar(c: char) { IsHostChar(c) || c == '/' }

  const LONGEST := |"https://"| + MAX_HOST + |":65535"|

  // ------------------------------------------------------------ canonical hosts

  lemma HostnameChars(h: string)
    requires IsHostname(h)
    ensures forall i :: 0 <= i < |h| ==> IsLabelChar(h[i]) || h[i] == '.'
  {
    forall i | 0 <= i < |h| && h[i] != '.' ensures IsLabelChar(h[i]) {
      var k := CharsOfLabels(h, i);
      assert IsLabel(SplitDots(h)[k]);
    }
  }

  /** A canonical host is its own canonical form, within the alphabet and the length DNS permits. */
  lemma {:induction false} CanonicalHost(ip: string -> IP, x: string, h: string)
    requires Lawful(ip) && HostOf(ip, x) == Ok(h)
    ensures HostOf(ip, h) == Ok(h) && 0 < |h| <= MAX_HOST
    ensures forall i :: 0 <= i < |h| ==> IsHostChar(h[i])
    ensures if h[0] == '[' then h[|h| - 1] == ']' && ']' !in h[..|h| - 1]
            else forall i :: 0 <= i < |h| ==> IsLabelChar(h[i]) || h[i] == '.'
  {
    if x[0] == '[' {
      var t := ip(x[1..|x| - 1]).text;
      assert h[1..|h| - 1] == t;
      assert h[..|h| - 1] == "[" + t;
    } else {
      HostnameChars(h);
    }
  }

  // ------------------------------------------------------------ round trip

  ghost predicate IsOrigin(ip: string -> IP, p: Parts) {
    && (p.scheme == "http" || p.scheme == "https") && HostOf(ip, p.host) == Ok(p.host)
    && (p.port == "" || IsPort(p.port))
  }

  predicate HasHostShape(h: string) {
    && h != "" && (forall i :: 0 <= i < |h| ==> IsHostChar(h[i]))
    && if h[0] == '[' then h[|h| - 1] == ']' && ']' !in h[..|h| - 1] else ':' !in h
  }

  function PortTail(port: string): string { if port == "" then "" else ":" + port }

  lemma OriginShape(ip: string -> IP, p: Parts)
    requires Lawful(ip) && IsOrigin(ip, p)
    ensures HasHostShape(p.host) && |p.host| <= MAX_HOST && AllDigits(p.port) && |p.port| <= 5
  {
    CanonicalHost(ip, p.host, p.host);
    PortTexts(p.port);
  }

  lemma HostIsLower(h: string)
    requires forall i :: 0 <= i < |h| ==> IsHostChar(h[i])
    ensures Lower(h) == h
  {
    LowerFixes(h);
  }

  lemma BracketSplits(scheme: string, h: string, port: string)
    requires HasHostShape(h) && h[0] == '['
    ensures SplitHost(scheme, "", h + PortTail(port)) == Ok(Parts(scheme, h, port))
  {
    HostIsLower(h);
    var rest := h + PortTail(port);
    assert rest[..|h| - 1] == h[..|h| - 1];
    IndexCharAt(rest, ']', |h| - 1);
    assert rest[..|h|] == h;
    assert "" + h == h;
    TailSplits(h, port);
  }

  lemma TailSplits(h: string, port: string)
    ensures (h + PortTail(port))[|h|..] == PortTail(port)
    ensures port != "" ==> PortTail(port)[0] == ':' && PortTail(port)[1..] == port
  {
  }

  /** A port as an origin or an allowlist entry may spell it. */
  predicate IsPortText(port: string) { AllDigits(port) || port == "*" }

  lemma NameSplits(scheme: string, wild: string, h: string, port: string)
    requires HasHostShape(h) && h[0] != '[' && IsPortText(port)
    ensures SplitHost(scheme, wild, h + PortTail(port)) == Ok(Parts(scheme, wild + h, port))
  {
    HostIsLower(h);
    if port == "" {
      assert h + PortTail(port) == h;
    } else {
      NameEnds(h, port);
      TailSplits(h, port);
    }
  }

  lemma NameEnds(h: string, port: string)
    requires HasHostShape(h) && h[0] != '[' && IsPortText(port) && port != ""
    ensures LastIndexChar(h + PortTail(port), ':') == Some(|h|)
    ensures (h + PortTail(port))[..|h|] == h && (h + PortTail(port))[|h| + 1..] == port
  {
    var rest := h + PortTail(port);
    assert rest[|h| + 1..] == port && rest[..|h|] == h;
    LastIndexCharAt(rest, ':', |h|);
  }

  lemma NothingForbidden(h: string, port: string)
    requires HasHostShape(h) && IsPortText(port)
    ensures forall c :: c in h + PortTail(port) ==> !IsForbidden(c)
    ensures (h + PortTail(port))[0] != '*'
  {
    var tail := PortTail(port);
    assert forall i :: 0 <= i < |tail| ==> tail[i] == ':' || tail[i] == '*' || IsDigit(tail[i]);
    assert forall c :: c in tail ==> !IsForbidden(c);
    assert forall c :: c in h ==> IsHostChar(c);
  }

  /** Splitting undoes serialising, for every scheme, canonical host and port. */
  lemma SplitUndoesSerialise(ip: string -> IP, p: Parts)
    requires Lawful(ip) && IsOrigin(ip, p)
    ensures Split(Serialise(p)) == Ok(p)
  {
    OriginShape(ip, p);
    ShapeSplits(p.scheme, p.host, p.port);
    assert Serialise(p) == p.scheme + "://" + (p.host + PortTail(p.port));
  }

  lemma SplitsAtScheme(scheme: string, rest: string)
    requires (scheme == "http" || scheme == "https") && rest != "" && forall c :: c in rest ==> !IsForbidden(c)
    ensures Split(scheme + "://" + rest)
            == if "*." <= rest then SplitHost(scheme, "*.", rest[2..]) else SplitHost(scheme, "", rest)
  {
    var v := scheme + "://" + rest;
    IndexAfter(scheme, "://", rest);
    assert v[..|scheme|] == scheme && v[|scheme| + 3..] == rest;
    LowerFixes(scheme);
  }

  lemma ShapeSplits(scheme: string, h: string, port: string)
    requires (scheme == "http" || scheme == "https") && HasHostShape(h) && IsPortText(port)
    ensures Split(scheme + "://" + (h + PortTail(port))) == Ok(Parts(scheme, h, port))
  {
    var rest := h + PortTail(port);
    NothingForbidden(h, port);
    SplitsAtScheme(scheme, rest);
    if h[0] == '[' {
      BracketSplits(scheme, h, port);
    } else {
      NameSplits(scheme, "", h, port);
      assert "" + h == h;
    }
  }

  lemma CanonicalIsOrigin(ip: string -> IP, o: string)
    requires Lawful(ip) && Canonical(ip, o).Some?
    ensures IsOrigin(ip, Canonical(ip, o).value)
  {
    SplitScheme(o);
    PartsAreOrigin(ip, Split(o).value);
  }

  lemma HostKeepsScheme(scheme: string, wild: string, rest: string)
    ensures SplitHost(scheme, wild, rest).Ok? ==> SplitHost(scheme, wild, rest).value.scheme == scheme
  {
  }

  lemma SplitScheme(o: string)
    requires Split(o).Ok?
    ensures Split(o).value.scheme == "http" || Split(o).value.scheme == "https"
  {
    var i := Index(o, "://").value;
    var scheme, rest := Lower(o[..i]), o[i + 3..];
    if "*." <= rest {
      HostKeepsScheme(scheme, "*.", rest[2..]);
    } else {
      HostKeepsScheme(scheme, "", rest);
    }
  }

  lemma PartsAreOrigin(ip: string -> IP, p: Parts)
    requires Lawful(ip) && CanonicalParts(ip, p).Some? && (p.scheme == "http" || p.scheme == "https")
    ensures IsOrigin(ip, CanonicalParts(ip, p).value)
  {
    CanonicalHost(ip, p.host, HostOf(ip, p.host).value);
  }

  lemma OriginIsCanonical(ip: string -> IP, p: Parts)
    requires Lawful(ip) && IsOrigin(ip, p)
    ensures Canonical(ip, Serialise(p)) == Some(p)
  {
    SplitUndoesSerialise(ip, p);
  }

  /** What Allow answers is itself allowed and answered unchanged. */
  lemma AllowedIsFixed(ip: string -> IP, policy: Policy, o: string)
    requires Lawful(ip) && Verdict(ip, policy, o).Some?
    ensures var v := Verdict(ip, policy, o).value; Verdict(ip, policy, v) == Some(v)
  {
    if !policy.allowAll {
      CanonicalIsOrigin(ip, o);
      OriginIsCanonical(ip, Canonical(ip, o).value);
    }
  }

  /** The answer is the lone wildcard, or lower-case origin text of bounded length, whatever the
      request carried: its bytes are never echoed. */
  lemma AllowedIsSafeText(ip: string -> IP, policy: Policy, o: string)
    requires Lawful(ip) && Verdict(ip, policy, o).Some?
    ensures var v := Verdict(ip, policy, o).value;
            && (policy.allowAll ==> v == "*")
            && (!policy.allowAll ==> |v| <= LONGEST && forall i :: 0 <= i < |v| ==> IsOriginChar(v[i]))
  {
    if !policy.allowAll {
      CanonicalIsOrigin(ip, o);
      OriginShape(ip, Canonical(ip, o).value);
      ShapeIsSafe(Canonical(ip, o).value);
    }
  }

  lemma ShapeIsSafe(p: Parts)
    requires (p.scheme == "http" || p.scheme == "https") && HasHostShape(p.host) && |p.host| <= MAX_HOST
    requires AllDigits(p.port) && |p.port| <= 5
    ensures |Serialise(p)| <= LONGEST && forall i :: 0 <= i < |Serialise(p)| ==> IsOriginChar(Serialise(p)[i])
  {
    var head, tail := p.scheme + "://", PortTail(p.port);
    assert Serialise(p) == head + p.host + tail;
    assert forall i :: 0 <= i < |head| ==> IsOriginChar(head[i]);
    assert forall i :: 0 <= i < |tail| ==> IsOriginChar(tail[i]);
  }

  // ------------------------------------------------------------ meaning of the entries

  /** The parent's labels end the host's, with at least one more in front. */
  ghost predicate IsSubdomain(host: string, parent: string) {
    var h, p := SplitDots(host), SplitDots(parent);
    |p| < |h| && h[|h| - |p|..] == p
  }

  /** At any depth, never the apex, never a host that merely ends in the parent's text. */
  lemma SuffixIsSubdomain(host: string, parent: string)
    requires forall k :: 0 <= k < |SplitDots(host)| ==> SplitDots(host)[k] != ""
    ensures |host| > |parent| + 1 && HasSuffix(host, "." + parent) <==> IsSubdomain(host, parent)
  {
    if |host| > |parent| + 1 && HasSuffix(host, "." + parent) {
      TextIsSubdomain(host, parent);
    }
    if IsSubdomain(host, parent) {
      var x := SubdomainText(host, parent);
      assert host[|x|..] == "." + parent;
    }
  }

  lemma TextIsSubdomain(host: string, parent: string)
    requires |host| > |parent| + 1 && HasSuffix(host, "." + parent)
    ensures IsSubdomain(host, parent)
  {
    var x := host[..|host| - |parent| - 1];
    assert host == x + "." + parent;
    SplitOfJoined(x, parent);
  }

  lemma SubdomainText(host: string, parent: string) returns (x: string)
    requires IsSubdomain(host, parent) && SplitDots(host)[0] != ""
    ensures x != "" && host == x + "." + parent
  {
    var h, p := SplitDots(host), SplitDots(parent);
    var front := h[..|h| - |p|];
    assert h == front + p;
    JoinOfConcat(front, p);
    JoinUndoesSplit(host);
    JoinUndoesSplit(parent);
    x := JoinDots(front);
  }

  lemma LabelsAreNonEmpty(ip: string -> IP, h: string)
    requires Lawful(ip) && HostOf(ip, h) == Ok(h)
    ensures forall k :: 0 <= k < |SplitDots(h)| ==> SplitDots(h)[k] != ""
  {
    CanonicalHost(ip, h, h);
    if h[0] == '[' {
      var t := ip(h[1..|h| - 1]).text;
      assert h == "[" + t + "]";
      assert '.' !in h;
    }
  }

  /** What the text of an entry asks of a canonical origin. */
  ghost predicate Asks(ip: string -> IP, entry: Parts, p: Parts) {
    && p.scheme == entry.scheme && (entry.port == WILDCARD || p.port == entry.port)
    && if "*." <= entry.host then IsSubdomain(p.host, entry.host[2..]) else HostOf(ip, entry.host) == Ok(p.host)
  }

  lemma RuleOfEntry(ip: string -> IP, entry: string, r: Rule)
    requires RuleOf(ip, entry) == Ok(r)
    ensures Split(entry).Ok?
    ensures var e := Split(entry).value;
            && r.scheme == e.scheme && (r.anyPort <==> e.port == WILDCARD) && (!r.anyPort ==> r.port == e.port)
            && if "*." <= e.host then
                 && r.suffix == "." + e.host[2..] && IsHostname(e.host[2..]) && '.' in e.host[2..]
                 && ip(e.host[2..]).NotIP?
               else r.suffix == "" && HostOf(ip, e.host) == Ok(r.host)
  {
  }

  /** A compiled entry matches a canonical origin exactly when the entry's own text asks for it: a
      wildcard stands for the proper subdomains of what follows the star, a hostname of at least two
      labels; any other entry stands for its one host. */
  lemma RuleMeans(ip: string -> IP, entry: string, r: Rule, p: Parts)
    requires Lawful(ip) && RuleOf(ip, entry) == Ok(r) && IsOrigin(ip, p)
    ensures Split(entry).Ok? && (Matches(r, p) <==> Asks(ip, Split(entry).value, p))
    ensures var host := Split(entry).value.host;
            "*." <= host ==> IsHostname(host[2..]) && |SplitDots(host[2..])| >= 2 && ip(host[2..]).NotIP?
  {
    RuleOfEntry(ip, entry, r);
    var host := Split(entry).value.host;
    if "*." <= host {
      LabelsAreNonEmpty(ip, p.host);
      SuffixIsSubdomain(p.host, host[2..]);
    }
  }

  /** A list compiles exactly when each entry does, to the union of what they stand for. */
  lemma {:induction false} PolicyIsUnion(ip: string -> IP, patterns: seq<string>)
    ensures PolicyOf(ip, patterns).Ok? <==> forall x :: x in patterns ==> EntryOf(ip, x).Ok?
    ensures PolicyOf(ip, patterns).Ok? ==>
              var p := PolicyOf(ip, patterns).value;
              && (p.allowAll <==> exists x :: x in patterns && EntryOf(ip, x).value.allowAll)
              && (forall r :: r in p.rules <==> exists x :: x in patterns && r in EntryOf(ip, x).value.rules)
  {
    if patterns != [] {
      var init, last := patterns[..|patterns| - 1], patterns[|patterns| - 1];
      PolicyIsUnion(ip, init);
      assert forall x :: x in patterns <==> x in init || x == last;
    }
  }

  /** The entry's text admits the origin: it is the lone wildcard, or asks for it. */
  ghost predicate Admits(ip: string -> IP, raw: string, p: Parts) {
    || TrimSpace(raw) == WILDCARD
    || (Split(TrimSpace(raw)).Ok? && Asks(ip, Split(TrimSpace(raw)).value, p))
  }

  lemma EntryMeans(ip: string -> IP, raw: string, p: Parts)
    requires Lawful(ip) && EntryOf(ip, raw).Ok? && IsOrigin(ip, p)
    ensures var q := EntryOf(ip, raw).value;
            Admits(ip, raw, p) <==> q.allowAll || exists r :: r in q.rules && Matches(r, p)
  {
    var q := EntryOf(ip, raw).value;
    if q.rules != [] {
      assert q.rules[0] in q.rules;
      RuleMeans(ip, TrimSpace(raw), q.rules[0], p);
    }
  }

  /** An accepted list answers a canonical origin exactly when the text of one of its entries admits
      it: nothing is allowed that no entry asks for, and no entry is silently skipped. */
  lemma PolicyMeans(ip: string -> IP, patterns: seq<string>, p: Parts)
    requires Lawful(ip) && PolicyOf(ip, patterns).Ok? && IsOrigin(ip, p)
    ensures Verdict(ip, PolicyOf(ip, patterns).value, Serialise(p)).Some?
            <==> exists raw :: raw in patterns && Admits(ip, raw, p)
  {
    PolicyIsUnion(ip, patterns);
    OriginIsCanonical(ip, p);
    forall raw | raw in patterns
      ensures Admits(ip, raw, p)
              <==> EntryOf(ip, raw).value.allowAll || exists r :: r in EntryOf(ip, raw).value.rules && Matches(r, p)
    {
      EntryMeans(ip, raw, p);
    }
  }

  /** With an entry that is the lone wildcard, an accepted list gives every request that names an
      origin at all one and the same answer. */
  lemma WildcardAnswersAll(ip: string -> IP, patterns: seq<string>, raw: string, o: string, p: string)
    requires PolicyOf(ip, patterns).Ok? && raw in patterns && TrimSpace(raw) == "*" && o != "" && p != ""
    ensures var policy := PolicyOf(ip, patterns).value;
            Verdict(ip, policy, o) == Verdict(ip, policy, p) == Some("*")
  {
    PolicyIsUnion(ip, patterns);
    assert EntryOf(ip, raw).value.allowAll;
  }

  lemma LetterIsNoStar(c: char)
    requires c != '*'
    ensures LowerChar(c) != '*'
  {
  }

  lemma LowerHasNoStar(s: string, n: nat)
    requires '*' !in s && n <= |s|
    ensures '*' !in "" + Lower(s[..n])
  {
    var low := Lower(s[..n]);
    forall i | 0 <= i < n ensures low[i] != '*' {
      LetterIsNoStar(s[i]);
    }
    assert "" + low == low;
  }

  lemma HostHasNoStar(scheme: string, rest: string)
    requires SplitHost(scheme, "", rest).Ok? && '*' !in rest
    ensures '*' !in SplitHost(scheme, "", rest).value.host && '*' !in SplitHost(scheme, "", rest).value.port
  {
    if "[" <= rest {
      LowerHasNoStar(rest, IndexChar(rest, ']').value + 1);
    } else if LastIndexChar(rest, ':').Some? {
      LowerHasNoStar(rest, LastIndexChar(rest, ':').value);
    } else {
      assert rest[..|rest|] == rest;
      LowerHasNoStar(rest, |rest|);
    }
  }

  lemma SplitHasNoStar(o: string)
    requires Split(o).Ok? && '*' !in o
    ensures '*' !in Split(o).value.host && '*' !in Split(o).value.port
  {
    var i := Index(o, "://").value;
    HostHasNoStar(Lower(o[..i]), o[i + 3..]);
  }

  /** Every entry without a wildcard in an accepted list admits its own trimmed text. */
  lemma ExactAdmitsItself(ip: string -> IP, patterns: seq<string>, raw: string)
    requires Lawful(ip) && PolicyOf(ip, patterns).Ok? && raw in patterns && '*' !in TrimSpace(raw)
    ensures Verdict(ip, PolicyOf(ip, patterns).value, TrimSpace(raw)).Some?
  {
    var e, policy := TrimSpace(raw), PolicyOf(ip, patterns).value;
    PolicyIsUnion(ip, patterns);
    var r := RuleOf(ip, e).value;
    assert r in EntryOf(ip, raw).value.rules;
    RuleOfEntry(ip, e, r);
    SplitHasNoStar(e);
    var p := Parts(r.scheme, r.host, r.port);
    assert Canonical(ip, e) == Some(p) && Matches(r, p);
  }

  // ------------------------------------------------------------ order is immaterial

  /** The same entries in any order, repeated or not, compile alike and give the same verdicts. */
  lemma OrderIsImmaterial(ip: string -> IP, a: seq<string>, b: seq<string>, o: string)
    requires forall x :: x in a <==> x in b
    ensures PolicyOf(ip, a).Ok? <==> PolicyOf(ip, b).Ok?
    ensures PolicyOf(ip, a).Ok? ==> Verdict(ip, PolicyOf(ip, a).value, o) == Verdict(ip, PolicyOf(ip, b).value, o)
  {
    PolicyIsUnion(ip, a);
    PolicyIsUnion(ip, b);
  }
}
