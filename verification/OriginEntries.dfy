/** What the texts of hosts, ports and allowlist entries have to be (internal/origin/origin.go):
    which are accepted, as what, and that case and the order of checks never matter. */
module OriginEntries {
  import opened Text
  import opened Origin
  import opened OriginTheory

  // ------------------------------------------------------------ hosts and ports

  predicate IsNameChar(c: char) { 'a' <= c <= 'z' || '0' <= c <= '9' || c == '-' }

  predicate IsName(l: string) {
    && 1 <= |l| <= 63 && l[0] != '-' && l[|l| - 1] != '-'
    && forall i :: 0 <= i < |l| ==> IsNameChar(l[i])
  }

  lemma LabelMeans(l: string)
    ensures IsLabel(l) <==> IsName(l)
  {
    forall i | 0 <= i < |l| ensures IsLabelChar(l[i]) <==> IsNameChar(l[i]) {
    }
  }

  /** A name is accepted, as it stands, exactly if it has 253 characters at most and each of its
      labels is a name of 63; a bracketed text, exactly if it is an IPv6 address, in its spelling. */
  lemma HostMeans(ip: string -> IP, h: string)
    ensures h == "" ==> HostOf(ip, h).Err?
    ensures h != "" && h[0] != '[' ==>
              && (HostOf(ip, h).Ok? <==> |h| <= 253 && forall k :: 0 <= k < |SplitDots(h)| ==> IsName(SplitDots(h)[k]))
              && (HostOf(ip, h).Ok? ==> HostOf(ip, h).value == h)
    ensures HostOf(ip, "[" + h + "]")
            == match ip(h)
               case V6(text) => Ok("[" + text + "]")
               case V4 => Err(BracketedIPv4)
               case NotIP => Err(BadLabel)
  {
    forall k | 0 <= k < |SplitDots(h)| ensures IsLabel(SplitDots(h)[k]) <==> IsName(SplitDots(h)[k]) {
      LabelMeans(SplitDots(h)[k]);
    }
    var b := "[" + h + "]";
    assert b[1..|b| - 1] == h && b[0] == '[' && b[|b| - 1] == ']';
  }

  /** A port is the decimal text of a number from 1 to 65535. */
  lemma PortMeans(p: string)
    ensures IsPort(p) <==> exists n: nat :: 1 <= n <= 65535 && p == Decimal(n)
  {
    if IsPort(p) {
      var n: nat :| 1 <= n <= MAX_PORT && p == Decimal(n);
      assert p == Decimal(n);
    }
  }

  // ------------------------------------------------------------ what is refused and accepted

  /** A path, a query, a fragment or user information after the scheme makes it no origin. */
  lemma ForbiddenIsRefused(ip: string -> IP, o: string, c: char)
    requires Index(o, "://").Some? && c in o[Index(o, "://").value + 3..]
    requires c == '/' || c == '?' || c == '#' || c == '@' || c == '\\'
    ensures Split(o).Err? && RuleOf(ip, o).Err? && Canonical(ip, o).None?
  {
    assert IsForbidden(c);
  }

  /** Some allowlist entry may stand for this host. */
  ghost predicate MayBeParent(ip: string -> IP, parent: string) {
    && parent != "" && parent[0] != '[' && HostOf(ip, parent) == Ok(parent) && '.' in parent && ip(parent).NotIP?
  }

  function RulePort(port: string): string { if port == "*" then "" else port }

  lemma HostHasNoStars(ip: string -> IP, h: string)
    requires Lawful(ip) && HostOf(ip, h) == Ok(h)
    ensures '*' !in h && h != "" && h != "*" && !("*." <= h)
  {
    CanonicalHost(ip, h, h);
    assert h[0] != '*';
  }

  /** The text of an origin, with any port its rule may stand for, is an accepted entry, and its rule
      is that origin. */
  lemma ExactIsAccepted(ip: string -> IP, p: Parts)
    requires Lawful(ip) && IsOrigin(ip, p.(port := RulePort(p.port)))
    ensures RuleOf(ip, Serialise(p)) == Ok(Rule(p.scheme, p.host, "", RulePort(p.port), p.port == "*"))
  {
    OriginShape(ip, p.(port := RulePort(p.port)));
    HostHasNoStars(ip, p.host);
    ShapeSplits(p.scheme, p.host, p.port);
    assert Serialise(p) == p.scheme + "://" + (p.host + PortTail(p.port));
  }

  lemma WildSplits(ip: string -> IP, scheme: string, parent: string, port: string)
    requires Lawful(ip) && MayBeParent(ip, parent) && IsOrigin(ip, Parts(scheme, parent, RulePort(port)))
    ensures Split(scheme + "://" + ("*." + (parent + PortTail(port)))) == Ok(Parts(scheme, "*." + parent, port))
  {
    OriginShape(ip, Parts(scheme, parent, RulePort(port)));
    NothingForbidden(parent, port);
    var tail := parent + PortTail(port);
    var rest := "*." + tail;
    forall c | c in rest ensures !IsForbidden(c) {
      if c !in tail {
        assert c == '*' || c == '.';
      }
    }
    SplitsAtScheme(scheme, rest);
    assert rest[2..] == tail && rest[..2] == "*.";
    NameSplits(scheme, "*.", parent, port);
  }

  /** A star and a dot before a name of at least two labels that is no address is an accepted entry,
      and its rule has that name as the suffix. */
  lemma WildIsAccepted(ip: string -> IP, scheme: string, parent: string, port: string)
    requires Lawful(ip) && MayBeParent(ip, parent) && IsOrigin(ip, Parts(scheme, parent, RulePort(port)))
    ensures RuleOf(ip, scheme + "://" + ("*." + (parent + PortTail(port))))
            == Ok(Rule(scheme, "", "." + parent, RulePort(port), port == "*"))
  {
    WildSplits(ip, scheme, parent, port);
    HostHasNoStars(ip, parent);
    var host := "*." + parent;
    assert host[2..] == parent && host[..2] == "*." && |host| > 1;
  }

  /** The trimmed text is the lone wildcard or stands for a rule. */
  ghost predicate IsEntry(ip: string -> IP, raw: string) {
    TrimSpace(raw) == "*" || (TrimSpace(raw) != "" && RuleOf(ip, TrimSpace(raw)).Ok?)
  }

  /** A list is accepted exactly if each of its entries is. */
  lemma ListIsAccepted(ip: string -> IP, patterns: seq<string>)
    ensures PolicyOf(ip, patterns).Ok? <==> forall raw :: raw in patterns ==> IsEntry(ip, raw)
  {
    PolicyIsUnion(ip, patterns);
    forall raw ensures EntryOf(ip, raw).Ok? <==> IsEntry(ip, raw) {
    }
  }

  // ------------------------------------------------------------ case is immaterial

  predicate IsSameLetter(c: char, d: char) {
    c == d || ('A' <= c <= 'Z' && d as int == c as int + 32) || ('A' <= d <= 'Z' && c as int == d as int + 32)
  }

  predicate SameButCase(a: string, b: string) {
    |a| == |b| && forall i :: 0 <= i < |a| ==> IsSameLetter(a[i], b[i])
  }

  lemma LetterLowers(c: char, d: char)
    requires IsSameLetter(c, d)
    ensures LowerChar(c) == LowerChar(d)
    ensures !('A' <= c <= 'Z') && !('a' <= c <= 'z') ==> c == d
  {
  }

  lemma SameLower(a: string, b: string)
    requires SameButCase(a, b)
    ensures Lower(a) == Lower(b)
  {
    forall k | 0 <= k < |a| ensures Lower(a)[k] == Lower(b)[k] {
      LetterLowers(a[k], b[k]);
    }
  }

  lemma SameHead(a: string, b: string, n: nat)
    requires SameButCase(a, b) && n <= |a|
    ensures SameButCase(a[..n], b[..n]) && Lower(a[..n]) == Lower(b[..n])
  {
    SameLower(a[..n], b[..n]);
  }

  lemma SameTail(a: string, b: string, n: nat)
    requires SameButCase(a, b) && n <= |a|
    ensures SameButCase(a[n..], b[n..])
  {
  }

  /** Not a letter. */
  predicate IsPlain(c: char) { !('A' <= c <= 'Z') && !('a' <= c <= 'z') }

  lemma SamePlain(a: string, b: string, c: char)
    requires SameButCase(a, b) && IsPlain(c)
    ensures forall i :: 0 <= i < |a| ==> (a[i] == c <==> b[i] == c)
    ensures c in a <==> c in b
  {
    forall i | 0 <= i < |a| ensures a[i] == c <==> b[i] == c {
      LetterLowers(a[i], b[i]);
      LetterLowers(b[i], a[i]);
    }
  }

  lemma SamePrefix(a: string, b: string, t: string)
    requires SameButCase(a, b) && forall i :: 0 <= i < |t| ==> IsPlain(t[i])
    ensures t <= a <==> t <= b
  {
    if |t| <= |a| {
      forall i | 0 <= i < |t| ensures a[i] == t[i] <==> b[i] == t[i] {
        SamePlain(a, b, t[i]);
      }
      assert t <= a <==> forall i :: 0 <= i < |t| ==> a[i] == t[i];
      assert t <= b <==> forall i :: 0 <= i < |t| ==> b[i] == t[i];
    }
  }

  lemma {:induction false} SameIndex(a: string, b: string)
    requires SameButCase(a, b)
    ensures Index(a, "://") == Index(b, "://")
  {
    SamePrefix(a, b, "://");
    if a != "" {
      SameTail(a, b, 1);
      SameIndex(a[1..], b[1..]);
    }
  }

  lemma SameIndexChar(a: string, b: string, c: char)
    requires SameButCase(a, b) && IsPlain(c)
    ensures IndexChar(a, c) == IndexChar(b, c) && LastIndexChar(a, c) == LastIndexChar(b, c)
  {
    SamePlain(a, b, c);
    if c in a {
      var i, j := IndexChar(a, c).value, LastIndexChar(a, c).value;
      forall k | 0 <= k < i ensures b[k] != c { assert a[..i][k] == a[k]; }
      forall k | j < k < |a| ensures b[k] != c { assert a[j + 1..][k - j - 1] == a[k]; }
      IndexCharAt(b, c, i);
      LastIndexCharAt(b, c, j);
    }
  }

  /** Alike up to the case of the port, which has no letters if it is a port at all. */
  predicate SameParts(r: Result<Parts>, t: Result<Parts>) {
    match r
    case Err(e) => t == Err(e)
    case Ok(p) => t.Ok? && t.value.scheme == p.scheme && t.value.host == p.host && SameButCase(p.port, t.value.port)
  }

  function Tailed(scheme: string, host: string, tail: string): Result<Parts> {
    if tail == "" then Ok(Parts(scheme, host, ""))
    else if tail[0] != ':' then Err(BadLabel)
    else if |tail| == 1 then Err(BadPort)
    else Ok(Parts(scheme, host, tail[1..]))
  }

  lemma BracketIs(scheme: string, wild: string, a: string)
    requires "[" <= a
    ensures SplitHost(scheme, wild, a)
            == match IndexChar(a, ']')
               case None => Err(BadLabel)
               case Some(end) => Tailed(scheme, wild + Lower(a[..end + 1]), a[end + 1..])
  {
  }

  lemma SameTailed(scheme: string, host: string, x: string, y: string)
    requires SameButCase(x, y)
    ensures SameParts(Tailed(scheme, host, x), Tailed(scheme, host, y))
  {
    SamePlain(x, y, ':');
    if x != "" {
      SameTail(x, y, 1);
    }
  }

  lemma SameBracket(scheme: string, wild: string, a: string, b: string)
    requires SameButCase(a, b) && "[" <= a && "[" <= b
    ensures SameParts(SplitHost(scheme, wild, a), SplitHost(scheme, wild, b))
  {
    BracketIs(scheme, wild, a);
    BracketIs(scheme, wild, b);
    SameIndexChar(a, b, ']');
    if ']' in a {
      var end := IndexChar(a, ']').value;
      SameHead(a, b, end + 1);
      SameTail(a, b, end + 1);
      SameTailed(scheme, wild + Lower(a[..end + 1]), a[end + 1..], b[end + 1..]);
    }
  }

  lemma SameName(scheme: string, wild: string, a: string, b: string)
    requires SameButCase(a, b) && !("[" <= a) && !("[" <= b)
    ensures SameParts(SplitHost(scheme, wild, a), SplitHost(scheme, wild, b))
  {
    SameIndexChar(a, b, ':');
    if ':' in a {
      var c := LastIndexChar(a, ':').value;
      SameHead(a, b, c);
      SameTail(a, b, c + 1);
    } else {
      SameLower(a, b);
    }
  }

  lemma SameHost(scheme: string, wild: string, a: string, b: string)
    requires SameButCase(a, b)
    ensures SameParts(SplitHost(scheme, wild, a), SplitHost(scheme, wild, b))
  {
    SamePrefix(a, b, "[");
    if "[" <= a {
      SameBracket(scheme, wild, a, b);
    } else {
      SameName(scheme, wild, a, b);
    }
  }

  lemma SameForbidden(a: string, b: string)
    requires SameButCase(a, b)
    ensures (exists c :: c in a && IsForbidden(c)) <==> exists c :: c in b && IsForbidden(c)
  {
    forall c | IsForbidden(c) ensures c in a <==> c in b {
      SamePlain(a, b, c);
    }
  }

  ghost function AfterScheme(scheme: string, rest: string): Result<Parts> {
    if scheme != "http" && scheme != "https" then Err(BadScheme)
    else if rest == "" then Err(NoHost)
    else if exists c :: c in rest && IsForbidden(c) then Err(NotAnOrigin)
    else if "*." <= rest then SplitHost(scheme, "*.", rest[2..])
    else SplitHost(scheme, "", rest)
  }

  lemma SplitIs(o: string)
    ensures Split(o)
            == match Index(o, "://")
               case None => Err(NoScheme)
               case Some(i) => AfterScheme(Lower(o[..i]), o[i + 3..])
  {
  }

  lemma SameAfterScheme(scheme: string, x: string, y: string)
    requires SameButCase(x, y)
    ensures SameParts(AfterScheme(scheme, x), AfterScheme(scheme, y))
  {
    SameForbidden(x, y);
    SamePrefix(x, y, "*.");
    if "*." <= x {
      SameTail(x, y, 2);
      SameHost(scheme, "*.", x[2..], y[2..]);
    } else {
      SameHost(scheme, "", x, y);
    }
  }

  lemma SameSplit(a: string, b: string)
    requires SameButCase(a, b)
    ensures SameParts(Split(a), Split(b))
  {
    SplitIs(a);
    SplitIs(b);
    SameIndex(a, b);
    if Index(a, "://").Some? {
      var i := Index(a, "://").value;
      SameHead(a, b, i);
      SameTail(a, b, i + 3);
      SameAfterScheme(Lower(a[..i]), a[i + 3..], b[i + 3..]);
    }
  }

  lemma SamePort(p: string, q: string)
    requires SameButCase(p, q)
    ensures IsPort(p) || IsPort(q) || p == "*" || q == "*" ==> p == q
  {
    PortTexts(p);
    PortTexts(q);
    if AllDigits(p) || AllDigits(q) || p == "*" || q == "*" {
      forall i | 0 <= i < |p| ensures p[i] == q[i] {
        LetterLowers(p[i], q[i]);
        LetterLowers(q[i], p[i]);
      }
    }
  }

  /** A port that is none refuses entry and request alike. */
  lemma BadPortRefuses(ip: string -> IP, o: string)
    requires Split(o).Ok? && Split(o).value.port != "" && !IsPort(Split(o).value.port)
    ensures Canonical(ip, o).None? && (Split(o).value.port != "*" ==> RuleOf(ip, o) == Err(BadPort))
  {
  }

  lemma SameSplitOrBadPort(a: string, b: string)
    requires SameButCase(a, b)
    ensures if Split(a).Err? then Split(b) == Split(a)
            else
              && Split(b).Ok?
              && (Split(a) == Split(b)
                  || forall o :: o == a || o == b ==>
                       Split(o).value.port != "" && Split(o).value.port != "*" && !IsPort(Split(o).value.port))
  {
    SameSplit(a, b);
    if Split(a).Ok? {
      SamePort(Split(a).value.port, Split(b).value.port);
    }
  }

  /** Two requests that differ in the case of letters only get the same verdict. */
  lemma CaseIsImmaterial(ip: string -> IP, policy: Policy, a: string, b: string)
    requires SameButCase(a, b)
    ensures Verdict(ip, policy, a) == Verdict(ip, policy, b)
  {
    SameSplitOrBadPort(a, b);
    if Split(a) != Split(b) {
      BadPortRefuses(ip, a);
      BadPortRefuses(ip, b);
    } else {
      assert Canonical(ip, a) == Canonical(ip, b);
    }
  }

  /** So do two entries. */
  lemma EntryCaseIsImmaterial(ip: string -> IP, a: string, b: string)
    requires SameButCase(a, b)
    ensures RuleOf(ip, a) == RuleOf(ip, b)
  {
    SameSplitOrBadPort(a, b);
    if Split(a) != Split(b) {
      BadPortRefuses(ip, a);
      BadPortRefuses(ip, b);
    }
  }
}
