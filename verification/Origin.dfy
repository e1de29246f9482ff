/** internal/origin/origin.go: the allowlist of browser origins. Input is ASCII; reading IP literals
    is Go's, and appears here as a function `ip` of which only RFC 5952 spelling is assumed. */
module Origin {
  import opened Common
  import opened Text

  datatype Error =
    | NoScheme | BadScheme | NotAnOrigin | EmptyEntry | NoHost | HostTooLong | BadLabel | BadPort
    | BadWildcard | AnyHost | WildAddress | BracketedIPv4 | TooBroad

  datatype Result<T> = Ok(value: T) | Err(error: Error)

  /** What net.ParseIP makes of a text, and how it spells an IPv6 address. */
  datatype IP = NotIP | V4 | V6(text: string)

  datatype Parts = Parts(scheme: string, host: string, port: string)

  datatype Rule = Rule(scheme: string, host: string, suffix: string, port: string, anyPort: bool)

  datatype Policy = Policy(allowAll: bool, rules: seq<Rule>)

  const WILDCARD := "*"

  const MAX_HOST := 253

  // ------------------------------------------------------------ shape

  predicate IsForbidden(c: char) { c == '/' || c == '?' || c == '#' || c == '@' || c == '\\' }

  function SplitHost(scheme: string, wild: string, rest: string): Result<Parts> {
    if "[" <= rest then
      match IndexChar(rest, ']')
      case None => Err(BadLabel)
      case Some(end) =>
        var host, tail := wild + Lower(rest[..end + 1]), rest[end + 1..];
        if tail == "" then Ok(Parts(scheme, host, ""))
        else if tail[0] != ':' then Err(BadLabel)
        else if |tail| == 1 then Err(BadPort)
        else Ok(Parts(scheme, host, tail[1..]))
    else
      match LastIndexChar(rest, ':')
      case None => Ok(Parts(scheme, wild + Lower(rest), ""))
      case Some(c) =>
        if c + 1 == |rest| then Err(BadPort)
        else Ok(Parts(scheme, wild + Lower(rest[..c]), rest[c + 1..]))
  }

  function Split(raw: string): Result<Parts> {
    match Index(raw, "://")
    case None => Err(NoScheme)
    case Some(i) =>
      var scheme, rest := Lower(raw[..i]), raw[i + 3..];
      if scheme != "http" && scheme != "https" then Err(BadScheme)
      else if rest == "" then Err(NoHost)
      else if exists c :: c in rest && IsForbidden(c) then Err(NotAnOrigin)
      else if "*." <= rest then SplitHost(scheme, "*.", rest[2..])
      else SplitHost(scheme, "", rest)
  }

  function Serialise(p: Parts): string {
    p.scheme + "://" + p.host + if p.port == "" then "" else ":" + p.port
  }

  // ------------------------------------------------------------ hosts

  predicate IsLabelChar(c: char) { IsLowerLetter(c) || IsDigit(c) || c == '-' }

  predicate IsLabel(l: string) {
    && 0 < |l| <= 63 && l[0] != '-' && l[|l| - 1] != '-'
    && forall i :: 0 <= i < |l| ==> IsLabelChar(l[i])
  }

  predicate IsHostname(h: string) {
    |h| <= MAX_HOST && forall k :: 0 <= k < |SplitDots(h)| ==> IsLabel(SplitDots(h)[k])
  }

  /** The canonical form of a host, or why it is none. */
  function HostOf(ip: string -> IP, h: string): Result<string> {
    if h == "" then Err(NoHost)
    else if h[0] == '[' then
      if |h| < 2 || h[|h| - 1] != ']' then Err(BadLabel)
      else
        match ip(h[1..|h| - 1])
        case NotIP => Err(BadLabel)
        case V4 => Err(BracketedIPv4)
        case V6(text) => Ok("[" + text + "]")
    else if |h| > MAX_HOST then Err(HostTooLong)
    else if IsHostname(h) then Ok(h) else Err(BadLabel)
  }

  method CheckLabel(l: string) returns (ok: bool)
    ensures ok == IsLabel(l)
  {
    if l == "" || |l| > 63 {
      return false;
    }
    if l[0] == '-' || l[|l| - 1] == '-' {
      return false;
    }
    for i := 0 to |l|
      invariant forall j :: 0 <= j < i ==> IsLabelChar(l[j])
    {
      var c := l[i];
      if (c < 'a' || c > 'z') && (c < '0' || c > '9') && c != '-' {
        return false;
      }
    }
    return true;
  }

  method ValidateHost(ip: string -> IP, h: string) returns (r: Result<string>)
    ensures r == HostOf(ip, h)
  {
    if h == "" {
      return Err(NoHost);
    }
    if h[0] == '[' {
      var inner := h[1..];
      var balanced := inner != "" && inner[|inner| - 1] == ']';
      if !balanced {
        return Err(BadLabel);
      }
      inner := inner[..|inner| - 1];
      assert inner == h[1..|h| - 1];
      match ip(inner) {
        case NotIP => return Err(BadLabel);
        case V4 => return Err(BracketedIPv4);
        case V6(text) => return Ok("[" + text + "]");
      }
    }
    if |h| > MAX_HOST {
      return Err(HostTooLong);
    }
    var labels := SplitDots(h);
    for k := 0 to |labels|
      invariant forall j :: 0 <= j < k ==> IsLabel(labels[j])
    {
      var ok := CheckLabel(labels[k]);
      if !ok {
        return Err(BadLabel);
      }
    }
    return Ok(h);
  }

  // ------------------------------------------------------------ ports

  const MAX_PORT := 65535

  /** The decimal text of a number in 1-65535. */
  ghost predicate IsPort(p: string) { exists n: nat :: 1 <= n <= MAX_PORT && p == Decimal(n) }

  /** Five digits at most, no leading zero, no more than 65535: just the decimal port texts. */
  lemma {:induction false} PortTexts(p: string)
    ensures IsPort(p) <==> 0 < |p| <= 5 && p[0] != '0' && AllDigits(p) && Value(p) <= MAX_PORT
  {
    if IsPort(p) {
      var n: nat :| 1 <= n <= MAX_PORT && p == Decimal(n);
      ValueOfDecimal(n);
      LengthOfValue(p);
    }
    if 0 < |p| && p[0] != '0' && AllDigits(p) {
      DecimalOfValue(p);
    }
  }

  method ValidatePort(p: string) returns (ok: bool)
    ensures ok <==> IsPort(p)
  {
    PortTexts(p);
    if |p| == 0 || |p| > 5 || p[0] == '0' {
      return false;
    }
    var n := 0;
    for i := 0 to |p|
      invariant AllDigits(p[..i]) && n == Value(p[..i])
    {
      var c := p[i];
      if c < '0' || c > '9' {
        assert !IsDigit(p[i]);
        return false;
      }
      assert p[..i + 1][..i] == p[..i];
      n := n * 10 + (c - '0') as int;
    }
    assert p[..|p|] == p;
    return n <= MAX_PORT;
  }

  // ------------------------------------------------------------ rules

  predicate Matches(r: Rule, p: Parts) {
    && r.scheme == p.scheme && (r.anyPort || r.port == p.port)
    && if r.suffix != "" then |p.host| > |r.suffix| && HasSuffix(p.host, r.suffix) else r.host == p.host
  }

  ghost function RuleOfParts(ip: string -> IP, p: Parts): Result<Rule> {
    var anyPort := p.port == WILDCARD;
    var port := if anyPort then "" else p.port;
    if port != "" && !IsPort(port) then Err(BadPort)
    else if p.host == WILDCARD then Err(AnyHost)
    else if "*." <= p.host then
      var parent := p.host[2..];
      if '*' in parent then Err(BadWildcard)
      else if "[" <= parent || !ip(parent).NotIP? then Err(WildAddress)
      else
        match HostOf(ip, parent)
        case Err(e) => Err(e)
        case Ok(c) => if '.' !in c then Err(TooBroad) else Ok(Rule(p.scheme, "", "." + c, port, anyPort))
    else if '*' in p.host then Err(BadWildcard)
    else
      match HostOf(ip, p.host)
      case Err(e) => Err(e)
      case Ok(c) => Ok(Rule(p.scheme, c, "", port, anyPort))
  }

  /** The rule an allowlist entry stands for, or why it is refused. */
  ghost function RuleOf(ip: string -> IP, raw: string): Result<Rule> {
    match Split(raw)
    case Err(e) => Err(e)
    case Ok(p) => RuleOfParts(ip, p)
  }

  method CompileRule(ip: string -> IP, raw: string) returns (res: Result<Rule>)
    ensures res == RuleOf(ip, raw)
  {
    var parts := Split(raw);
    if parts.Err? {
      return Err(parts.error);
    }
    var Parts(scheme, host, port) := parts.value;
    var r := Rule(scheme, "", "", "", false);
    if port == WILDCARD {
      r := r.(anyPort := true);
    } else {
      if port != "" {
        var ok := ValidatePort(port);
        if !ok {
          return Err(BadPort);
        }
      }
      r := r.(port := port);
    }
    if host == WILDCARD {
      return Err(AnyHost);
    }
    if "*." <= host {
      var parent := host[2..];
      if '*' in parent {
        return Err(BadWildcard);
      }
      if "[" <= parent || !ip(parent).NotIP? {
        return Err(WildAddress);
      }
      var canonical := ValidateHost(ip, parent);
      if canonical.Err? {
        return Err(canonical.error);
      }
      if '.' !in canonical.value {
        return Err(TooBroad);
      }
      return Ok(r.(suffix := "." + canonical.value));
    }
    if '*' in host {
      return Err(BadWildcard);
    }
    var canonical := ValidateHost(ip, host);
    if canonical.Err? {
      return Err(canonical.error);
    }
    return Ok(r.(host := canonical.value));
  }

  // ------------------------------------------------------------ policies

  /** An entry by itself: nothing, the wildcard, or one rule. */
  ghost function EntryOf(ip: string -> IP, raw: string): Result<Policy> {
    var entry := TrimSpace(raw);
    if entry == "" then Err(EmptyEntry)
    else if entry == WILDCARD then Ok(Policy(true, []))
    else
      match RuleOf(ip, entry)
      case Err(e) => Err(e)
      case Ok(r) => Ok(Policy(false, [r]))
  }

  /** The entries one after another; the first refused entry refuses the list. */
  ghost function PolicyOf(ip: string -> IP, patterns: seq<string>): Result<Policy> {
    if patterns == [] then Ok(Policy(false, []))
    else
      match PolicyOf(ip, patterns[..|patterns| - 1])
      case Err(e) => Err(e)
      case Ok(p) =>
        match EntryOf(ip, patterns[|patterns| - 1])
        case Err(e) => Err(e)
        case Ok(q) => Ok(Policy(p.allowAll || q.allowAll, p.rules + q.rules))
  }

  lemma {:induction false} FirstErrorDecides(ip: string -> IP, patterns: seq<string>, k: nat)
    requires k <= |patterns| && PolicyOf(ip, patterns[..k]).Err?
    ensures PolicyOf(ip, patterns) == PolicyOf(ip, patterns[..k])
  {
    if k == |patterns| {
      assert patterns[..k] == patterns;
    } else {
      assert patterns[..|patterns| - 1][..k] == patterns[..k];
      FirstErrorDecides(ip, patterns[..|patterns| - 1], k);
    }
  }

  method Compile(ip: string -> IP, patterns: seq<string>) returns (res: Result<Policy>)
    ensures res == PolicyOf(ip, patterns)
  {
    var p := Policy(false, []);
    for k := 0 to |patterns|
      invariant PolicyOf(ip, patterns[..k]) == Ok(p)
    {
      assert patterns[..k + 1][..k] == patterns[..k];
      if PolicyOf(ip, patterns[..k + 1]).Err? {
        FirstErrorDecides(ip, patterns, k + 1);
      }
      var entry := TrimSpace(patterns[k]);
      if entry == "" {
        return Err(EmptyEntry);
      }
      if entry == WILDCARD {
        p := p.(allowAll := true);
        assert p.rules + [] == p.rules;
        continue;
      }
      var r := CompileRule(ip, entry);
      if r.Err? {
        return Err(r.error);
      }
      p := p.(rules := p.rules + [r.value]);
    }
    assert patterns[..|patterns|] == patterns;
    return Ok(p);
  }

  /** The origin as a browser serialises it, if it is one. */
  ghost function Canonical(ip: string -> IP, o: string): Option<Parts> {
    match Split(o)
    case Err(_) => None
    case Ok(p) => CanonicalParts(ip, p)
  }

  ghost function CanonicalParts(ip: string -> IP, p: Parts): Option<Parts> {
    match HostOf(ip, p.host)
    case Err(_) => None
    case Ok(h) => if p.port != "" && !IsPort(p.port) then None else Some(p.(host := h))
  }

  ghost function Verdict(ip: string -> IP, policy: Policy, o: string): Option<string> {
    if o == "" then None
    else if policy.allowAll then Some(WILDCARD)
    else
      match Canonical(ip, o)
      case None => None
      case Some(p) => if exists r :: r in policy.rules && Matches(r, p) then Some(Serialise(p)) else None
  }

  method AnyMatches(rules: seq<Rule>, p: Parts) returns (any: bool)
    ensures any <==> exists r :: r in rules && Matches(r, p)
  {
    for k := 0 to |rules|
      invariant forall j :: 0 <= j < k ==> !Matches(rules[j], p)
    {
      if Matches(rules[k], p) {
        return true;
      }
    }
    return false;
  }

  method Allow(ip: string -> IP, policy: Policy, o: string) returns (v: Option<string>)
    ensures v == Verdict(ip, policy, o)
  {
    if o == "" {
      return None;
    }
    if policy.allowAll {
      return Some(WILDCARD);
    }
    if |policy.rules| == 0 {
      return None;
    }
    var parts := Split(o);
    if parts.Err? {
      return None;
    }
    var canonical := ValidateHost(ip, parts.value.host);
    if canonical.Err? {
      return None;
    }
    if parts.value.port != "" {
      var ok := ValidatePort(parts.value.port);
      if !ok {
        return None;
      }
    }
    var p := parts.value.(host := canonical.value);
    assert Canonical(ip, o) == Some(p);
    var any := AnyMatches(policy.rules, p);
    return if any then Some(Serialise(p)) else None;
  }
}
