/** The few string operations of Go that the origin parser uses, on ASCII text. */
module Text {
  import opened Common

  predicate IsDigit(c: char) { '0' <= c <= '9' }

  predicate IsLowerLetter(c: char) { 'a' <= c <= 'z' }

  function LowerChar(c: char): char { if 'A' <= c <= 'Z' then c - 'A' + 'a' else c }

  function Lower(s: string): (r: string)
    ensures |r| == |s| && forall i :: 0 <= i < |s| ==> r[i] == LowerChar(s[i])
  {
    if s == "" then "" else [LowerChar(s[0])] + Lower(s[1..])
  }

  lemma LowerFixes(s: string)
    requires forall c :: c in s ==> !('A' <= c <= 'Z')
    ensures Lower(s) == s
  {
    forall i | 0 <= i < |s| ensures Lower(s)[i] == s[i] { assert s[i] in s; }
  }

  predicate IsSpace(c: char) { c == ' ' || '\t' <= c <= '\r' }

  function TrimLeft(s: string): string { if s != "" && IsSpace(s[0]) then TrimLeft(s[1..]) else s }

  function TrimRight(s: string): string { if s != "" && IsSpace(s[|s| - 1]) then TrimRight(s[..|s| - 1]) else s }

  function TrimSpace(s: string): string { TrimRight(TrimLeft(s)) }

  predicate IsBlank(c: char) { c == ' ' || c == '\t' || c == '\n' || c == '\r' || c as int == 11 || c as int == 12 }

  lemma {:induction false} TrimLeftMeans(s: string) returns (i: nat)
    ensures i <= |s| && TrimLeft(s) == s[i..] && (forall k :: 0 <= k < i ==> IsBlank(s[k]))
    ensures i < |s| ==> !IsBlank(s[i])
  {
    i := 0;
    if s != "" && IsSpace(s[0]) {
      var j := TrimLeftMeans(s[1..]);
      i := j + 1;
    }
  }

  lemma {:induction false} TrimRightMeans(s: string) returns (j: nat)
    ensures j <= |s| && TrimRight(s) == s[..j] && (forall k :: j <= k < |s| ==> IsBlank(s[k]))
    ensures j > 0 ==> !IsBlank(s[j - 1])
  {
    j := |s|;
    if s != "" && IsSpace(s[|s| - 1]) {
      j := TrimRightMeans(s[..|s| - 1]);
      assert s[..|s| - 1][..j] == s[..j];
    } else {
      assert s[..j] == s;
    }
  }

  /** Exactly the blanks on either side go. */
  lemma TrimMeans(s: string) returns (i: nat, j: nat)
    ensures i <= j <= |s| && TrimSpace(s) == s[i..j]
    ensures forall k :: 0 <= k < i || j <= k < |s| ==> IsBlank(s[k])
    ensures i < j ==> !IsBlank(s[i]) && !IsBlank(s[j - 1])
  {
    i := TrimLeftMeans(s);
    var m := TrimRightMeans(s[i..]);
    j := i + m;
    assert s[i..][..m] == s[i..j];
    forall k | j <= k < |s| ensures IsBlank(s[k]) {
      assert s[i..][k - i] == s[k];
    }
  }

  /** The first place sub occurs. */
  function Index(s: string, sub: string): (r: Option<nat>)
    ensures r.Some? ==> r.value + |sub| <= |s| && s[r.value..r.value + |sub|] == sub
  {
    if sub <= s then Some(0)
    else if s == "" then None
    else
      match Index(s[1..], sub)
      case None => None
      case Some(i) => Some(i + 1)
  }

  function IndexChar(s: string, c: char): (r: Option<nat>)
    ensures r.None? <==> c !in s
    ensures r.Some? ==> r.value < |s| && s[r.value] == c && c !in s[..r.value]
  {
    if s == "" then None
    else if s[0] == c then Some(0)
    else
      match IndexChar(s[1..], c)
      case None => None
      case Some(i) => assert s[..i + 1] == [s[0]] + s[1..][..i]; Some(i + 1)
  }

  function LastIndexChar(s: string, c: char): (r: Option<nat>)
    ensures r.None? <==> c !in s
    ensures r.Some? ==> r.value < |s| && s[r.value] == c && c !in s[r.value + 1..]
  {
    if s == "" then None
    else if s[|s| - 1] == c then Some(|s| - 1)
    else
      assert s == s[..|s| - 1] + [s[|s| - 1]];
      LastIndexChar(s[..|s| - 1], c)
  }

  predicate HasSuffix(s: string, t: string) { |t| <= |s| && s[|s| - |t|..] == t }

  lemma {:induction false} IndexAfter(pre: string, sub: string, post: string)
    requires sub != "" && sub[0] !in pre
    ensures Index(pre + sub + post, sub) == Some(|pre|)
  {
    var s := pre + sub + post;
    if pre == "" {
      assert s[..|sub|] == sub;
    } else {
      assert s[0] == pre[0];
      assert s[1..] == pre[1..] + sub + post;
      IndexAfter(pre[1..], sub, post);
    }
  }

  lemma IndexCharAt(s: string, c: char, i: nat)
    requires i < |s| && s[i] == c && c !in s[..i]
    ensures IndexChar(s, c) == Some(i)
  {
    var j := IndexChar(s, c).value;
    forall k | 0 <= k < i ensures s[k] != c { assert s[..i][k] == s[k]; }
    forall k | 0 <= k < j ensures s[k] != c { assert s[..j][k] == s[k]; }
  }

  lemma LastIndexCharAt(s: string, c: char, i: nat)
    requires i < |s| && s[i] == c && c !in s[i + 1..]
    ensures LastIndexChar(s, c) == Some(i)
  {
    var j := LastIndexChar(s, c).value;
    forall k | i < k < |s| ensures s[k] != c { assert s[i + 1..][k - i - 1] == s[k]; }
    forall k | j < k < |s| ensures s[k] != c { assert s[j + 1..][k - j - 1] == s[k]; }
  }

  // ------------------------------------------------------------ splitting at dots

  /** strings.Split(s, "."). */
  function SplitDots(s: string): (r: seq<string>)
    ensures r != []
    decreases |s|
  {
    match IndexChar(s, '.')
    case None => [s]
    case Some(i) => [s[..i]] + SplitDots(s[i + 1..])
  }

  lemma {:induction false} LabelsHaveNoDots(s: string)
    ensures forall k :: 0 <= k < |SplitDots(s)| ==> '.' !in SplitDots(s)[k]
    decreases |s|
  {
    if '.' in s {
      LabelsHaveNoDots(s[IndexChar(s, '.').value + 1..]);
    }
  }

  function JoinDots(labels: seq<string>): string
    requires labels != []
  {
    if |labels| == 1 then labels[0] else labels[0] + "." + JoinDots(labels[1..])
  }

  lemma {:induction false} JoinUndoesSplit(s: string)
    ensures JoinDots(SplitDots(s)) == s
    decreases |s|
  {
    if '.' in s {
      var i := IndexChar(s, '.').value;
      var front, rest := s[..i], s[i + 1..];
      JoinUndoesSplit(rest);
      JoinOfConcat([front], SplitDots(rest));
      assert s == front + "." + rest;
    }
  }

  lemma {:induction false} SplitOfJoined(a: string, b: string)
    ensures SplitDots(a + "." + b) == SplitDots(a) + SplitDots(b)
    decreases |a|
  {
    var s := a + "." + b;
    if '.' in a {
      var i := IndexChar(a, '.').value;
      assert s[..i] == a[..i];
      IndexCharAt(s, '.', i);
      assert s[i + 1..] == a[i + 1..] + "." + b;
      SplitOfJoined(a[i + 1..], b);
      assert SplitDots(s) == [a[..i]] + (SplitDots(a[i + 1..]) + SplitDots(b));
    } else {
      assert s[..|a|] == a;
      IndexCharAt(s, '.', |a|);
      assert s[|a| + 1..] == b;
    }
  }

  lemma {:induction false} JoinOfConcat(a: seq<string>, b: seq<string>)
    requires a != [] && b != []
    ensures JoinDots(a + b) == JoinDots(a) + "." + JoinDots(b)
  {
    if |a| == 1 {
      assert (a + b)[1..] == b;
    } else {
      assert (a + b)[1..] == a[1..] + b;
      JoinOfConcat(a[1..], b);
    }
  }

  /** Every character is a dot or stands in a label. */
  lemma {:induction false} CharsOfLabels(s: string, i: nat) returns (k: nat)
    requires i < |s| && s[i] != '.'
    ensures k < |SplitDots(s)| && s[i] in SplitDots(s)[k]
    decreases |s|
  {
    k := 0;
    if '.' in s {
      var d := IndexChar(s, '.').value;
      if i > d {
        var j := CharsOfLabels(s[d + 1..], i - d - 1);
        k := j + 1;
      } else {
        assert s[..d][i] == s[i];
      }
    }
  }

  // ------------------------------------------------------------ decimal text

  predicate AllDigits(s: string) { forall i :: 0 <= i < |s| ==> IsDigit(s[i]) }

  function Value(s: string): nat
    requires AllDigits(s)
  {
    if s == "" then 0 else Value(s[..|s| - 1]) * 10 + (s[|s| - 1] - '0') as int
  }

  /** How a number is written. */
  function Decimal(n: nat): string {
    var last := ['0' + (n % 10) as char];
    if n < 10 then last else Decimal(n / 10) + last
  }

  lemma {:induction false} ValueOfDecimal(n: nat)
    ensures AllDigits(Decimal(n)) && Value(Decimal(n)) == n
    ensures Decimal(n) != "" && (n > 0 ==> Decimal(n)[0] != '0')
  {
    var d := Decimal(n);
    if n >= 10 {
      ValueOfDecimal(n / 10);
      assert d[..|d| - 1] == Decimal(n / 10);
    } else {
      assert d[..0] == "";
    }
  }

  lemma {:induction false} DecimalOfValue(s: string)
    requires AllDigits(s) && s != "" && s[0] != '0'
    ensures Value(s) > 0 && Decimal(Value(s)) == s
  {
    var init := s[..|s| - 1];
    assert s == init + [s[|s| - 1]];
    if init == "" {
      assert Value(init) == 0;
    } else {
      DecimalOfValue(init);
      assert Value(s) / 10 == Value(init) && Value(s) % 10 == (s[|s| - 1] - '0') as int;
    }
  }

  lemma {:induction false} LengthOfValue(s: string)
    requires AllDigits(s) && s != "" && s[0] != '0' && Value(s) < 100000
    ensures |s| <= 5
  {
    if |s| > 5 {
      ValueGrows(s[..6]);
      PrefixValue(s, 6);
    }
  }

  lemma {:induction false} PrefixValue(s: string, k: nat)
    requires AllDigits(s) && k <= |s|
    ensures Value(s[..k]) <= Value(s)
  {
    if k < |s| {
      assert s[..|s| - 1][..k] == s[..k];
      PrefixValue(s[..|s| - 1], k);
    } else {
      assert s[..k] == s;
    }
  }

  function Pow10(k: nat): nat { if k == 0 then 1 else 10 * Pow10(k - 1) }

  lemma {:induction false} ValueGrows(s: string)
    requires AllDigits(s) && s != "" && s[0] != '0'
    ensures Value(s) >= Pow10(|s| - 1)
  {
    if |s| > 1 {
      ValueGrows(s[..|s| - 1]);
    } else {
      assert s[..0] == "";
    }
  }
}
