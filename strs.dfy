/**
 * The pieces of Go's strings and fmt packages that the service relies on: substring search,
 * Split/Join, Replace with n = -1, TrimSpace and the decimal rendering of integers.
 * Strings are sequences of characters.
 */
module Strs {

  /** s starts with p (strings.HasPrefix). */
  predicate HasPrefix(s: string, p: string) {
    |p| <= |s| && s[..|p|] == p
  }

  /** sub occurs in s starting at index i. */
  predicate OccursAt(s: string, sub: string, i: int) {
    0 <= i <= |s| - |sub| && s[i..i + |sub|] == sub
  }

  /** sub occurs in s as a contiguous run (strings.Contains). */
  predicate Contains(s: string, sub: string)
    decreases |s|
  {
    HasPrefix(s, sub) || (|s| > 0 && Contains(s[1..], sub))
  }

  /** The scanning definition of Contains agrees with "occurs at some index". */
  lemma {:induction false} ContainsIffOccurs(s: string, sub: string)
    ensures Contains(s, sub) <==> exists i :: OccursAt(s, sub, i)
    decreases |s|
  {
    if HasPrefix(s, sub) {
      assert OccursAt(s, sub, 0);
    } else if |s| == 0 {
    } else {
      ContainsIffOccurs(s[1..], sub);
      if Contains(s[1..], sub) {
        var i :| OccursAt(s[1..], sub, i);
        assert s[1..][i..i + |sub|] == s[i + 1..i + 1 + |sub|];
        assert OccursAt(s, sub, i + 1);
      }
      forall i | OccursAt(s, sub, i) ensures Contains(s[1..], sub) {
        assert i != 0;
        assert s[1..][i - 1..i - 1 + |sub|] == s[i..i + |sub|];
        assert OccursAt(s[1..], sub, i - 1);
      }
    }
  }

  /** strings.Replace(s, pat, rep, -1): every non-overlapping occurrence, leftmost first. */
  function ReplaceAll(s: string, pat: string, rep: string): string
    requires |pat| > 0
    decreases |s|
  {
    if |s| < |pat| then s
    else if s[..|pat|] == pat then rep + ReplaceAll(s[|pat|..], pat, rep)
    else [s[0]] + ReplaceAll(s[1..], pat, rep)
  }

  /** strings.Split(s, sep) for a non-empty sep: the pieces between non-overlapping occurrences. */
  function Split(s: string, sep: string): (parts: seq<string>)
    requires |sep| > 0
    ensures |parts| >= 1
    decreases |s|
  {
    if |s| < |sep| then [s]
    else if s[..|sep|] == sep then [""] + Split(s[|sep|..], sep)
    else
      var rest := Split(s[1..], sep);
      [[s[0]] + rest[0]] + rest[1..]
  }

  /** strings.Join(parts, sep). */
  function Join(parts: seq<string>, sep: string): string
    decreases |parts|
  {
    if |parts| == 0 then ""
    else if |parts| == 1 then parts[0]
    else parts[0] + sep + Join(parts[1..], sep)
  }

  /** Text without an occurrence of pat is left unchanged by ReplaceAll. */
  lemma {:induction false} ReplaceAllAbsent(s: string, pat: string, rep: string)
    requires |pat| > 0 && !Contains(s, pat)
    ensures ReplaceAll(s, pat, rep) == s
    decreases |s|
  {
    if |s| >= |pat| {
      assert !HasPrefix(s, pat);
      ReplaceAllAbsent(s[1..], pat, rep);
      assert [s[0]] + s[1..] == s;
    }
  }

  /** Text without an occurrence of sep splits into itself alone. */
  lemma {:induction false} SplitAbsent(s: string, sep: string)
    requires |sep| > 0 && !Contains(s, sep)
    ensures Split(s, sep) == [s]
    decreases |s|
  {
    if |s| >= |sep| {
      assert !HasPrefix(s, sep);
      SplitAbsent(s[1..], sep);
      assert [s[0]] + s[1..] == s;
    }
  }

  lemma JoinConsFirst(c: char, parts: seq<string>, sep: string)
    requires |parts| >= 1
    ensures Join([[c] + parts[0]] + parts[1..], sep) == [c] + Join(parts, sep)
  {
    var p := [[c] + parts[0]] + parts[1..];
    if |parts| > 1 {
      assert p[1..] == parts[1..];
    }
  }

  /** Splitting on sep and joining with rep is the same as replacing every sep by rep. */
  lemma {:induction false} JoinSplitIsReplaceAll(s: string, sep: string, rep: string)
    requires |sep| > 0
    ensures Join(Split(s, sep), rep) == ReplaceAll(s, sep, rep)
    decreases |s|
  {
    if |s| < |sep| {
    } else if s[..|sep|] == sep {
      JoinSplitIsReplaceAll(s[|sep|..], sep, rep);
      var rest := Split(s[|sep|..], sep);
      assert ([""] + rest)[1..] == rest;
    } else {
      JoinSplitIsReplaceAll(s[1..], sep, rep);
      JoinConsFirst(s[0], Split(s[1..], sep), rep);
    }
  }

  /** Joining one more part appends the separator and that part. */
  lemma {:induction false} JoinSnoc(parts: seq<string>, p: string, sep: string)
    requires |parts| >= 1
    ensures Join(parts + [p], sep) == Join(parts, sep) + sep + p
    decreases |parts|
  {
    if |parts| == 1 {
      assert (parts + [p])[1..] == [p];
    } else {
      JoinSnoc(parts[1..], p, sep);
      assert (parts + [p])[1..] == parts[1..] + [p];
    }
  }

  /** With a one-character pattern, ReplaceAll works on each piece of a concatenation separately. */
  lemma {:induction false} ReplaceAllConcat(x: string, y: string, pat: string, rep: string)
    requires |pat| == 1
    ensures ReplaceAll(x + y, pat, rep) == ReplaceAll(x, pat, rep) + ReplaceAll(y, pat, rep)
    decreases |x|
  {
    if |x| == 0 {
      assert x + y == y;
    } else {
      ReplaceAllConcat(x[1..], y, pat, rep);
      assert (x + y)[1..] == x[1..] + y;
      assert (x + y)[..1] == x[..1];
    }
  }

  /** unicode.IsSpace: the Latin-1 spaces and the other characters of Unicode's White_Space. */
  predicate IsSpace(c: char) {
    var n := c as int;
    n == 0x09 || n == 0x0A || n == 0x0B || n == 0x0C || n == 0x0D || n == 0x20
    || n == 0x85 || n == 0xA0 || n == 0x1680 || (0x2000 <= n <= 0x200A)
    || n == 0x2028 || n == 0x2029 || n == 0x202F || n == 0x205F || n == 0x3000
  }

  /** The number of white-space characters s starts with. */
  function LeadingSpaces(s: string): (k: nat)
    ensures k <= |s|
    ensures forall i :: 0 <= i < k ==> IsSpace(s[i])
    ensures k < |s| ==> !IsSpace(s[k])
    decreases |s|
  {
    if |s| > 0 && IsSpace(s[0]) then 1 + LeadingSpaces(s[1..]) else 0
  }

  /** The number of white-space characters s ends with. */
  function TrailingSpaces(s: string): (k: nat)
    ensures k <= |s|
    ensures forall i :: |s| - k <= i < |s| ==> IsSpace(s[i])
    ensures k < |s| ==> !IsSpace(s[|s| - 1 - k])
    decreases |s|
  {
    if |s| > 0 && IsSpace(s[|s| - 1]) then 1 + TrailingSpaces(s[..|s| - 1]) else 0
  }

  /** strings.TrimSpace: drop the leading, then the trailing white space. */
  function TrimSpace(s: string): (r: string)
    ensures |r| > 0 ==> !IsSpace(r[0]) && !IsSpace(r[|r| - 1])
    ensures |r| <= |s|
    ensures exists k :: OccursAt(s, r, k) && AllSpace(s[..k]) && AllSpace(s[k + |r|..])
  {
    var k := LeadingSpaces(s);
    var t := s[k..];
    var r := t[..|t| - TrailingSpaces(t)];
    assert OccursAt(s, r, k) && AllSpace(s[..k]) && AllSpace(s[k + |r|..]);
    r
  }

  predicate AllSpace(s: string) {
    forall i :: 0 <= i < |s| ==> IsSpace(s[i])
  }

  /** Text that neither starts nor ends with white space is its own TrimSpace. */
  lemma TrimSpaceFixed(s: string)
    requires |s| > 0 ==> !IsSpace(s[0]) && !IsSpace(s[|s| - 1])
    ensures TrimSpace(s) == s
  {
    assert LeadingSpaces(s) == 0;
    assert s[0..] == s;
    assert TrailingSpaces(s) == 0;
  }

  /** Trimming twice is trimming once. */
  lemma TrimSpaceIdempotent(s: string)
    ensures TrimSpace(TrimSpace(s)) == TrimSpace(s)
  {
    TrimSpaceFixed(TrimSpace(s));
  }

  /** The decimal digit d as a character. */
  function DigitChar(d: nat): (c: char)
    requires d < 10
    ensures '0' <= c <= '9'
  {
    (48 + d) as char
  }

  /** The value of a decimal digit character. */
  function DigitValue(c: char): (d: nat)
    requires '0' <= c <= '9'
    ensures d < 10
  {
    c as int - 48
  }

  predicate AllDigits(s: string) {
    forall i :: 0 <= i < |s| ==> '0' <= s[i] <= '9'
  }

  /** The decimal rendering of a natural number, without leading zeros. */
  function NatToDecimal(n: nat): (s: string)
    ensures |s| >= 1 && AllDigits(s)
    ensures s[0] == '0' ==> n == 0
    decreases n
  {
    if n < 10 then [DigitChar(n)] else NatToDecimal(n / 10) + [DigitChar(n % 10)]
  }

  /** The value of a string of decimal digits. */
  function ParseNat(s: string): nat
    requires AllDigits(s)
    decreases |s|
  {
    if |s| == 0 then 0 else ParseNat(s[..|s| - 1]) * 10 + DigitValue(s[|s| - 1])
  }

  lemma {:induction false} ParseNatToDecimal(n: nat)
    ensures ParseNat(NatToDecimal(n)) == n
    decreases n
  {
    if n >= 10 {
      ParseNatToDecimal(n / 10);
      var s := NatToDecimal(n);
      assert s[..|s| - 1] == NatToDecimal(n / 10);
    }
  }

  /** fmt.Sprint of a Go integer: an optional minus sign and the decimal digits. */
  function IntToDecimal(n: int): (s: string)
    ensures |s| >= 1
    ensures (s[0] == '-') == (n < 0)
    ensures s[0] == '-' ==> AllDigits(s[1..])
    ensures s[0] != '-' ==> AllDigits(s)
  {
    if n < 0 then "-" + NatToDecimal(-n) else NatToDecimal(n)
  }

  /** Reads back the text IntToDecimal produces. */
  function ParseDecimal(s: string): int
    requires |s| >= 1
    requires s[0] == '-' ==> AllDigits(s[1..])
    requires s[0] != '-' ==> AllDigits(s)
  {
    if s[0] == '-' then 0 - ParseNat(s[1..]) else ParseNat(s)
  }

  /** The decimal rendering of an integer reads back as that integer. */
  lemma DecimalRoundTrip(n: int)
    ensures ParseDecimal(IntToDecimal(n)) == n
  {
    if n < 0 {
      assert IntToDecimal(n)[1..] == NatToDecimal(-n);
      ParseNatToDecimal(-n);
    } else {
      ParseNatToDecimal(n);
    }
  }

  /** Distinct integers have distinct decimal renderings. */
  lemma DecimalInjective(a: int, b: int)
    requires IntToDecimal(a) == IntToDecimal(b)
    ensures a == b
  {
    DecimalRoundTrip(a);
    DecimalRoundTrip(b);
  }
}
