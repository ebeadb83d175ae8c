/** String operations the view models rely on: Foundation's whitespace trimming,
    lowercasing, substring search, and the decimal rendering of an `Int`
    (`String(id)`) together with its parse (`Int(s)`). Strings are `seq<char>`. */
module Text {

  datatype Option<T> = None | Some(value: T)

  /** Membership in Foundation's `CharacterSet.whitespacesAndNewlines`: the Unicode
      categories Zs, Zl and Zp, the controls U+0009 to U+000D, and U+0085. */
  predicate IsWhitespace(c: char) {
    ('\t' <= c && c <= '\r')
    || c == ' ' || c == '\U{0085}' || c == '\U{00A0}' || c == '\U{1680}'
    || ('\U{2000}' <= c && c <= '\U{200A}')
    || c == '\U{2028}' || c == '\U{2029}' || c == '\U{202F}' || c == '\U{205F}' || c == '\U{3000}'
  }

  /** The number of characters of `s` that are not whitespace. */
  function CountNonWhitespace(s: string): (n: nat)
    ensures n <= |s|
  {
    if s == [] then 0
    else (if IsWhitespace(s[0]) then 0 else 1) + CountNonWhitespace(s[1..])
  }

  lemma {:induction false} CountNonWhitespaceAppend(a: string, b: string)
    ensures CountNonWhitespace(a + b) == CountNonWhitespace(a) + CountNonWhitespace(b)
  {
    if a != [] {
      assert (a + b)[0] == a[0] && (a + b)[1..] == a[1..] + b;
      CountNonWhitespaceAppend(a[1..], b);
    } else {
      assert a + b == b;
    }
  }

  /** A string that holds a non-whitespace character has a positive count. */
  lemma {:induction false} CountNonWhitespaceAt(s: string, i: nat)
    requires i < |s| && !IsWhitespace(s[i])
    ensures CountNonWhitespace(s) >= 1
  {
    if i > 0 {
      CountNonWhitespaceAt(s[1..], i - 1);
    }
  }

  /** `s` with its leading whitespace removed: a suffix of `s` that starts with a
      non-whitespace character (or is empty), everything cut off being whitespace. */
  function TrimLeading(s: string): (r: string)
    ensures |r| <= |s| && r == s[|s| - |r|..]
    ensures forall i :: 0 <= i < |s| - |r| ==> IsWhitespace(s[i])
    ensures r == [] || !IsWhitespace(r[0])
    ensures CountNonWhitespace(r) == CountNonWhitespace(s)
  {
    if s != [] && IsWhitespace(s[0]) then TrimLeading(s[1..]) else s
  }

  /** `s` with its trailing whitespace removed: a prefix of `s` that ends with a
      non-whitespace character (or is empty), everything cut off being whitespace. */
  function TrimTrailing(s: string): (r: string)
    ensures |r| <= |s| && r == s[..|r|]
    ensures forall i :: |r| <= i < |s| ==> IsWhitespace(s[i])
    ensures r == [] || !IsWhitespace(r[|r| - 1])
    ensures CountNonWhitespace(r) == CountNonWhitespace(s)
  {
    if s != [] && IsWhitespace(s[|s| - 1]) then
      var r := TrimTrailing(s[..|s| - 1]);
      assert s == s[..|s| - 1] + [s[|s| - 1]];
      CountNonWhitespaceAppend(s[..|s| - 1], [s[|s| - 1]]);
      r
    else s
  }

  predicate AllWhitespace(s: string) {
    forall k :: 0 <= k < |s| ==> IsWhitespace(s[k])
  }

  /** `r` is the block of `s` starting at offset `i`, and everything of `s` before and
      after that block is whitespace. */
  predicate TrimmedAt(s: string, r: string, i: int) {
    0 <= i && i + |r| <= |s| && r == s[i..i + |r|]
    && AllWhitespace(s[..i]) && AllWhitespace(s[i + |r|..])
  }

  lemma LeadingIsWhitespace(s: string)
    ensures AllWhitespace(s[..|s| - |TrimLeading(s)|])
  {
    var p := s[..|s| - |TrimLeading(s)|];
    assert forall k :: 0 <= k < |p| ==> p[k] == s[k];
  }

  lemma TrailingIsWhitespace(s: string)
    ensures AllWhitespace(s[|TrimTrailing(s)|..])
  {
    var q := s[|TrimTrailing(s)|..];
    assert forall k :: 0 <= k < |q| ==> q[k] == s[|TrimTrailing(s)| + k];
  }

  /** A prefix `r` of a suffix `l` of `s`, with whitespace before `l` and after `r`, is
      the block of `s` that starts where `l` does. */
  lemma BlockOfSuffix(s: string, l: string, r: string)
    requires |l| <= |s| && l == s[|s| - |l|..] && AllWhitespace(s[..|s| - |l|])
    requires |r| <= |l| && r == l[..|r|] && AllWhitespace(l[|r|..])
    ensures TrimmedAt(s, r, |s| - |l|)
  {
    var i := |s| - |l|;
    assert s[i + |r|..] == l[|r|..];
  }

  /** Trimming the trailing whitespace off the trimmed-leading text leaves the block of
      `s` that starts where the leading whitespace ends. */
  lemma TrimBothEnds(s: string)
    ensures TrimmedAt(s, TrimTrailing(TrimLeading(s)), |s| - |TrimLeading(s)|)
  {
    LeadingIsWhitespace(s);
    TrailingIsWhitespace(TrimLeading(s));
    BlockOfSuffix(s, TrimLeading(s), TrimTrailing(TrimLeading(s)));
  }

  /** `s.trimmingCharacters(in: .whitespacesAndNewlines)`: whitespace removed at both ends,
      and nothing else. */
  function Trim(s: string): (r: string)
    ensures |r| <= |s|
    ensures TrimmedAt(s, r, |s| - |TrimLeading(s)|)
    ensures r == [] || (!IsWhitespace(r[0]) && !IsWhitespace(r[|r| - 1]))
    ensures CountNonWhitespace(r) == CountNonWhitespace(s)
  {
    TrimBothEnds(s);
    TrimTrailing(TrimLeading(s))
  }

  /** The trimmed text is at least two characters long exactly when the text holds at
      least two non-whitespace characters: the trimmed text keeps every one of them and
      begins and ends with one. */
  lemma TrimmedLengthAtLeastTwo(s: string)
    ensures |Trim(s)| >= 2 <==> CountNonWhitespace(s) >= 2
  {
    EndsLengthAtLeastTwo(Trim(s));
  }

  /** A text that is empty or begins and ends with non-whitespace is at least two
      characters long exactly when it holds two non-whitespace characters. */
  lemma EndsLengthAtLeastTwo(r: string)
    requires r == [] || (!IsWhitespace(r[0]) && !IsWhitespace(r[|r| - 1]))
    ensures |r| >= 2 <==> CountNonWhitespace(r) >= 2
  {
    if |r| >= 2 {
      CountNonWhitespaceAt(r[1..], |r| - 2);
    }
  }

  /** A whitespace-only string trims to the empty string. */
  lemma {:induction false} TrimAllWhitespace(s: string)
    requires forall i :: 0 <= i < |s| ==> IsWhitespace(s[i])
    ensures Trim(s) == []
  {
    CountAllWhitespace(s);
  }

  lemma {:induction false} CountAllWhitespace(s: string)
    requires forall i :: 0 <= i < |s| ==> IsWhitespace(s[i])
    ensures CountNonWhitespace(s) == 0
  {
    if s != [] {
      CountAllWhitespace(s[1..]);
    }
  }

  /** ASCII lowercasing of one character. */
  function Lower(c: char): (d: char)
    ensures 'A' <= c <= 'Z' ==> d as int == c as int + 32
    ensures !('A' <= c <= 'Z') ==> d == c
  {
    if 'A' <= c <= 'Z' then (c as int + 32) as char else c
  }

  /** `s.lowercased()`, character by character. */
  function Lowercased(s: string): (r: string)
    ensures |r| == |s|
    ensures forall i :: 0 <= i < |s| ==> r[i] == Lower(s[i])
  {
    seq(|s|, i requires 0 <= i < |s| => Lower(s[i]))
  }

  /** `s.contains(t)`: `t` occurs in `s` as a contiguous block. */
  predicate Contains(s: string, t: string)
    decreases |s|
  {
    t <= s || (s != [] && Contains(s[1..], t))
  }

  /** `t` occurs in `s` starting at offset `k`. */
  predicate OccursAt(s: string, t: string, k: int) {
    0 <= k <= |s| - |t| && s[k..k + |t|] == t
  }

  /** `Contains` finds `t` exactly when `t` occurs at some offset of `s`. */
  lemma {:induction false} ContainsIff(s: string, t: string)
    ensures Contains(s, t) <==> exists k :: OccursAt(s, t, k)
  {
    if t <= s {
      assert OccursAt(s, t, 0);
    } else if s == [] {
    } else {
      ContainsIff(s[1..], t);
      if Contains(s[1..], t) {
        var k :| OccursAt(s[1..], t, k);
        assert s[k + 1..k + 1 + |t|] == t;
        assert OccursAt(s, t, k + 1);
      } else {
        forall k | 0 <= k <= |s| - |t|
          ensures !OccursAt(s, t, k)
        {
          if k == 0 {
            assert s[..|t|] == s[0..0 + |t|];
          } else {
            assert s[k..k + |t|] == s[1..][k - 1..k - 1 + |t|];
            assert !OccursAt(s[1..], t, k - 1);
          }
        }
      }
    }
  }

  predicate IsDigit(c: char) {
    '0' <= c <= '9'
  }

  function DigitValue(c: char): (d: nat)
    requires IsDigit(c)
    ensures d < 10
  {
    c as int - '0' as int
  }

  function DigitChar(d: nat): (c: char)
    requires d < 10
    ensures IsDigit(c) && DigitValue(c) == d
  {
    (d + '0' as int) as char
  }

  /** The decimal digits of `n`, most significant first, with no leading zero. */
  function NatToString(n: nat): (r: string)
    ensures |r| >= 1
    ensures forall i :: 0 <= i < |r| ==> IsDigit(r[i])
    ensures r[0] == '0' ==> n == 0 && r == "0"
  {
    if n < 10 then [DigitChar(n)] else NatToString(n / 10) + [DigitChar(n % 10)]
  }

  /** `String(n)` for an `Int`: a minus sign for negative values, then the digits. */
  function IntToString(n: int): (r: string)
    ensures |r| >= 1
    ensures n >= 0 ==> forall i :: 0 <= i < |r| ==> IsDigit(r[i])
    ensures n < 0 ==> r[0] == '-' && forall i :: 1 <= i < |r| ==> IsDigit(r[i])
    ensures r[0] == '0' ==> n == 0 && r == "0"
    ensures n < 0 ==> |r| >= 2 && r[1] != '0'
  {
    if n < 0 then "-" + NatToString(-n) else NatToString(n)
  }

  predicate AllDigits(s: string) {
    forall i :: 0 <= i < |s| ==> IsDigit(s[i])
  }

  /** The value of a run of decimal digits. */
  function DigitsValue(s: string): nat
    requires AllDigits(s)
  {
    if s == [] then 0 else DigitsValue(s[..|s| - 1]) * 10 + DigitValue(s[|s| - 1])
  }

  /** `Int(s)`: an optional sign followed by one or more decimal digits; anything
      else has no value. */
  function ParseInt(s: string): (r: Option<int>)
    ensures r.Some? ==> |s| >= 1
  {
    if |s| >= 2 && s[0] == '-' && AllDigits(s[1..]) then Some(-(DigitsValue(s[1..]) as int))
    else if |s| >= 2 && s[0] == '+' && AllDigits(s[1..]) then Some(DigitsValue(s[1..]))
    else if |s| >= 1 && AllDigits(s) then Some(DigitsValue(s))
    else None
  }

  lemma {:induction false} DigitsOfNat(n: nat)
    ensures DigitsValue(NatToString(n)) == n
  {
    if n >= 10 {
      var r := NatToString(n);
      assert r[..|r| - 1] == NatToString(n / 10);
      DigitsOfNat(n / 10);
    }
  }

  /** Parsing the decimal rendering of an integer gives the integer back. */
  lemma IntToStringRoundTrip(n: int)
    ensures ParseInt(IntToString(n)) == Some(n)
  {
    if n < 0 {
      assert IntToString(n)[1..] == NatToString(-n);
      DigitsOfNat(-n);
    } else {
      DigitsOfNat(n);
    }
  }

  /** Distinct integers have distinct decimal renderings. */
  lemma IntToStringInjective(a: int, b: int)
    requires IntToString(a) == IntToString(b)
    ensures a == b
  {
    IntToStringRoundTrip(a);
    IntToStringRoundTrip(b);
  }
}
