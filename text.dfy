/** The string operations the portal relies on: number formatting in template
    literals, ASCII case mapping, the regular-expression class `\s`, and
    `String.prototype.replace` with a string pattern. */
module Text {
  import opened Seqs

  // ---------------------------------------------------------------------------
  // Decimal numerals (`${n}` for a non-negative integer)

  function DigitChar(d: nat): (c: char)
    requires d < 10
    ensures '0' <= c <= '9'
  {
    ['0', '1', '2', '3', '4', '5', '6', '7', '8', '9'][d]
  }

  function DigitValue(c: char): (d: nat)
    requires '0' <= c <= '9'
    ensures d < 10
  {
    (c as int) - ('0' as int)
  }

  predicate IsDigits(s: string)
  {
    forall i :: 0 <= i < |s| ==> '0' <= s[i] <= '9'
  }

  /** The decimal numeral of `n` with no leading zeros. */
  function NatToString(n: nat): (r: string)
    ensures |r| >= 1 && IsDigits(r)
    ensures n < 10 <==> |r| == 1
    ensures n < 100 ==> |r| <= 2
    ensures |r| > 1 ==> r[0] != '0'
  {
    if n < 10 then [DigitChar(n)]
    else NatToString(n / 10) + [DigitChar(n % 10)]
  }

  /** The value of a numeral, read most-significant digit first. */
  function ParseDecimal(s: string): nat
    requires IsDigits(s)
  {
    if s == [] then 0
    else 10 * ParseDecimal(s[..|s| - 1]) + DigitValue(s[|s| - 1])
  }

  /** The numeral of a number reads back as that number. */
  lemma {:induction false} ParseNatToString(n: nat)
    ensures ParseDecimal(NatToString(n)) == n
  {
    var r := NatToString(n);
    if n < 10 {
      assert r[..0] == [];
    } else {
      ParseNatToString(n / 10);
      assert r[..|r| - 1] == NatToString(n / 10);
    }
  }

  /** Distinct numbers have distinct numerals. */
  lemma NatToStringInjective(m: nat, n: nat)
    requires NatToString(m) == NatToString(n)
    ensures m == n
  {
    ParseNatToString(m);
    ParseNatToString(n);
  }

  // ---------------------------------------------------------------------------
  // ASCII case mapping (the part of `toLowerCase`/`toUpperCase` this model keeps)

  function LowerChar(c: char): char
  {
    if 'A' <= c <= 'Z' then ((c as int) + 32) as char else c
  }

  function UpperChar(c: char): char
  {
    if 'a' <= c <= 'z' then ((c as int) - 32) as char else c
  }

  function ToLowerAscii(s: string): (r: string)
    ensures |r| == |s|
    ensures forall i :: 0 <= i < |r| ==> !('A' <= r[i] <= 'Z')
    ensures forall i :: 0 <= i < |r| ==> r[i] == s[i] || ('A' <= s[i] <= 'Z' && UpperChar(r[i]) == s[i])
  {
    seq(|s|, i requires 0 <= i < |s| => LowerChar(s[i]))
  }

  function ToUpperAscii(s: string): (r: string)
    ensures |r| == |s|
    ensures forall i :: 0 <= i < |r| ==> !('a' <= r[i] <= 'z')
    ensures forall i :: 0 <= i < |r| ==> r[i] == s[i] || ('a' <= s[i] <= 'z' && LowerChar(r[i]) == s[i])
  {
    seq(|s|, i requires 0 <= i < |s| => UpperChar(s[i]))
  }

  // ---------------------------------------------------------------------------
  // The regular-expression class `\s` of ECMAScript: white space and line terminators

  predicate IsSpace(c: char)
  {
    || c == ' ' || c == '\t' || c == '\n' || c == '\r'
    || c == '\U{000B}' || c == '\U{000C}' || c == '\U{00A0}' || c == '\U{1680}'
    || ('\U{2000}' <= c <= '\U{200A}')
    || c == '\U{2028}' || c == '\U{2029}' || c == '\U{202F}' || c == '\U{205F}'
    || c == '\U{3000}' || c == '\U{FEFF}'
  }

  predicate IsNotSpace(c: char)
  {
    !IsSpace(c)
  }

  /** The length of the run of `\s` characters that `s` starts with. */
  function SpaceRunLength(s: string): (n: nat)
    ensures n <= |s|
    ensures forall i :: 0 <= i < n ==> IsSpace(s[i])
    ensures n < |s| ==> !IsSpace(s[n])
  {
    if s == [] || !IsSpace(s[0]) then 0 else 1 + SpaceRunLength(s[1..])
  }

  /** `s.replace(/\s+/g, '')`: scanning left to right, every maximal run of
      `\s` characters is matched and replaced by nothing. */
  function RemoveSpaceRuns(s: string): string
    decreases |s|
  {
    if s == [] then []
    else if IsSpace(s[0]) then RemoveSpaceRuns(s[SpaceRunLength(s)..])
    else [s[0]] + RemoveSpaceRuns(s[1..])
  }

  /** Removing the runs is the same as dropping each `\s` character, so the
      result holds no white space and keeps every other character in order. */
  lemma {:induction false} RemoveSpaceRunsIsFilter(s: string)
    ensures RemoveSpaceRuns(s) == Filter(s, IsNotSpace)
    decreases |s|
  {
    if s != [] {
      if IsSpace(s[0]) {
        var n := SpaceRunLength(s);
        RemoveSpaceRunsIsFilter(s[n..]);
        assert s == s[..n] + s[n..];
        FilterAppend(s[..n], s[n..], IsNotSpace);
        FilterDropsAll(s[..n], IsNotSpace);
      } else {
        RemoveSpaceRunsIsFilter(s[1..]);
      }
    }
  }

  // ---------------------------------------------------------------------------
  // `s.replace(a, b)` with a one-character string pattern: only the first match

  function ReplaceFirst(s: string, a: char, b: char): (r: string)
    ensures |r| == |s|
  {
    if s == [] then []
    else if s[0] == a then [b] + s[1..]
    else [s[0]] + ReplaceFirst(s[1..], a, b)
  }

  /** Without an `a`, nothing changes. */
  lemma {:induction false} ReplaceFirstNoMatch(s: string, a: char, b: char)
    requires a !in s
    ensures ReplaceFirst(s, a, b) == s
    decreases |s|
  {
    if s != [] {
      assert s[1..] <= s[1..];
      assert forall x :: x in s[1..] ==> x in s;
      ReplaceFirstNoMatch(s[1..], a, b);
    }
  }

  /** Before the first `a` nothing changes, the first `a` becomes `b`, and
      everything after it is kept as it was. */
  lemma {:induction false} ReplaceFirstAt(s: string, a: char, b: char, k: nat)
    requires k < |s| && s[k] == a && a !in s[..k]
    ensures ReplaceFirst(s, a, b) == s[..k] + [b] + s[k + 1..]
    decreases k
  {
    if k > 0 {
      assert s[0] in s[..k];
      var t := s[1..];
      assert t[k - 1] == a;
      assert t[..k - 1] == s[1..k];
      assert forall x :: x in s[1..k] ==> x in s[..k];
      ReplaceFirstAt(t, a, b, k - 1);
      assert t[k..] == s[k + 1..];
      assert s[..k] == [s[0]] + s[1..k];
    }
  }

  // ---------------------------------------------------------------------------
  // `s.includes(t)`

  predicate StartsWith(s: string, t: string)
  {
    |t| <= |s| && s[..|t|] == t
  }

  predicate Includes(s: string, t: string)
    decreases |s|
  {
    StartsWith(s, t) || (s != [] && Includes(s[1..], t))
  }

  /** A string lacking the first character of `t` does not include `t`. */
  lemma {:induction false} IncludesNeedsFirstChar(s: string, t: string)
    requires |t| > 0 && t[0] !in s
    ensures !Includes(s, t)
    decreases |s|
  {
    if s != [] {
      IncludesNeedsFirstChar(s[1..], t);
    }
  }
}
