/** The string operations of the source language that the model needs, on sequences of characters. */
module Text {

  /** What `str.isspace` accepts, which is also what `\s` matches. */
  predicate IsSpace(c: char)
  {
    || '\t' <= c <= '\r'
    || '\U{1c}' <= c <= ' '
    || c == '\U{85}' || c == '\U{a0}' || c == '\U{1680}'
    || '\U{2000}' <= c <= '\U{200a}'
    || c == '\U{2028}' || c == '\U{2029}' || c == '\U{202f}' || c == '\U{205f}' || c == '\U{3000}'
  }

  /** The characters at which `str.splitlines` breaks. */
  predicate IsBreak(c: char)
  {
    || '\n' <= c <= '\r'
    || '\U{1c}' <= c <= '\U{1e}'
    || c == '\U{85}' || c == '\U{2028}' || c == '\U{2029}'
  }

  predicate Ten(n: int, zero: int) { zero <= n <= zero + 9 }

  /** What `\d` matches outside ASCII: the digit decades of Unicode 15, general category Nd. */
  predicate IsForeignDigit(c: char)
  {
    var n := c as int;
    || Ten(n, 0x660) || Ten(n, 0x6F0) || Ten(n, 0x7C0) || Ten(n, 0x966) || Ten(n, 0x9E6) || Ten(n, 0xA66) || Ten(n, 0xAE6)
    || Ten(n, 0xB66) || Ten(n, 0xBE6) || Ten(n, 0xC66) || Ten(n, 0xCE6) || Ten(n, 0xD66) || Ten(n, 0xDE6) || Ten(n, 0xE50)
    || Ten(n, 0xED0) || Ten(n, 0xF20) || Ten(n, 0x1040) || Ten(n, 0x1090) || Ten(n, 0x17E0) || Ten(n, 0x1810) || Ten(n, 0x1946)
    || Ten(n, 0x19D0) || Ten(n, 0x1A80) || Ten(n, 0x1A90) || Ten(n, 0x1B50) || Ten(n, 0x1BB0) || Ten(n, 0x1C40) || Ten(n, 0x1C50)
    || Ten(n, 0xA620) || Ten(n, 0xA8D0) || Ten(n, 0xA900) || Ten(n, 0xA9D0) || Ten(n, 0xA9F0) || Ten(n, 0xAA50) || Ten(n, 0xABF0)
    || Ten(n, 0xFF10) || Ten(n, 0x104A0) || Ten(n, 0x10D30) || Ten(n, 0x11066) || Ten(n, 0x110F0) || Ten(n, 0x11136) || Ten(n, 0x111D0)
    || Ten(n, 0x112F0) || Ten(n, 0x11450) || Ten(n, 0x114D0) || Ten(n, 0x11650) || Ten(n, 0x116C0) || Ten(n, 0x11730) || Ten(n, 0x118E0)
    || Ten(n, 0x11950) || Ten(n, 0x11C50) || Ten(n, 0x11D50) || Ten(n, 0x11DA0) || Ten(n, 0x11F50) || Ten(n, 0x16A60) || Ten(n, 0x16AC0)
    || Ten(n, 0x16B50) || Ten(n, 0x1D7CE) || Ten(n, 0x1D7D8) || Ten(n, 0x1D7E2) || Ten(n, 0x1D7EC) || Ten(n, 0x1D7F6) || Ten(n, 0x1E140)
    || Ten(n, 0x1E2F0) || Ten(n, 0x1E4F0) || Ten(n, 0x1E950) || Ten(n, 0x1FBF0)
  }

  /** What `\d` matches. */
  predicate IsDigit(c: char) { '0' <= c <= '9' || IsForeignDigit(c) }

  /** The value `int` gives a digit. */
  function DigitValue(c: char): (v: nat)
    requires IsDigit(c)
    ensures v <= 9
  {
    if '0' <= c <= '9' then c as int - '0' as int else ForeignValue(c as int)
  }

  function ForeignValue(n: int): (v: nat)
    ensures v <= 9
  {
    if Ten(n, 0x660) then n - 0x660 else if Ten(n, 0x6F0) then n - 0x6F0 else if Ten(n, 0x7C0) then n - 0x7C0 else if Ten(n, 0x966) then n - 0x966 else
    if Ten(n, 0x9E6) then n - 0x9E6 else if Ten(n, 0xA66) then n - 0xA66 else if Ten(n, 0xAE6) then n - 0xAE6 else if Ten(n, 0xB66) then n - 0xB66 else
    if Ten(n, 0xBE6) then n - 0xBE6 else if Ten(n, 0xC66) then n - 0xC66 else if Ten(n, 0xCE6) then n - 0xCE6 else if Ten(n, 0xD66) then n - 0xD66 else
    if Ten(n, 0xDE6) then n - 0xDE6 else if Ten(n, 0xE50) then n - 0xE50 else if Ten(n, 0xED0) then n - 0xED0 else if Ten(n, 0xF20) then n - 0xF20 else
    if Ten(n, 0x1040) then n - 0x1040 else if Ten(n, 0x1090) then n - 0x1090 else if Ten(n, 0x17E0) then n - 0x17E0 else if Ten(n, 0x1810) then n - 0x1810 else
    if Ten(n, 0x1946) then n - 0x1946 else if Ten(n, 0x19D0) then n - 0x19D0 else if Ten(n, 0x1A80) then n - 0x1A80 else if Ten(n, 0x1A90) then n - 0x1A90 else
    if Ten(n, 0x1B50) then n - 0x1B50 else if Ten(n, 0x1BB0) then n - 0x1BB0 else if Ten(n, 0x1C40) then n - 0x1C40 else if Ten(n, 0x1C50) then n - 0x1C50 else
    if Ten(n, 0xA620) then n - 0xA620 else if Ten(n, 0xA8D0) then n - 0xA8D0 else if Ten(n, 0xA900) then n - 0xA900 else if Ten(n, 0xA9D0) then n - 0xA9D0 else
    if Ten(n, 0xA9F0) then n - 0xA9F0 else if Ten(n, 0xAA50) then n - 0xAA50 else if Ten(n, 0xABF0) then n - 0xABF0 else if Ten(n, 0xFF10) then n - 0xFF10 else
    if Ten(n, 0x104A0) then n - 0x104A0 else if Ten(n, 0x10D30) then n - 0x10D30 else if Ten(n, 0x11066) then n - 0x11066 else if Ten(n, 0x110F0) then n - 0x110F0 else
    if Ten(n, 0x11136) then n - 0x11136 else if Ten(n, 0x111D0) then n - 0x111D0 else if Ten(n, 0x112F0) then n - 0x112F0 else if Ten(n, 0x11450) then n - 0x11450 else
    if Ten(n, 0x114D0) then n - 0x114D0 else if Ten(n, 0x11650) then n - 0x11650 else if Ten(n, 0x116C0) then n - 0x116C0 else if Ten(n, 0x11730) then n - 0x11730 else
    if Ten(n, 0x118E0) then n - 0x118E0 else if Ten(n, 0x11950) then n - 0x11950 else if Ten(n, 0x11C50) then n - 0x11C50 else if Ten(n, 0x11D50) then n - 0x11D50 else
    if Ten(n, 0x11DA0) then n - 0x11DA0 else if Ten(n, 0x11F50) then n - 0x11F50 else if Ten(n, 0x16A60) then n - 0x16A60 else if Ten(n, 0x16AC0) then n - 0x16AC0 else
    if Ten(n, 0x16B50) then n - 0x16B50 else if Ten(n, 0x1D7CE) then n - 0x1D7CE else if Ten(n, 0x1D7D8) then n - 0x1D7D8 else if Ten(n, 0x1D7E2) then n - 0x1D7E2 else
    if Ten(n, 0x1D7EC) then n - 0x1D7EC else if Ten(n, 0x1D7F6) then n - 0x1D7F6 else if Ten(n, 0x1E140) then n - 0x1E140 else if Ten(n, 0x1E2F0) then n - 0x1E2F0 else
    if Ten(n, 0x1E4F0) then n - 0x1E4F0 else if Ten(n, 0x1E950) then n - 0x1E950 else if Ten(n, 0x1FBF0) then n - 0x1FBF0 else 0
  }

  function Digit(n: nat): (c: char)
    requires n < 10
    ensures '0' <= c <= '9'
  {
    ('0' as int + n) as char
  }

  function Decimal(n: nat): (s: string)
    ensures |s| > 0
    ensures forall k :: 0 <= k < |s| ==> '0' <= s[k] <= '9'
  {
    if n < 10 then [Digit(n)] else Decimal(n / 10) + [Digit(n % 10)]
  }

  /** A horizontal blank, the `[ \t]` of the separator patterns. */
  predicate IsBlank(c: char) { c == ' ' || c == '\t' }

  // ---- lines and runs ----------------------------------------------------------------------

  /** Length of the first line with its break, as `str.splitlines(keepends=True)` cuts it. */
  function LineLen(s: string): (n: nat)
    requires |s| > 0
    ensures 0 < n <= |s|
  {
    if IsBreak(s[0]) then (if s[0] == '\r' && |s| > 1 && s[1] == '\n' then 2 else 1)
    else if |s| == 1 then 1
    else 1 + LineLen(s[1..])
  }

  function Lines(s: string): seq<string>
    decreases |s|
  {
    if |s| == 0 then [] else [s[..LineLen(s)]] + Lines(s[LineLen(s)..])
  }

  /** A line without its break. */
  function Body(line: string): (b: string)
    ensures b <= line
  {
    if |line| >= 2 && line[|line| - 2] == '\r' && line[|line| - 1] == '\n' then line[..|line| - 2]
    else if |line| >= 1 && IsBreak(line[|line| - 1]) then line[..|line| - 1]
    else line
  }

  function DigitRun(s: string): (n: nat)
    ensures n <= |s|
    ensures forall k :: 0 <= k < n ==> IsDigit(s[k])
    ensures n < |s| ==> !IsDigit(s[n])
  {
    if |s| == 0 || !IsDigit(s[0]) then 0 else 1 + DigitRun(s[1..])
  }

  function SpaceRun(s: string): (n: nat)
    ensures n <= |s|
    ensures forall k :: 0 <= k < n ==> IsSpace(s[k])
    ensures n < |s| ==> !IsSpace(s[n])
  {
    if |s| == 0 || !IsSpace(s[0]) then 0 else 1 + SpaceRun(s[1..])
  }

  // ---- strip -----------------------------------------------------------------------------

  function LStrip(s: string): (r: string)
    ensures |r| <= |s| && r == s[|s| - |r|..]
    ensures |r| > 0 ==> !IsSpace(r[0])
    ensures forall k :: 0 <= k < |s| - |r| ==> IsSpace(s[k])
  {
    if |s| > 0 && IsSpace(s[0]) then LStrip(s[1..]) else s
  }

  function RStrip(s: string): (r: string)
    ensures |r| <= |s| && r == s[..|r|]
    ensures |r| > 0 ==> !IsSpace(r[|r| - 1])
    ensures forall k :: |r| <= k < |s| ==> IsSpace(s[k])
  {
    if |s| > 0 && IsSpace(s[|s| - 1]) then RStrip(s[..|s| - 1]) else s
  }

  function Strip(s: string): (r: string)
    ensures |r| <= |s|
    ensures |r| > 0 ==> !IsSpace(r[0]) && !IsSpace(r[|r| - 1])
  {
    RStrip(LStrip(s))
  }

  /** No white space at either end. */
  predicate Trimmed(s: string)
  {
    |s| > 0 ==> !IsSpace(s[0]) && !IsSpace(s[|s| - 1])
  }

  lemma StripTrimmed(s: string)
    ensures Strip(s) == s <==> Trimmed(s)
    ensures Strip(Strip(s)) == Strip(s)
  {
  }

  /** Stripping yields nothing exactly for text that is all white space. */
  lemma StripBlank(s: string)
    ensures Strip(s) == [] <==> forall k :: 0 <= k < |s| ==> IsSpace(s[k])
  {
    var l := LStrip(s);
    assert |l| > 0 ==> s[|s| - |l|] == l[0];
  }

  // ---- searching -------------------------------------------------------------------------

  predicate At(s: string, i: nat, p: string)
  {
    i + |p| <= |s| && s[i..i + |p|] == p
  }

  lemma AtIndex(s: string, i: nat, p: string)
    ensures At(s, i, p) ==> forall j :: 0 <= j < |p| ==> s[i + j] == p[j]
  {
    if At(s, i, p) {
      forall j | 0 <= j < |p|
        ensures s[i + j] == p[j]
      {
        assert s[i + j] == s[i..i + |p|][j];
      }
    }
  }

  predicate StartsWith(s: string, p: string)
  {
    At(s, 0, p)
  }

  predicate EndsWith(s: string, p: string)
  {
    |p| <= |s| && s[|s| - |p|..] == p
  }

  /** Position of the first occurrence of `p` at or after `i`, or `|s| + 1` if there is none. */
  function FindFrom(s: string, p: string, i: nat): (r: nat)
    requires i <= |s|
    ensures i <= r <= |s| + 1
    ensures r <= |s| ==> At(s, r, p)
    ensures forall k :: i <= k < r && k <= |s| ==> !At(s, k, p)
    decreases |s| - i
  {
    if At(s, i, p) then i
    else if i == |s| then |s| + 1
    else FindFrom(s, p, i + 1)
  }

  function Find(s: string, p: string): (r: nat)
    ensures r <= |s| + 1
    ensures r <= |s| ==> At(s, r, p)
    ensures forall k :: 0 <= k < r && k <= |s| ==> !At(s, k, p)
  {
    FindFrom(s, p, 0)
  }

  predicate Contains(s: string, p: string)
  {
    Find(s, p) <= |s|
  }

  lemma ContainsIff(s: string, p: string)
    ensures Contains(s, p) <==> exists k :: 0 <= k <= |s| && At(s, k, p)
  {
  }
}
