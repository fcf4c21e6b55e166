/** The numbered-line protocol: cue texts sent as `[i] text`, replies read back by number. */
module NumberedLines {
  import opened Options
  import opened Text
  import opened Blocks

  // ---- the marker ------------------------------------------------------------------------

  function Number(digits: string): (n: nat)
    requires forall k :: 0 <= k < |digits| ==> IsDigit(digits[k])
  {
    if |digits| == 0 then 0
    else 10 * Number(digits[..|digits| - 1]) + DigitValue(digits[|digits| - 1])
  }

  datatype Marker = Marker(number: nat, text: string)

  /** `[N]`, an optional period or parenthesis, and the text; `None` for a line without a marker. */
  function ParseMarker(stripped: string): Option<Marker>
  {
    if |stripped| == 0 || stripped[0] != '[' then None
    else
      var d := DigitRun(stripped[1..]);
      if d == 0 || 1 + d >= |stripped| || stripped[1 + d] != ']' then None
      else
        var rest := stripped[d + 2..];
        var body := if |rest| > 0 && (rest[0] == '.' || rest[0] == ')') then rest[1..] else rest;
        Some(Marker(Number(stripped[1..][..d]), Strip(body)))
  }

  // ---- cleaning one text -----------------------------------------------------------------

  /** `<<\s*BR\s*>>` at the start. */
  function BrLen(s: string): (n: nat)
    ensures n <= |s|
    ensures n > 0 ==> n >= 6
  {
    if !At(s, 0, "<<") then 0
    else
      var a := 2 + SpaceRun(s[2..]);
      if !At(s, a, "BR") then 0
      else
        var b := a + 2 + SpaceRun(s[a + 2..]);
        if At(s, b, ">>") then b + 2 else 0
  }

  /** A break marker, blanks and a newline at the start. */
  function BrNewlineLen(s: string): (n: nat)
    ensures n <= |s|
  {
    var b := BrLen(s);
    var e := b + BlankRun(s[b..]);
    if b > 0 && e < |s| && s[e] == '\n' then e + 1 else 0
  }

  /** A newline, blanks and a break marker at the start. */
  function NewlineBrLen(s: string): (n: nat)
    ensures n <= |s|
  {
    if |s| == 0 || s[0] != '\n' then 0
    else
      var b := 1 + BlankRun(s[1..]);
      if BrLen(s[b..]) > 0 then b + BrLen(s[b..]) else 0
  }

  datatype Pattern = Br | BrNewline | NewlineBr

  function MatchLen(p: Pattern, s: string): (n: nat)
    ensures n <= |s|
  {
    match p
    case Br => BrLen(s)
    case BrNewline => BrNewlineLen(s)
    case NewlineBr => NewlineBrLen(s)
  }

  /** Every match replaced by a newline, left to right. */
  function Newlines(p: Pattern, s: string): string
    decreases |s|
  {
    if |s| == 0 then []
    else if MatchLen(p, s) > 0 then ['\n'] + Newlines(p, s[MatchLen(p, s)..])
    else [s[0]] + Newlines(p, s[1..])
  }

  /** `c` matches the lower-case pattern letter `p` when case is ignored. */
  predicate Folds(c: char, p: char)
  {
    || c == p
    || ('a' <= p <= 'z' && c as int == p as int - 32)
    || (p == 's' && c == '\U{17f}') || (p == 'k' && c == '\U{212a}')
    || (p == 'i' && (c == '\U{130}' || c == '\U{131}'))
    || (p == '\U{1b0}' && c == '\U{1af}') || (p == '\U{f4}' && c == '\U{d4}')
  }

  predicate FoldsAt(s: string, i: nat, word: string)
  {
    i + |word| <= |s| && forall k :: 0 <= k < |word| ==> Folds(s[i + k], word[k])
  }

  /** End of `a\s+b\s*` from position `i` (0: no match). */
  function TwoWords(s: string, i: nat, a: string, b: string): (e: nat)
    requires |b| > 0
    ensures e <= |s|
  {
    if !FoldsAt(s, i, a) then 0
    else
      var w := SpaceRun(s[i + |a|..]);
      var j := i + |a| + w;
      if w == 0 || !FoldsAt(s, j, b) then 0 else j + |b| + SpaceRun(s[j + |b|..])
  }

  /** Index of the first `c` at or after `i`, or the length of the text. */
  function IndexOf(s: string, c: char, i: nat): (j: nat)
    requires i <= |s|
    ensures i <= j <= |s|
    ensures j < |s| ==> s[j] == c
    ensures forall k :: i <= k < j ==> s[k] != c
    decreases |s| - i
  {
    if i == |s| || s[i] == c then i else IndexOf(s, c, i + 1)
  }

  function AfterSpaces(s: string, i: nat): (j: nat)
    requires i <= |s|
    ensures i <= j <= |s|
  {
    i + SpaceRun(s[i..])
  }

  /** Length of an echoed pronoun hint at the start: a parenthesis opening with "speaker says:". */
  function HintLen(s: string): (n: nat)
    ensures n <= |s|
  {
    var open := SpaceRun(s);
    if open >= |s| || s[open] != '(' then 0
    else
      var e := TwoWords(s, AfterSpaces(s, open + 1), "speaker", "says");
      if e == 0 || e >= |s| || s[e] != ':' || IndexOf(s, ')', e) == |s| then 0
      else AfterSpaces(s, IndexOf(s, ')', e) + 1)
  }

  /** The Vietnamese label `xung ho` (with its diacritics) and a colon, from position `q`, ending
      at or before `limit`. */
  predicate LabelAt(s: string, q: nat, limit: nat)
  {
    var e := TwoWords(s, q, "x\U{1b0}ng", "h\U{f4}");
    0 < e < limit && e < |s| && (s[e] == ':' || s[e] == '\U{ff1a}')
  }

  /** The same hint with its labels translated, in one kind of bracket: the label must come before
      any other bracket of that kind. */
  function LabelledLen(s: string, left: char, right: char): (n: nat)
    ensures n <= |s|
  {
    var open := SpaceRun(s);
    if open >= |s| || s[open] != left then 0
    else
      var close := IndexOf(s, right, open + 1);
      if close < |s| && exists q :: open < q < close && q <= IndexOf(s, left, open + 1) && LabelAt(s, q, close)
      then AfterSpaces(s, close + 1) else 0
  }

  function VnHintLen(s: string): (n: nat)
    ensures n <= |s|
  {
    if LabelledLen(s, '(', ')') > 0 then LabelledLen(s, '(', ')') else LabelledLen(s, '[', ']')
  }

  /** An echoed repair directive: its bracket and the rest of its line. */
  function DirectiveLen(s: string): (n: nat)
    ensures n <= |s|
  {
    var open := SpaceRun(s);
    if open >= |s| || s[open] != '[' then 0
    else
      var e := TwoWords(s, AfterSpaces(s, open + 1), "correction", "required");
      if e == 0 || e >= |s| || s[e] != ']' then 0
      else
        var eol := IndexOf(s, '\n', e);
        if eol < |s| then eol + 1 else eol
  }

  function Breaks(s: string): string
  {
    Newlines(Br, Newlines(NewlineBr, Newlines(BrNewline, s)))
  }

  function Unscaffold(s: string): string
  {
    var a := s[HintLen(s)..];
    var b := a[VnHintLen(a)..];
    b[DirectiveLen(b)..]
  }

  /** What becomes of one parsed text. */
  function Clean(s: string): string
  {
    Unscaffold(Breaks(s))
  }

  // ---- the reply -------------------------------------------------------------------------

  datatype Failure = Duplicate(n: nat) | Unexpected | Missing(n: nat) | Empty(n: nat)

  datatype Reading = Texts(texts: seq<string>) | Rejected(why: Failure)

  /** The loop over the lines: the texts so far, the cue being read, the first duplicate. */
  datatype Scan = Scan(parsed: map<nat, string>, current: Option<nat>, duplicate: Option<nat>)

  /** A line of the reply, stripped: numbered, or not. */
  datatype Item = Numbered(n: nat, text: string) | Prose(text: string)

  function Classify(line: string): Item
  {
    var m := ParseMarker(Strip(line));
    if m.Some? then Numbered(m.value.number, m.value.text) else Prose(Strip(line))
  }

  function Classified(lines: seq<string>): (r: seq<Item>)
    ensures |r| == |lines| && forall k :: 0 <= k < |r| ==> r[k] == Classify(lines[k])
  {
    seq(|lines|, k requires 0 <= k < |lines| => Classify(lines[k]))
  }

  /** May a line without a marker be added to cue `n`? */
  predicate Continues(multiline: Option<set<nat>>, n: nat)
  {
    multiline.None? || n in multiline.value
  }

  function Append(text: string, more: string): string
  {
    if text != [] then text + "\n" + more else more
  }

  function ScanItem(s: Scan, item: Item, multiline: Option<set<nat>>): Scan
    requires s.current.Some? ==> s.current.value in s.parsed
  {
    if s.duplicate.Some? then s
    else if item.Numbered? then
      if item.n in s.parsed then s.(duplicate := Some(item.n))
      else Scan(s.parsed[item.n := item.text], Some(item.n), None)
    else if s.current.Some? && item.text != [] && Continues(multiline, s.current.value) then
      var n := s.current.value;
      s.(parsed := s.parsed[n := Append(s.parsed[n], item.text)])
    else s
  }

  function ScanAll(items: seq<Item>, multiline: Option<set<nat>>): (s: Scan)
    ensures s.current.Some? ==> s.current.value in s.parsed
  {
    if |items| == 0 then Scan(map[], None, None)
    else ScanItem(ScanAll(items[..|items| - 1], multiline), items[|items| - 1], multiline)
  }

  /** The checks for cues 1 to `n`, in order. */
  function Collect(parsed: map<nat, string>, n: nat): (r: Reading)
    ensures r.Texts? ==> |r.texts| == n
  {
    if n == 0 then Texts([])
    else
      var r := Collect(parsed, n - 1);
      if r.Rejected? then r
      else if n !in parsed then Rejected(Missing(n))
      else if Strip(Clean(parsed[n])) == [] then Rejected(Empty(n))
      else Texts(r.texts + [Clean(parsed[n])])
  }

  function ReadItems(items: seq<Item>, expected: nat, multiline: Option<set<nat>>): (r: Reading)
    ensures r.Texts? ==> |r.texts| == expected
  {
    var s := ScanAll(items, multiline);
    if s.duplicate.Some? then Rejected(Duplicate(s.duplicate.value))
    else if exists n :: n in s.parsed && (n < 1 || n > expected) then Rejected(Unexpected)
    else Collect(s.parsed, expected)
  }

  /** `str.splitlines()`. */
  function Bodies(lines: seq<string>): (r: seq<string>)
    ensures |r| == |lines| && forall k :: 0 <= k < |r| ==> r[k] == Body(lines[k])
  {
    seq(|lines|, k requires 0 <= k < |lines| => Body(lines[k]))
  }

  function Read(response: string, expected: nat, multiline: Option<set<nat>>): (r: Reading)
    ensures r.Texts? ==> |r.texts| == expected
  {
    ReadItems(Classified(Bodies(Lines(response))), expected, multiline)
  }

  // ---- as loops --------------------------------------------------------------------------

  method ScanReply(lines: seq<string>, multiline: Option<set<nat>>) returns (parsed: map<nat, string>, duplicate: Option<nat>)
    ensures var s := ScanAll(Classified(lines), multiline);
            duplicate == s.duplicate && (duplicate.None? ==> parsed == s.parsed)
  {
    hide ParseMarker, Strip, Continues;
    var current: Option<nat> := None;
    ghost var items := Classified(lines);
    parsed := map[];
    for i := 0 to |lines|
      invariant ScanAll(items[..i], multiline) == Scan(parsed, current, None)
    {
      assert items[..i + 1][..i] == items[..i];
      var stripped := Strip(lines[i]);
      var m := ParseMarker(stripped);
      if m.Some? {
        if m.value.number in parsed {
          DuplicateStays(items, i + 1, multiline);
          return parsed, Some(m.value.number);
        }
        parsed, current := parsed[m.value.number := m.value.text], Some(m.value.number);
      } else if current.Some? && stripped != [] && Continues(multiline, current.value) {
        var n := current.value;
        parsed := parsed[n := if parsed[n] != [] then parsed[n] + "\n" + stripped else stripped];
      }
    }
    assert items[..|lines|] == items;
    duplicate := None;
  }

  method CollectTexts(parsed: map<nat, string>, expected: nat) returns (r: Reading)
    ensures r == Collect(parsed, expected)
  {
    hide Clean, Strip;
    var texts := [];
    for n := 1 to expected + 1
      invariant Collect(parsed, n - 1) == Texts(texts)
    {
      if n !in parsed {
        RejectionStays(parsed, n, expected);
        return Rejected(Missing(n));
      }
      var text := Clean(parsed[n]);
      if Strip(text) == [] {
        RejectionStays(parsed, n, expected);
        return Rejected(Empty(n));
      }
      texts := texts + [text];
    }
    r := Texts(texts);
  }

  method ParseNumberedResponse(response: string, expected: nat, multiline: Option<set<nat>>) returns (r: Reading)
    ensures r == Read(response, expected, multiline)
  {
    hide Collect, ScanAll, Lines, Bodies, Classified;
    var lines := Bodies(Lines(response));
    var parsed, duplicate := ScanReply(lines, multiline);
    if duplicate.Some? {
      return Rejected(Duplicate(duplicate.value));
    }
    if exists n :: n in parsed && (n < 1 || n > expected) {
      return Rejected(Unexpected);
    }
    r := CollectTexts(parsed, expected);
  }

  lemma {:induction false} DuplicateStays(items: seq<Item>, i: nat, multiline: Option<set<nat>>)
    requires i <= |items| && ScanAll(items[..i], multiline).duplicate.Some?
    ensures ScanAll(items, multiline) == ScanAll(items[..i], multiline)
  {
    if i < |items| {
      var n := |items| - 1;
      assert items[..n][..i] == items[..i];
      DuplicateStays(items[..n], i, multiline);
    } else {
      assert items[..i] == items;
    }
  }

  lemma {:induction false} RejectionStays(parsed: map<nat, string>, k: nat, n: nat)
    requires k <= n && Collect(parsed, k).Rejected?
    ensures Collect(parsed, n) == Collect(parsed, k)
  {
    hide Clean, Strip;
    if k < n {
      RejectionStays(parsed, k, n - 1);
    }
  }
}
