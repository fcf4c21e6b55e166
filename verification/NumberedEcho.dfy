/** The prompt's encoding of cue texts, and a reply that repeats it in any order. */
module NumberedEcho {
  import opened Options
  import opened Text
  import opened TextLines
  import opened Blocks
  import opened NumberedLines
  import opened NumberedLaws

  // ---- encoding --------------------------------------------------------------------------

  /** Newlines become break markers. */
  function Marked(s: string): string
  {
    if |s| == 0 then []
    else (if s[0] == '\n' then "<<BR>>" else [s[0]]) + Marked(s[1..])
  }

  function EncodedLine(n: nat, text: string): string
  {
    "[" + Decimal(n) + "] " + Marked(Strip(text))
  }

  /** The lines of a reply that answers the cues in the given order with their own encodings. */
  function EchoLines(texts: seq<string>, order: seq<nat>): (r: seq<string>)
    requires forall j :: 0 <= j < |order| ==> 1 <= order[j] <= |texts|
    ensures |r| == |order| && forall j :: 0 <= j < |r| ==> r[j] == EncodedLine(order[j], texts[order[j] - 1])
  {
    seq(|order|, j requires 0 <= j < |order| => EncodedLine(order[j], texts[order[j] - 1]))
  }

  /** `"\n".join(lines)`. */
  function JoinLines(lines: seq<string>): string
  {
    if |lines| == 0 then []
    else if |lines| == 1 then lines[0]
    else lines[0] + "\n" + JoinLines(lines[1..])
  }

  // ---- joining and splitting -------------------------------------------------------------

  function WithBreaks(lines: seq<string>): seq<string>
  {
    if |lines| <= 1 then lines else [lines[0] + "\n"] + WithBreaks(lines[1..])
  }

  lemma {:induction false} WithBreaksAt(lines: seq<string>)
    ensures |WithBreaks(lines)| == |lines|
    ensures forall i :: 0 <= i < |lines| ==>
      WithBreaks(lines)[i] == if i < |lines| - 1 then lines[i] + "\n" else lines[i]
    ensures Concat(WithBreaks(lines)) == JoinLines(lines)
  {
    if |lines| > 1 {
      WithBreaksAt(lines[1..]);
      assert WithBreaks(lines)[1..] == WithBreaks(lines[1..]);
    } else if |lines| == 1 {
      assert lines[1..] == [];
    }
  }

  lemma {:induction false} PlainIsLine(s: string)
    requires NoBreak(s) && |s| > 0
    ensures OneLine(s) && OneLine(s + "\n")
  {
    if |s| > 1 {
      PlainIsLine(s[1..]);
      assert (s + "\n")[1..] == s[1..] + "\n";
    } else {
      assert (s + "\n")[1..] == "\n";
    }
  }

  lemma PlainBody(s: string)
    requires NoBreak(s)
    ensures Body(s) == s && Body(s + "\n") == s
  {
    var t := s + "\n";
    assert |s| > 0 ==> t[|t| - 2] == s[|s| - 1];
    assert t[..|t| - 1] == s;
    assert IsBreak('\n') && IsBreak('\r');
  }

  /** Splitting a joined reply gives its lines back. */
  lemma SplitJoined(lines: seq<string>)
    requires forall i :: 0 <= i < |lines| ==> NoBreak(lines[i]) && |lines[i]| > 0
    ensures Bodies(Lines(JoinLines(lines))) == lines
  {
    WithBreaksAt(lines);
    var ls := WithBreaks(lines);
    hide WithBreaks, OneLine, NoBreak, Body;
    forall i | 0 <= i < |ls|
      ensures OneLine(ls[i]) && Body(ls[i]) == lines[i]
    {
      PlainIsLine(lines[i]);
      PlainBody(lines[i]);
    }
    forall i | 1 <= i < |ls|
      ensures MayFollow(ls[i - 1], ls[i])
    {
      StartsPlain(lines[i]);
      assert ls[i][0] == lines[i][0];
    }
    LinesOfChain(ls);
  }

  lemma StartsPlain(s: string)
    requires NoBreak(s) && |s| > 0
    ensures s[0] != '\n' && IsBreak('\n')
  {
  }

  // ---- one line --------------------------------------------------------------------------

  lemma DigitValues(n: nat)
    requires n < 10
    ensures IsDigit(Digit(n)) && DigitValue(Digit(n)) == n
  {
  }

  lemma {:induction false} NumberDecimal(n: nat)
    ensures forall k :: 0 <= k < |Decimal(n)| ==> IsDigit(Decimal(n)[k])
    ensures Number(Decimal(n)) == n
  {
    DigitValues(n % 10);
    hide DigitValue, IsDigit, Digit;
    if n < 10 {
      assert Decimal(n)[..0] == [];
    } else {
      NumberDecimal(n / 10);
      var d := Decimal(n);
      assert d[..|d| - 1] == Decimal(n / 10);
    }
  }

  /** Cue texts as the protocol expects them: trimmed, with content, `\n` the only break. */
  predicate Sendable(text: string)
  {
    Trimmed(text) && |text| > 0 && forall k :: 0 <= k < |text| ==> (IsBreak(text[k]) ==> text[k] == '\n')
  }

  lemma {:induction false} MarkedFacts(s: string)
    requires forall k :: 0 <= k < |s| ==> (IsBreak(s[k]) ==> s[k] == '\n')
    ensures NoBreak(Marked(s)) && (|s| > 0 ==> |Marked(s)| > 0)
    ensures |s| > 0 && s[|s| - 1] != '\n' ==> Marked(s)[|Marked(s)| - 1] == s[|s| - 1]
    ensures |s| > 0 && s[0] != '\n' ==> Marked(s)[0] == s[0]
  {
    if |s| > 0 {
      MarkedFacts(s[1..]);
      var head := if s[0] == '\n' then "<<BR>>" else [s[0]];
      assert NoBreak(head);
      if |s| > 1 {
        assert Marked(s)[|Marked(s)| - 1] == Marked(s[1..])[|Marked(s[1..])| - 1];
      } else {
        assert Marked(s[1..]) == [];
      }
    }
  }

  lemma SendableMarked(text: string)
    requires Sendable(text)
    ensures Strip(text) == text && NoBreak(Marked(text)) && |Marked(text)| > 0 && Trimmed(Marked(text))
  {
    StripTrimmed(text);
    MarkedFacts(text);
    assert IsSpace('\n');
  }

  /** The encoding of a cue is a single line that reads back as its number and its marked text. */
  lemma LineReads(n: nat, text: string)
    requires Sendable(text)
    ensures NoBreak(EncodedLine(n, text)) && |EncodedLine(n, text)| > 0
    ensures Classify(EncodedLine(n, text)) == Numbered(n, Marked(text))
  {
    SendableMarked(text);
    NumberDecimal(n);
    var d, m := Decimal(n), Marked(text);
    var line := EncodedLine(n, text);
    assert line == "[" + d + "] " + m;
    LineShape(d, m, line);
    StripTrimmed(line);
    hide Decimal, Marked, Number, IsSpace, IsBreak, IsDigit, DigitValue;
    MarkerReads(d, m);
  }

  lemma LineShape(d: string, m: string, line: string)
    requires line == "[" + d + "] " + m && NoBreak(m) && |m| > 0 && Trimmed(m)
    requires forall k :: 0 <= k < |d| ==> '0' <= d[k] <= '9'
    ensures NoBreak(line) && Trimmed(line) && |line| > 0
  {
    assert line[0] == '[' && line[|line| - 1] == m[|m| - 1];
    forall k | 0 <= k < |line|
      ensures !IsBreak(line[k])
    {
      if 1 <= k <= |d| {
        assert line[k] == d[k - 1];
      } else if k >= |d| + 3 {
        assert line[k] == m[k - (|d| + 3)];
      } else {
        assert line[k] == '[' || line[k] == ']' || line[k] == ' ';
      }
    }
  }

  lemma MarkerReads(d: string, m: string)
    requires forall k :: 0 <= k < |d| ==> IsDigit(d[k])
    requires |d| > 0 && Trimmed(m) && |m| > 0
    ensures ParseMarker("[" + d + "] " + m) == Some(Marker(Number(d), m))
  {
    hide *;
    var s := "[" + d + "] " + m;
    assert s[1..] == d + ("] " + m);
    DigitsThenBracket(d, "] " + m);
    assert s[|d| + 2..] == " " + m;
    StripOneSpace(m);
    assert s[1..][..|d|] == d;
    MarkerShape(s, |d|);
  }

  lemma MarkerShape(s: string, d: nat)
    requires d > 0 && d + 2 < |s| && s[0] == '[' && s[d + 1] == ']' && s[d + 2] == ' ' && DigitRun(s[1..]) == d
    ensures ParseMarker(s) == Some(Marker(Number(s[1..][..d]), Strip(s[d + 2..])))
  {
    hide DigitRun, IsDigit, Number, Strip;
    assert s[d + 2..][0] == ' ';
  }

  lemma {:induction false} DigitsThenBracket(d: string, rest: string)
    requires forall k :: 0 <= k < |d| ==> IsDigit(d[k])
    requires |rest| > 0 && rest[0] == ']'
    ensures DigitRun(d + rest) == |d|
  {
    BracketNoDigit();
    hide IsDigit;
    if |d| > 0 {
      assert (d + rest)[1..] == d[1..] + rest;
      DigitsThenBracket(d[1..], rest);
    } else {
      assert d + rest == rest;
    }
  }

  lemma BracketNoDigit()
    ensures !IsDigit(']')
  {
  }

  lemma StripOneSpace(m: string)
    requires Trimmed(m) && |m| > 0
    ensures Strip(" " + m) == m
  {
    var s := " " + m;
    assert s[0] == ' ' && IsSpace(' ');
    hide IsSpace;
    assert s[1..] == m;
    assert LStrip(s) == LStrip(m) == m;
    assert RStrip(m) == m;
  }

  // ---- decoding --------------------------------------------------------------------------

  /** A break marker at the start, within its line. */
  predicate BrInLine(s: string)
  {
    BrLen(s) > 0 && '\n' !in s[..BrLen(s)]
  }

  /** No line of the text contains a break marker of its own. */
  ghost predicate NoBr(s: string)
  {
    forall i :: 0 <= i < |s| ==> !BrInLine(s[i..])
  }

  lemma NoBrStep(s: string)
    requires |s| > 0
    ensures NoBr(s) <==> !BrInLine(s) && NoBr(s[1..])
  {
    hide BrInLine;
    assert s[0..] == s;
    if NoBr(s) {
      forall i | 0 <= i < |s[1..]|
        ensures !BrInLine(s[1..][i..])
      {
        assert s[1..][i..] == s[i + 1..];
      }
    }
    if !BrInLine(s) && NoBr(s[1..]) {
      forall i | 0 <= i < |s|
        ensures !BrInLine(s[i..])
      {
        if i > 0 {
          assert s[1..][i - 1..] == s[i..];
        }
      }
    }
  }

  lemma AtPair(s: string, i: nat, p: string)
    requires |p| == 2 && At(s, i, p)
    ensures i + 2 <= |s| && s[i] == p[0] && s[i + 1] == p[1]
  {
    assert s[i..i + 2][0] == s[i] && s[i..i + 2][1] == s[i + 1];
  }

  lemma BrParts(s: string) returns (a: nat, b: nat)
    requires BrLen(s) > 0
    ensures 2 <= a <= a + 2 <= b <= b + 2 == BrLen(s) <= |s|
    ensures s[0] == '<' && s[1] == '<' && s[a] == 'B' && s[a + 1] == 'R' && s[b] == '>' && s[b + 1] == '>'
    ensures forall k :: 2 <= k < a || a + 2 <= k < b ==> IsSpace(s[k])
  {
    hide SpaceRun, IsSpace, At;
    AtPair(s, 0, "<<");
    a := 2 + SpaceRun(s[2..]);
    AtPair(s, a, "BR");
    b := a + 2 + SpaceRun(s[a + 2..]);
    AtPair(s, b, ">>");
    forall k | 2 <= k < a || a + 2 <= k < b
      ensures IsSpace(s[k])
    {
      if k < a {
        assert s[k] == s[2..][k - 2];
      } else {
        assert s[k] == s[a + 2..][k - (a + 2)];
      }
    }
  }

  lemma {:induction false} SpaceRunIs(s: string, n: nat)
    requires n < |s| && !IsSpace(s[n]) && forall k :: 0 <= k < n ==> IsSpace(s[k])
    ensures SpaceRun(s) == n
  {
    if n > 0 {
      SpaceRunIs(s[1..], n - 1);
    }
  }

  lemma BrFrom(s: string, a: nat, b: nat)
    requires 2 <= a <= a + 2 <= b <= b + 2 <= |s|
    requires s[0] == '<' && s[1] == '<' && s[a] == 'B' && s[a + 1] == 'R' && s[b] == '>' && s[b + 1] == '>'
    requires forall k :: 2 <= k < a || a + 2 <= k < b ==> IsSpace(s[k])
    ensures BrLen(s) == b + 2
  {
    NoSpaceMarks();
    hide IsSpace, SpaceRun;
    assert s[0..2] == "<<" && s[a..a + 2] == "BR" && s[b..b + 2] == ">>";
    SpaceRunIs(s[2..], a - 2);
    SpaceRunIs(s[a + 2..], b - (a + 2));
  }

  lemma NoSpaceMarks()
    ensures !IsSpace('B') && !IsSpace('>')
  {
  }

  /** What follows a break marker does not matter. */
  lemma BrSamePrefix(s: string, t: string)
    requires BrLen(s) > 0 && BrLen(s) <= |t| && t[..BrLen(s)] == s[..BrLen(s)]
    ensures BrLen(t) == BrLen(s)
  {
    var a, b := BrParts(s);
    hide BrLen, IsSpace;
    assert forall k :: 0 <= k < b + 2 ==> t[k] == t[..b + 2][k] && s[k] == s[..b + 2][k];
    BrFrom(t, a, b);
  }

  /** The marked form of the text before its first newline is that text. */
  lemma {:induction false} MarkedPrefix(s: string, n: nat)
    requires n <= |s| && '\n' !in s[..n]
    ensures Marked(s) == s[..n] + Marked(s[n..])
  {
    if n == 0 {
      assert s[0..] == s;
    } else {
      assert s[0] in s[..n];
      assert forall c :: c in s[1..][..n - 1] ==> c in s[..n] by {
        assert s[1..][..n - 1] == s[1..n];
      }
      MarkedPrefix(s[1..], n - 1);
      assert s[1..][n - 1..] == s[n..];
      assert s[..n] == [s[0]] + s[1..][..n - 1];
    }
  }

  /** Marking creates no break marker but its own. */
  lemma MarkedBr(s: string)
    requires |s| > 0 && s[0] != '\n'
    ensures BrLen(Marked(s)) > 0 <==> BrInLine(s)
    ensures BrInLine(s) ==> BrLen(Marked(s)) == BrLen(s)
  {
    if BrInLine(s) {
      var n := BrLen(s);
      MarkedPrefix(s, n);
      BrSamePrefix(s, Marked(s));
    } else if BrLen(Marked(s)) > 0 {
      var m := Marked(s);
      var k := IndexOf(s, '\n', 0);
      assert '\n' !in s[..k];
      MarkedPrefix(s, k);
      NotAcross(s, k);
    }
  }

  lemma BrAngles(s: string)
    requires BrLen(s) > 0
    ensures forall j :: 2 <= j < BrLen(s) ==> s[j] != '<'
  {
    var a, b := BrParts(s);
    hide BrLen;
    SpacePlain();
  }

  lemma NotAcross(s: string, k: nat)
    requires |s| > 0 && 0 < k <= |s| && '\n' !in s[..k] && (k < |s| ==> s[k] == '\n')
    requires Marked(s) == s[..k] + Marked(s[k..]) && BrLen(Marked(s)) > 0
    ensures BrInLine(s)
  {
    var m := Marked(s);
    var n := BrLen(m);
    BrAngles(m);
    MarkedNothing();
    if k < |s| {
      MarkedBreak(s[k..]);
      AnglesEnd(m, n, k, s[..k], Marked(s[k..]));
    }
    assert k == |s| ==> s[k..] == [];
    hide *;
    SamePrefix(m, s, k, n, Marked(s[k..]));
    BrSamePrefix(m, s);
    InLine(s, n);
  }

  lemma SamePrefix(m: string, s: string, k: nat, n: nat, tail: string)
    requires k <= |s| && m == s[..k] + tail && n <= |m| && (k < |s| ==> n <= k) && '\n' !in s[..k]
    requires k == |s| ==> tail == []
    ensures n <= k && m[..n] == s[..n] && '\n' !in s[..n]
  {
    assert forall c :: c in s[..n] ==> c in s[..k];
  }

  lemma MarkedNothing()
    ensures Marked([]) == []
  {
  }

  lemma MarkedBreak(s: string)
    requires |s| > 0 && s[0] == '\n'
    ensures |Marked(s)| >= 2 && Marked(s)[0] == '<' && Marked(s)[1] == '<'
  {
  }

  lemma AnglesEnd(m: string, n: nat, k: nat, head: string, tail: string)
    requires m == head + tail && |head| == k && k > 0 && |tail| >= 2 && tail[0] == '<' && tail[1] == '<'
    requires 6 <= n <= |m| && forall j :: 2 <= j < n ==> m[j] != '<'
    ensures n <= k
  {
    assert m[k] == '<' && m[k + 1] == '<';
  }

  lemma InLine(s: string, n: nat)
    requires n == BrLen(s) && n > 0 && '\n' !in s[..n]
    ensures BrInLine(s)
  {
  }

  lemma SpacePlain()
    ensures !IsSpace('<')
  {
  }

  lemma OwnBr(rest: string)
    ensures BrLen("<<BR>>" + rest) == 6 && ("<<BR>>" + rest)[6..] == rest
  {
    BrFrom("<<BR>>" + rest, 2, 4);
  }

  /** Restoring never lengthens a marked text, and gives it back exactly if it has no break marker
      of its own. */
  lemma {:induction false} Unmark(s: string)
    ensures |Newlines(Br, Marked(s))| <= |s|
    ensures NoBr(s) ==> Newlines(Br, Marked(s)) == s
    ensures !NoBr(s) ==> |Newlines(Br, Marked(s))| < |s|
    decreases |s|
  {
    hide BrLen, BrInLine;
    if |s| > 0 {
      NoBrStep(s);
      if s[0] == '\n' {
        Unmark(s[1..]);
        OwnBr(Marked(s[1..]));
        NewlineNoBr(s);
      } else {
        MarkedBr(s);
        if BrInLine(s) {
          InLineFacts(s);
          var n := BrLen(s);
          MarkedPrefix(s, n);
          Unmark(s[n..]);
          assert Marked(s)[n..] == Marked(s[n..]);
        } else {
          Unmark(s[1..]);
          assert Marked(s)[1..] == Marked(s[1..]);
        }
      }
    }
  }

  lemma InLineFacts(s: string)
    requires BrInLine(s)
    ensures 6 <= BrLen(s) <= |s| && '\n' !in s[..BrLen(s)]
  {
  }

  lemma NewlineNoBr(s: string)
    requires |s| > 0 && s[0] == '\n'
    ensures !BrInLine(s)
  {
    AtIndex(s, 0, "<<");
    assert "<<"[0] == '<';
  }

  lemma {:induction false} NothingToJoin(p: Pattern, s: string)
    requires p != Br && NoBreak(s)
    ensures Newlines(p, s) == s
  {
    if |s| > 0 {
      assert IsBreak('\n');
      assert MatchLen(p, s) == 0;
      NothingToJoin(p, s[1..]);
    }
  }

  /** The text would not be mistaken for echoed instructions, nor for protocol. */
  ghost predicate Unmistakable(text: string)
  {
    NoBr(text) && HintLen(text) == 0 && VnHintLen(text) == 0 && DirectiveLen(text) == 0
  }

  lemma UnscaffoldSame(s: string)
    ensures |Unscaffold(s)| <= |s|
    ensures Unscaffold(s) == s <==> HintLen(s) == 0 && VnHintLen(s) == 0 && DirectiveLen(s) == 0
  {
    hide HintLen, VnHintLen, DirectiveLen;
    assert s[0..] == s;
  }

  lemma CleanIff(text: string)
    requires Sendable(text)
    ensures Clean(Marked(text)) == text <==> Unmistakable(text)
  {
    SendableMarked(text);
    hide Sendable, HintLen, VnHintLen, DirectiveLen, Unscaffold, NoBr, Marked;
    NothingToJoin(BrNewline, Marked(text));
    NothingToJoin(NewlineBr, Marked(text));
    Unmark(text);
    UnscaffoldSame(Newlines(Br, Marked(text)));
  }

  // ---- the round trip --------------------------------------------------------------------

  /** Every number from 1 to `n` once. */
  ghost predicate Permutation(order: seq<nat>, n: nat)
  {
    && (forall j :: 0 <= j < |order| ==> 1 <= order[j] <= n)
    && (forall i, j :: 0 <= i < j < |order| ==> order[i] != order[j])
    && (forall k: nat :: 1 <= k <= n ==> k in order)
  }

  lemma {:induction false} GatheredAlone(items: seq<Item>, i: nat, m: nat, multiline: Option<set<nat>>)
    requires i < m <= |items| && forall j :: 0 <= j < |items| ==> items[j].Numbered?
    ensures Gathered(items, i, m, multiline) == items[i].text
  {
    if m > i + 1 {
      GatheredAlone(items, i, m - 1, multiline);
    }
  }

  lemma EchoItems(texts: seq<string>, order: seq<nat>)
    requires Permutation(order, |texts|) && forall t :: t in texts ==> Sendable(t)
    ensures var lines := EchoLines(texts, order);
            && Bodies(Lines(JoinLines(lines))) == lines
            && forall j :: 0 <= j < |order| ==> Classified(lines)[j] == Numbered(order[j], Marked(texts[order[j] - 1]))
  {
    hide Sendable, Classify, EncodedLine, Marked, NoBreak;
    var lines := EchoLines(texts, order);
    forall j | 0 <= j < |order|
      ensures NoBreak(lines[j]) && |lines[j]| > 0
      ensures Classify(lines[j]) == Numbered(order[j], Marked(texts[order[j] - 1]))
    {
      var t := texts[order[j] - 1];
      assert t in texts;
      LineReads(order[j], t);
    }
    SplitJoined(lines);
  }

  /** The reply that repeats every encoded line, in any order, reads back as the cue texts, whatever
      cues may have continuation lines, if and only if no text looks like protocol itself: a break
      marker within a line, or an echoed instruction at its start. */
  lemma EchoIff(texts: seq<string>, order: seq<nat>, multiline: Option<set<nat>>)
    requires Permutation(order, |texts|) && forall t :: t in texts ==> Sendable(t)
    ensures (Read(JoinLines(EchoLines(texts, order)), |texts|, multiline) == Texts(texts))
      <==> (forall t :: t in texts ==> Unmistakable(t))
  {
    hide Sendable, Unmistakable, Read, JoinLines, Classified, Bodies, Lines, Gathered, ReadItems, Clean, Marked;
    var lines := EchoLines(texts, order);
    var items := Classified(lines);
    EchoItems(texts, order);
    ReadIs(JoinLines(lines), |texts|, multiline);
    EchoFacts(texts, order, items, multiline);
    EchoTexts(texts, order, items, multiline);
  }

  lemma ReadIs(response: string, n: nat, multiline: Option<set<nat>>)
    ensures Read(response, n, multiline) == ReadItems(Classified(Bodies(Lines(response))), n, multiline)
  {
  }

  lemma EchoFacts(texts: seq<string>, order: seq<nat>, items: seq<Item>, multiline: Option<set<nat>>)
    requires Permutation(order, |texts|) && |items| == |order| && forall t :: t in texts ==> Sendable(t)
    requires forall j :: 0 <= j < |order| ==> items[j] == Numbered(order[j], Marked(texts[order[j] - 1]))
    ensures forall i :: 0 <= i < |items| ==> items[i].Numbered? && Gathered(items, i, |items|, multiline) == Marked(texts[order[i] - 1])
    ensures forall k :: 0 <= k < |texts| ==>
      (Clean(Marked(texts[k])) == texts[k] <==> Unmistakable(texts[k])) && HasContent(texts[k])
  {
    hide Clean, Marked, Sendable, Unmistakable, HasContent, Gathered;
    forall k | 0 <= k < |texts|
      ensures (Clean(Marked(texts[k])) == texts[k] <==> Unmistakable(texts[k])) && HasContent(texts[k])
    {
      assert texts[k] in texts;
      CleanIff(texts[k]);
      SendableContent(texts[k]);
    }
    forall i | 0 <= i < |items|
      ensures Gathered(items, i, |items|, multiline) == Marked(texts[order[i] - 1])
    {
      GatheredAlone(items, i, |items|, multiline);
    }
  }

  lemma SendableContent(text: string)
    requires Sendable(text)
    ensures HasContent(text)
  {
    SendableMarked(text);
  }

  lemma EchoTexts(texts: seq<string>, order: seq<nat>, items: seq<Item>, multiline: Option<set<nat>>)
    requires Permutation(order, |texts|) && |items| == |order|
    requires forall i :: 0 <= i < |items| ==> items[i].Numbered? && items[i].n == order[i]
    requires forall i :: 0 <= i < |items| ==> Gathered(items, i, |items|, multiline) == Marked(texts[order[i] - 1])
    requires forall k :: 0 <= k < |texts| ==> (Clean(Marked(texts[k])) == texts[k] <==> Unmistakable(texts[k])) && HasContent(texts[k])
    ensures ReadItems(items, |texts|, multiline) == Texts(texts) <==> forall t :: t in texts ==> Unmistakable(t)
  {
    hide Clean, Marked, Unmistakable, HasContent, Gathered, ReadItems;
    var r := ReadItems(items, |texts|, multiline);
    AcceptedIff(items, |texts|, multiline);
    hide DistinctNumbers, InRange, Answered;
    if r == Texts(texts) {
      forall t | t in texts
        ensures Unmistakable(t)
      {
        var k :| 0 <= k < |texts| && texts[k] == t;
        assert k + 1 in order;
        var i :| 0 <= i < |order| && order[i] == k + 1;
        assert r.texts[items[i].n - 1] == Clean(Gathered(items, i, |items|, multiline));
      }
    }
    if forall t :: t in texts ==> Unmistakable(t) {
      EchoAccepted(texts, order, items, multiline);
    }
  }

  lemma EchoAccepted(texts: seq<string>, order: seq<nat>, items: seq<Item>, multiline: Option<set<nat>>)
    requires Permutation(order, |texts|) && |items| == |order|
    requires forall i :: 0 <= i < |items| ==> items[i].Numbered? && items[i].n == order[i]
    requires forall i :: 0 <= i < |items| ==> Gathered(items, i, |items|, multiline) == Marked(texts[order[i] - 1])
    requires forall k :: 0 <= k < |texts| ==> Clean(Marked(texts[k])) == texts[k] && HasContent(texts[k])
    ensures ReadItems(items, |texts|, multiline) == Texts(texts)
  {
    hide Clean, Marked, HasContent, Gathered, ReadItems;
    var r := ReadItems(items, |texts|, multiline);
    AcceptedIff(items, |texts|, multiline);
    forall k: nat | 1 <= k <= |texts|
      ensures Answered(items, multiline, k)
    {
      assert k in order;
      var i :| 0 <= i < |order| && order[i] == k;
      assert MarkerOf(items, i, k);
    }
    assert r.Texts?;
    hide Answered, DistinctNumbers, InRange;
    forall k | 0 <= k < |texts|
      ensures r.texts[k] == texts[k]
    {
      assert k + 1 in order;
      var i :| 0 <= i < |order| && order[i] == k + 1;
      assert r.texts[items[i].n - 1] == Clean(Gathered(items, i, |items|, multiline));
    }
  }
}
