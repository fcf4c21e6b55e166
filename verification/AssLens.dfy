/** Replacing the texts of translatable cues and reading the file again. */
module AssLens {
  import opened Options
  import opened Subtitles
  import opened Text
  import opened TextLines
  import opened Blocks
  import opened Ass
  import opened AssRoundTrip
  import opened AssSections

  // ---- one Dialogue line -----------------------------------------------------------------

  /** A Dialogue line whose cue is translatable: prefix up to and including the last separating
      comma, text, recognised ending. */
  ghost predicate Splits(line: string, commas: nat, prefix: string, text: string, startTc: string, endTc: string)
  {
    var parts := SplitMax(Content(line), commas);
    && StartsWith(Content(line), "Dialogue:")
    && |parts| == commas + 1 && |parts| >= 3
    && prefix == Joined(parts[..commas]) && text == parts[commas]
    && startTc == Strip(parts[1]) && endTc == Strip(parts[2])
  }

  lemma SplitsLine(st: Events, line: string, prefix: string, text: string, startTc: string, endTc: string)
    requires st.ok && Splits(line, st.commas, prefix, text, startTc, endTc)
    ensures Line(st, line) == Slot(st, prefix, Ending(line), Cue(startTc, endTc, text))
    ensures line == prefix + text + Ending(line) && |prefix| > 9 && prefix[..9] == "Dialogue:" && prefix[|prefix| - 1] == ','
  {
    var content := Content(line);
    var parts := SplitMax(content, st.commas);
    SplitsShape(line, st.commas, prefix, text, startTc, endTc);
    hide Cue, Slot, Strip, SplitMax, Content, Ending, Joined, StartsWith;
    OneKind(content);
    assert Line(st, line) == Dialogue(st, line);
  }

  lemma SplitsShape(line: string, commas: nat, prefix: string, text: string, startTc: string, endTc: string)
    requires Splits(line, commas, prefix, text, startTc, endTc)
    ensures line == prefix + text + Ending(line) && |prefix| > 9 && prefix[..9] == "Dialogue:" && prefix[|prefix| - 1] == ','
  {
    hide SplitMax, Strip, Joined, StartsWith;
    var content := Content(line);
    var parts := SplitMax(content, commas);
    SplitJoins(content, commas);
    var front := parts[..commas];
    assert content == prefix + text;
    hide Splits;
    JoinedShape(front);
    FirstComma(content, commas);
    assert front[0] == parts[0];
    assert prefix[..9] == prefix[..|front[0]|][..9];
    ContentEnding(line);
  }

  lemma ContentEnding(line: string)
    ensures line == Content(line) + Ending(line)
  {
    hide Ending;
  }

  lemma {:induction false} JoinedShape(parts: seq<string>)
    requires |parts| > 0
    ensures |Joined(parts)| > |parts[0]| && Joined(parts)[..|parts[0]|] == parts[0]
    ensures Joined(parts)[|Joined(parts)| - 1] == ','
  {
    if |parts| > 1 {
      JoinedShape(parts[1..]);
    } else {
      assert Joined(parts[1..]) == [];
    }
  }

  /** `Dialogue:` contains no comma, so it is within the first field. */
  lemma FirstComma(content: string, commas: nat)
    requires StartsWith(content, "Dialogue:") && |SplitMax(content, commas)| > 1
    ensures |SplitMax(content, commas)[0]| >= 9 && SplitMax(content, commas)[0][..9] == "Dialogue:"
  {
    var c := CommaAt(content);
    assert content[0..9] == "Dialogue:";
    forall k | 0 <= k < 9
      ensures content[k] != ','
    {
      assert content[k] == content[0..9][k];
    }
    assert c >= 9;
    assert content[..c][..9] == content[0..9];
  }

  lemma SplitFirst(a: string, b: string, max: nat)
    requires max > 0 && forall k :: 0 <= k < |a| ==> a[k] != ','
    ensures SplitMax(a + "," + b, max) == [a] + SplitMax(b, max - 1)
  {
    var s := a + "," + b;
    CommaFirst(a, b);
    assert s[|a| + 1..] == b && s[..|a|] == a;
  }

  lemma SplitCases(s: string, max: nat)
    ensures SplitMax(s, 0) == [s]
    ensures max > 0 && |SplitMax(s, max)| == max + 1 ==>
      CommaAt(s) < |s| && SplitMax(s, max) == [s[..CommaAt(s)]] + SplitMax(s[CommaAt(s) + 1..], max - 1)
  {
  }

  lemma {:induction false} SplitReplace(s: string, max: nat, text: string)
    requires |SplitMax(s, max)| == max + 1
    ensures SplitMax(Joined(SplitMax(s, max)[..max]) + text, max) == SplitMax(s, max)[..max] + [text]
    ensures Commas(Joined(SplitMax(s, max)[..max])) == max
  {
    hide SplitMax, Joined, Commas;
    var parts := SplitMax(s, max);
    SplitCases(s, max);
    if max > 0 {
      var c := CommaAt(s);
      var rest := SplitMax(s[c + 1..], max - 1);
      SplitReplace(s[c + 1..], max - 1, text);
      var head, front := s[..c], rest[..max - 1];
      assert parts[..max] == [head] + front;
      JoinedCons(head, front);
      assert Joined(parts[..max]) + text == head + "," + (Joined(front) + text);
      SplitFirst(head, Joined(front) + text, max);
      CountComma(head, Joined(front));
      assert [head] + (front + [text]) == parts[..max] + [text];
    } else {
      assert parts[..0] == [];
      JoinedCons([], []);
      SplitCases(text, 0);
      assert [] + text == text;
    }
  }

  lemma {:induction false} CountComma(a: string, b: string)
    requires forall k :: 0 <= k < |a| ==> a[k] != ','
    ensures Commas(a + "," + b) == 1 + Commas(b)
  {
    if |a| > 0 {
      assert (a + "," + b)[1..] == a[1..] + "," + b;
      CountComma(a[1..], b);
    } else {
      assert a + "," + b == "," + b && ("," + b)[1..] == b;
    }
  }

  lemma {:induction false} CommaFirst(a: string, b: string)
    requires forall k :: 0 <= k < |a| ==> a[k] != ','
    ensures CommaAt(a + "," + b) == |a|
  {
    if |a| > 0 {
      assert (a + "," + b)[1..] == a[1..] + "," + b;
      CommaFirst(a[1..], b);
    } else {
      assert a + "," + b == "," + b;
    }
  }

  /** The ending of a line made of break-free content and a recognised ending. */
  lemma EndingOf(content: string, e: string)
    requires NoBreak(content) && (e == "\r\n" || e == "\n" || e == "\r" || e == [])
    ensures Ending(content + e) == e && Content(content + e) == content
    ensures |content| > 0 ==> OneLine(content + e)
  {
    hide *;
    PlainEnd(content);
    var l := content + e;
    EndingCases(l);
    if e == "\r\n" {
      assert l[|l| - 2] == '\r' && l[|l| - 1] == '\n';
    } else if e == "\n" {
      assert l[|l| - 1] == '\n';
      assert |l| >= 2 ==> l[|l| - 2] == content[|content| - 1];
    } else if e == "\r" {
      assert l[|l| - 1] == '\r';
    } else {
      assert l == content;
    }
    assert Ending(l) == e;
    ContentOf(content, e);
    if |content| > 0 {
      PlainLine(content, e);
    }
  }

  lemma ContentOf(content: string, e: string)
    requires Ending(content + e) == e
    ensures Content(content + e) == content
  {
    hide Ending;
  }

  lemma PlainEnd(content: string)
    requires NoBreak(content)
    ensures |content| > 0 ==> content[|content| - 1] != '\r' && content[|content| - 1] != '\n'
  {
    assert IsBreak('\r') && IsBreak('\n');
  }

  lemma LastTwo(l: string)
    ensures |l| >= 1 ==> l[|l| - 1..] == [l[|l| - 1]]
    ensures |l| >= 2 ==> l[|l| - 2..] == [l[|l| - 2], l[|l| - 1]]
  {
    if |l| >= 1 {
      assert l[|l| - 1..][0] == l[|l| - 1];
    }
    if |l| >= 2 {
      var t := l[|l| - 2..];
      assert |t| == 2 && t[0] == l[|l| - 2] && t[1] == l[|l| - 1];
    }
  }

  lemma EndingCases(l: string)
    ensures Ending(l) == if |l| >= 2 && l[|l| - 2] == '\r' && l[|l| - 1] == '\n' then "\r\n"
                         else if |l| >= 1 && (l[|l| - 1] == '\n' || l[|l| - 1] == '\r') then [l[|l| - 1]] else []
  {
    LastTwo(l);
    hide EndsWith;
    EndsWithLast(l);
  }

  lemma EndsWithLast(l: string)
    ensures EndsWith(l, "\n") <==> |l| >= 1 && l[|l| - 1] == '\n'
    ensures EndsWith(l, "\r") <==> |l| >= 1 && l[|l| - 1] == '\r'
    ensures EndsWith(l, "\r\n") <==> |l| >= 2 && l[|l| - 2] == '\r' && l[|l| - 1] == '\n'
  {
    LastTwo(l);
  }

  /** In a line, the part before the text has no break. */
  lemma PrefixPlain(line: string, prefix: string, text: string)
    requires OneLine(line) && line == prefix + text + Ending(line) && |prefix| > 0 && prefix[|prefix| - 1] == ','
    ensures NoBreak(prefix)
    ensures Ending(line) == "\r\n" || Ending(line) == "\n" || Ending(line) == "\r" || Ending(line) == []
  {
    BreakAtEnd(line);
    forall k | 0 <= k < |prefix|
      ensures !IsBreak(prefix[k])
    {
      assert line[k] == prefix[k];
      if k + 1 < |prefix| {
        assert line[k + 1] == prefix[k + 1];
      }
      assert line[|prefix| - 1] == ',';
    }
  }

  /** The cue the reader makes of a replaced text.  Under a Format of three fields the text is also
      taken for the end time. */
  function Retimed(prefix: string, cue: SubLine, other: string): SubLine
  {
    Cue(cue.startTc, if Commas(prefix) == 2 then Strip(other) else cue.endTc, other)
  }

  /** Replacing the text of a translatable Dialogue line. */
  lemma LineReplaced(st: Events, line: string, prefix: string, text: string, startTc: string, endTc: string, other: string)
    requires st.ok && OneLine(line) && Splits(line, st.commas, prefix, text, startTc, endTc) && NoBreak(other)
    ensures var l := prefix + other + Ending(line);
            && OneLine(l) && l[0] == 'D'
            && (|Ending(line)| > 0 ==> l[|l| - 1] == line[|line| - 1])
            && Ending(l) == Ending(line)
            && Line(st, l) == Slot(st, prefix, Ending(line), Retimed(prefix, Cue(startTc, endTc, text), other))
  {
    hide SplitMax, Joined, Cue, Slot, Commas, Strip, Line;
    SplitsLine(st, line, prefix, text, startTc, endTc);
    PrefixPlain(line, prefix, text);
    var e := Ending(line);
    var l := prefix + other + e;
    EndingOf(prefix + other, e);
    SplitReplace(Content(line), st.commas, other);
    CueTimes(startTc, endTc, text);
    var now := if st.commas == 2 then Strip(other) else endTc;
    ReplacedSplits(line, l, st.commas, prefix, text, startTc, endTc, other);
    SplitsLine(st, l, prefix, other, startTc, now);
    assert l[0] == prefix[..9][0];
    if |e| > 0 {
      assert l[|l| - 1] == e[|e| - 1] == line[|line| - 1];
    }
  }

  lemma CueTimes(startTc: string, endTc: string, text: string)
    ensures Cue(startTc, endTc, text).startTc == startTc && Cue(startTc, endTc, text).endTc == endTc
  {
  }

  lemma ReplacedSplits(line: string, l: string, commas: nat, prefix: string, text: string, startTc: string, endTc: string,
                       other: string)
    requires Splits(line, commas, prefix, text, startTc, endTc) && Content(l) == prefix + other
    requires |prefix| > 9 && prefix[..9] == "Dialogue:"
    requires SplitMax(prefix + other, commas) == SplitMax(Content(line), commas)[..commas] + [other]
    ensures Splits(l, commas, prefix, other, startTc, if commas == 2 then Strip(other) else endTc)
  {
    hide SplitMax, Joined, Strip, Content;
    var parts := SplitMax(Content(line), commas);
    var now := parts[..commas] + [other];
    assert SplitMax(Content(l), commas) == now;
    assert now[..commas] == parts[..commas] && now[commas] == other;
    assert now[1] == parts[1] && (commas > 2 ==> now[2] == parts[2]);
    assert (prefix + other)[0..9] == prefix[..9];
  }
}
