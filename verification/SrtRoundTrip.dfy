/** Write after read, exactly. */
module SrtRoundTrip {
  import opened Options
  import opened Subtitles
  import opened Text
  import opened TextLines
  import opened Blocks
  import opened Srt
  import opened SrtLaws
  import SrtCues

  // ---- two texts that agree, or differ at some position ----------------------------------

  ghost predicate DifferAt(a: string, b: string, q: nat)
  {
    q < |a| && q < |b| && a[q] != b[q]
  }

  ghost predicate Diverge(a: string, b: string)
  {
    exists q: nat :: DifferAt(a, b, q)
  }

  lemma DivergeFirst(a: string, b: string)
    requires |a| > 0 && |b| > 0 && a[0] != b[0]
    ensures Diverge(a, b)
  {
    assert DifferAt(a, b, 0);
  }

  lemma DivergeAfter(x: string, a: string, b: string)
    requires Diverge(a, b)
    ensures Diverge(x + a, x + b)
  {
    var q: nat :| DifferAt(a, b, q);
    assert DifferAt(x + a, x + b, |x| + q);
  }

  lemma DivergeMore(a: string, b: string, x: string, y: string)
    requires Diverge(a, b)
    ensures Diverge(a + x, b + y)
  {
    var q: nat :| DifferAt(a, b, q);
    assert DifferAt(a + x, b + y, q);
  }

  lemma SpaceIsNotDigit(c: char)
    ensures IsSpace(c) ==> !IsDigit(c)
  {
  }

  // ---- white space around a header line --------------------------------------------------

  lemma {:induction false} LStripKeeps(s: string)
    ensures |s| > 0 && !IsSpace(s[0]) ==> LStrip(s) == s
  {
  }

  /** A line that is not stripped of anything starts like its strip; one that is, differs at the
      first character, or runs on past its strip in white space. */
  lemma StripSplits(s: string)
    requires |Strip(s)| > 0
    ensures |s| > 0
    ensures !IsSpace(s[0]) ==> Strip(s) <= s && (forall k :: |Strip(s)| <= k < |s| ==> IsSpace(s[k]))
  {
    LStripKeeps(s);
  }

  // ---- the header of a cue ---------------------------------------------------------------

  lemma LineBodyPlain(block: string, k: nat)
    requires k < |Lines(block)|
    ensures NoBreak(Body(Lines(block)[k]))
  {
    LinesChain(block);
    var l := Lines(block)[k];
    assert OneLine(l);
    BreakAtEnd(l);
    hide Lines, LineLen;
  }

  /** Two line endings, before any text: the same, or different at the first character. */
  lemma EndingsDiverge(a: string, b: string, x: string, y: string)
    requires (a == "\n" || a == "\r\n") && (b == "\n" || b == "\r\n") && a != b
    ensures Diverge(a + x, b + y)
  {
    DivergeFirst(a + x, b + y);
  }

  /** A header line with white space in it or after it, where the canonical one has a line ending. */
  lemma LineDiverges(line: string, t: string, le: string, x: string, y: string)
    requires t == Strip(line) && |t| > 0 && !IsSpace(t[0]) && line != t && NoBreak(line) && (le == "\n" || le == "\r\n")
    ensures Diverge(line + x, t + le + y)
  {
    StripSplits(line);
    if IsSpace(line[0]) {
      DivergeFirst(line + x, t + le + y);
    } else {
      var n := |t|;
      assert line[..n] == t;
      assert !IsBreak(line[n]);
      DivergeFirst(line[n..] + x, le + y);
      DivergeAfter(t, line[n..] + x, le + y);
      assert t + (line[n..] + x) == line + x && t + (le + y) == t + le + y;
    }
  }

  /** White space before a character that is not white space, against exactly one space. */
  lemma SpaceDiverges(w: string, c: char, x: string, y: string)
    requires Blank(w) && !IsSpace(c) && w != " "
    ensures Diverge(w + [c] + x, " " + [c] + y)
  {
    var a, b := w + [c] + x, " " + [c] + y;
    if |w| == 0 || w[0] != ' ' {
      DivergeFirst(a, b);
    } else {
      assert DifferAt(a, b, 1);
    }
  }

  /** What a parsed timing line looks like. */
  lemma TimesShape(s: string) returns (w: string, v: string)
    requires ParseTimes(s).Some?
    ensures var t := ParseTimes(s).value;
            && s == t.start + w + "-->" + v + t.end && Blank(w) && Blank(v)
            && |t.start| > 0 && IsDigit(t.start[0]) && |t.end| > 0 && IsDigit(t.end[0])
  {
    hide IsSpace, IsDigit, ParseTimes;
    w, v := SrtCues.TimesParts(s);
  }

  function Arrow(t: Times): string
  {
    t.start + " --> " + t.end
  }

  lemma BeforeArrow(t: Times, w: string, v: string, x: string, y: string)
    requires Blank(w) && w != " "
    ensures Diverge(t.start + w + "-->" + v + t.end + x, Arrow(t) + y)
  {
    hide IsSpace, Blank;
    Dash();
    var a, b := "->" + v + t.end + x, "-> " + t.end + y;
    SpaceDiverges(w, '-', a, b);
    DivergeAfter(t.start, w + ['-'] + a, " " + ['-'] + b);
    assert t.start + w + "-->" + v + t.end + x == t.start + (w + ['-'] + a);
    assert Arrow(t) + y == t.start + (" " + ['-'] + b);
  }

  lemma AfterArrow(t: Times, v: string, x: string, y: string)
    requires Blank(v) && v != " " && |t.end| > 0 && !IsSpace(t.end[0])
    ensures Diverge(t.start + " " + "-->" + v + t.end + x, Arrow(t) + y)
  {
    hide IsSpace, Blank;
    var a, b := t.end[1..] + x, t.end[1..] + y;
    SpaceDiverges(v, t.end[0], a, b);
    DivergeAfter(t.start + " -->", v + [t.end[0]] + a, " " + [t.end[0]] + b);
    assert t.end == [t.end[0]] + t.end[1..];
    assert t.start + " " + "-->" + v + t.end + x == t.start + " -->" + (v + [t.end[0]] + a);
    assert Arrow(t) + y == t.start + " -->" + (" " + [t.end[0]] + b);
  }

  /** A parsed timing line is canonical, or differs from the canonical one within it. */
  lemma ArrowDiverges(s: string, x: string, y: string)
    requires ParseTimes(s).Some? && s != Arrow(ParseTimes(s).value)
    ensures Diverge(s + x, Arrow(ParseTimes(s).value) + y)
  {
    hide ParseTimes, IsDigit, IsSpace, Blank, Diverge;
    var t := ParseTimes(s).value;
    var w, v := TimesShape(s);
    SpaceIsNotDigit(t.end[0]);
    if w != " " {
      BeforeArrow(t, w, v, x, y);
    } else {
      assert t.start + " " + "-->" + " " + t.end == Arrow(t);
      AfterArrow(t, v, x, y);
    }
  }

  lemma Dash()
    ensures !IsSpace('-')
  {
  }

  // ---- one block -------------------------------------------------------------------------

  /** A cue block is written back as it was: it is kept raw, or its index and timing lines carry no
      extra white space, the arrow has one space on each side, and its line ending is the file's. */
  predicate Canonical(block: string, le: string)
  {
    ParseBlock(block).raw.Some? ||
    (var l, ls := ParseBlock(block), Lines(block);
     |ls| >= 2 && Body(ls[0]) == l.index && Body(ls[1]) == l.startTc + " --> " + l.endTc && LineEnding(block) == le)
  }

  /** A well-formed block, taken apart. */
  lemma WellFormed(block: string) returns (index: string, tc: string, t: Times, le: string)
    requires ParseBlock(block).raw.None?
    ensures var l := ParseBlock(block);
            && |Lines(block)| >= 2 && index == Body(Lines(block)[0]) && tc == Body(Lines(block)[1])
            && le == LineEnding(block) && block == index + le + tc + le + l.text
            && ParseTimes(Strip(tc)) == Some(t) && l == SubLine(Strip(index), t.start, t.end, l.text, None)
            && AllDigits(Strip(index)) && NoBreak(index) && NoBreak(tc)
  {
    hide ParseTimes, AllDigits, Strip, Body;
    index, tc := Body(Lines(block)[0]), Body(Lines(block)[1]);
    t, le := ParseTimes(Strip(tc)).value, LineEnding(block);
    LineBodyPlain(block, 0);
    LineBodyPlain(block, 1);
    assert block == (index + le + tc + le) + block[|index + le + tc + le|..];
  }

  lemma BlockRendered(block: string, le: string)
    requires le == "\n" || le == "\r\n"
    ensures Canonical(block, le) ==> RenderBlock(ParseBlock(block), le) == block
    ensures !Canonical(block, le) ==> Diverge(block, RenderBlock(ParseBlock(block), le))
  {
    RawKeeps(block, le);
    if ParseBlock(block).raw.None? {
      var index, tc, t, own := WellFormed(block);
      HeaderRendered(block, index, tc, t, own, le, ParseBlock(block).text);
      hide ParseBlock, Lines, LineEnding, Strip, Body;
      assert t.start + " --> " + t.end == Arrow(t);
    }
  }

  lemma HeaderRendered(block: string, index: string, tc: string, t: Times, own: string, le: string, text: string)
    requires block == index + own + tc + own + text && ParseTimes(Strip(tc)) == Some(t)
    requires AllDigits(Strip(index)) && NoBreak(index) && NoBreak(tc)
    requires (own == "\n" || own == "\r\n") && (le == "\n" || le == "\r\n")
    ensures var r := RenderBlock(SubLine(Strip(index), t.start, t.end, text, None), le);
            if index == Strip(index) && own == le && tc == Arrow(t) then r == block else Diverge(block, r)
  {
    hide *;
    var r := RenderBlock(SubLine(Strip(index), t.start, t.end, text, None), le);
    Rendered(Strip(index), t, text, le);
    if index != Strip(index) {
      IndexDiverges(index, own + tc + own + text, le, Arrow(t) + le + text);
      Regroup(index, own, tc, text);
      Regroup(Strip(index), le, Arrow(t), text);
    } else if own != le {
      EndingsDiverge(own, le, tc + own + text, Arrow(t) + le + text);
      DivergeAfter(index, own + (tc + own + text), le + (Arrow(t) + le + text));
      Regroup(index, own, tc, text);
      Regroup(index, le, Arrow(t), text);
    } else if tc != Arrow(t) {
      TimingRendered(tc, t, le, text);
      DivergeAfter(index + le, tc + le + text, Arrow(t) + le + text);
      Regroup(index, le, tc, text);
      Regroup(index, le, Arrow(t), text);
    }
  }

  /** Concatenation associates. */
  lemma Regroup(index: string, le: string, tc: string, text: string)
    ensures index + le + tc + le + text == index + (le + tc + le + text)
    ensures index + le + tc + le + text == index + le + (tc + le + text)
    ensures index + le + tc + le + text == index + (le + (tc + le + text))
  {
  }

  lemma IndexDiverges(index: string, x: string, le: string, y: string)
    requires AllDigits(Strip(index)) && NoBreak(index) && (le == "\n" || le == "\r\n") && index != Strip(index)
    ensures Diverge(index + x, Strip(index) + le + y)
  {
    hide *;
    DigitsStart(Strip(index));
    LineDiverges(index, Strip(index), le, x, y);
  }

  lemma Rendered(index: string, t: Times, text: string, le: string)
    ensures RenderBlock(SubLine(index, t.start, t.end, text, None), le) == index + le + Arrow(t) + le + text
  {
    assert index + le + t.start + " --> " + t.end + le + text == index + le + (t.start + " --> " + t.end) + le + text;
  }

  lemma RawKeeps(block: string, le: string)
    ensures ParseBlock(block).raw.Some? ==> RenderBlock(ParseBlock(block), le) == block
  {
    hide ParseTimes, AllDigits, Strip, Body, Lines, LineEnding;
  }

  lemma DigitsStart(s: string)
    requires AllDigits(s)
    ensures |s| > 0 && !IsSpace(s[0])
  {
    SpaceIsNotDigit(s[0]);
  }

  lemma TimingRendered(tc: string, t: Times, le: string, text: string)
    requires ParseTimes(Strip(tc)) == Some(t) && NoBreak(tc) && (le == "\n" || le == "\r\n") && tc != Arrow(t)
    ensures Diverge(tc + le + text, Arrow(t) + le + text)
  {
    hide *;
    var s := Strip(tc);
    TimesStart(s, t);
    StripSplits(tc);
    if s == Arrow(t) {
      LineDiverges(tc, s, le, le + text, text);
      assert tc + (le + text) == tc + le + text;
    } else if IsSpace(tc[0]) {
      ArrowStart(t);
      DivergeFirst(tc + le + text, Arrow(t) + le + text);
    } else {
      ArrowDiverges(s, tc[|s|..] + le + text, le + text);
      assert tc == s + tc[|s|..];
      assert s + (tc[|s|..] + le + text) == tc + le + text && Arrow(t) + (le + text) == Arrow(t) + le + text;
    }
  }

  lemma ArrowStart(t: Times)
    requires |t.start| > 0
    ensures |Arrow(t)| > 0 && Arrow(t)[0] == t.start[0]
  {
  }

  lemma TimesStart(s: string, t: Times)
    requires ParseTimes(s) == Some(t)
    ensures |s| > 0 && |t.start| > 0 && s[0] == t.start[0] && !IsSpace(s[0])
  {
    hide ParseTimes;
    var w, v := TimesShape(s);
    SpaceIsNotDigit(t.start[0]);
  }

  // ---- the whole file --------------------------------------------------------------------

  /** Blocks that agree or diverge, woven with the same separators. */
  lemma {:induction false} WeaveDiverges(a: seq<string>, b: seq<string>, seps: seq<string>, fallback: string, tail: string)
    requires |a| == |b| && a != b && forall i :: 0 <= i < |a| ==> a[i] == b[i] || Diverge(a[i], b[i])
    ensures Diverge(Weave(a, seps, fallback) + tail, Weave(b, seps, fallback) + tail)
  {
    hide Diverge;
    if a[0] != b[0] {
      var x := RestOf(a, seps, fallback);
      var y := RestOf(b, seps, fallback);
      DivergeMore(a[0], b[0], x + tail, y + tail);
      hide *;
      assert a[0] + (x + tail) == a[0] + x + tail;
      assert b[0] + (y + tail) == b[0] + y + tail;
    } else {
      assert a[1..] != b[1..] by {
        assert a == [a[0]] + a[1..] && b == [b[0]] + b[1..];
      }
      var rest, sep := if |seps| > 0 then seps[1..] else [], if |seps| > 0 then seps[0] else fallback;
      WeaveDiverges(a[1..], b[1..], rest, fallback, tail);
      WeaveCons(a, seps, fallback);
      WeaveCons(b, seps, fallback);
      hide *;
      var x, y := Weave(a[1..], rest, fallback), Weave(b[1..], rest, fallback);
      DivergeAfter(a[0] + sep, x + tail, y + tail);
      assert a[0] + sep + (x + tail) == a[0] + sep + x + tail;
      assert b[0] + sep + (y + tail) == b[0] + sep + y + tail;
    }
  }

  lemma WeaveCons(a: seq<string>, seps: seq<string>, fallback: string)
    requires |a| > 1
    ensures Weave(a, seps, fallback) == a[0] + (if |seps| > 0 then seps[0] else fallback)
                                        + Weave(a[1..], if |seps| > 0 then seps[1..] else [], fallback)
  {
  }

  lemma RestOf(a: seq<string>, seps: seq<string>, fallback: string) returns (x: string)
    requires |a| > 0
    ensures Weave(a, seps, fallback) == a[0] + x
  {
    if |a| == 1 {
      x := [];
    } else if |seps| == 0 {
      x := fallback + Weave(a[1..], [], fallback);
    } else {
      x := seps[0] + Weave(a[1..], seps[1..], fallback);
    }
  }

  lemma {:induction false} ParseAllFull(blocks: seq<string>)
    requires AllFull(blocks)
    ensures |ParseAll(blocks)| == |blocks|
    ensures forall i :: 0 <= i < |blocks| ==> ParseAll(blocks)[i] == ParseBlock(blocks[i])
  {
    hide ParseBlock;
    if |blocks| > 0 {
      ParseAllFull(blocks[..|blocks| - 1]);
    }
  }

  lemma BlocksRendered(blocks: seq<string>, le: string)
    requires AllFull(blocks) && (le == "\n" || le == "\r\n")
    ensures var now := RenderAll(ParseAll(blocks), le);
            && |now| == |blocks|
            && (forall i :: 0 <= i < |blocks| ==> (now[i] == blocks[i] <==> Canonical(blocks[i], le)))
            && (forall i :: 0 <= i < |blocks| ==> blocks[i] == now[i] || Diverge(blocks[i], now[i]))
  {
    ParseAllFull(blocks);
    hide ParseBlock, RenderBlock, Canonical, Diverge, ParseAll, AllFull;
    var now := RenderAll(ParseAll(blocks), le);
    forall i | 0 <= i < |blocks|
      ensures now[i] == blocks[i] <==> Canonical(blocks[i], le)
      ensures blocks[i] == now[i] || Diverge(blocks[i], now[i])
    {
      BlockRendered(blocks[i], le);
      SameDoesNotDiverge(blocks[i], now[i]);
    }
  }

  lemma WriteRead(s: string)
    ensures var p, le := Structure(s), LineEnding(s);
            Write(Read(s)) == Leading(s) + Weave(RenderAll(ParseAll(p.blocks), le), p.seps, le + le) + p.trailer
  {
  }

  /** Outside the gap, the file comes back exactly if every block is canonical. */
  lemma FullWritten(s: string)
    requires AllFull(Structure(s).blocks)
    ensures Write(Read(s)) == s <==> forall b :: b in Structure(s).blocks ==> Canonical(b, LineEnding(s))
  {
    hide *;
    var p, le := Structure(s), LineEnding(s);
    var now := RenderAll(ParseAll(p.blocks), le);
    var lead := Leading(s);
    WriteRead(s);
    BlocksRendered(p.blocks, le);
    StructureWhole(s, le + le);
    if now != p.blocks {
      var was, got := Weave(p.blocks, p.seps, le + le) + p.trailer, Weave(now, p.seps, le + le) + p.trailer;
      WeaveDiverges(p.blocks, now, p.seps, le + le, p.trailer);
      DivergeAfter(lead, was, got);
      SameDoesNotDiverge(lead + was, lead + got);
      assert lead + was == s && lead + got == Write(Read(s));
      var i :| 0 <= i < |now| && now[i] != p.blocks[i];
      assert p.blocks[i] in p.blocks;
    } else {
      forall b | b in p.blocks
        ensures Canonical(b, le)
      {
        var i :| 0 <= i < |p.blocks| && p.blocks[i] == b;
      }
    }
  }

  lemma SameDoesNotDiverge(a: string, b: string)
    ensures Diverge(a, b) ==> a != b
  {
  }

  // ---- inside the gap --------------------------------------------------------------------

  function Total(parts: seq<string>): nat
  {
    if |parts| == 0 then 0 else |parts[0]| + Total(parts[1..])
  }

  lemma {:induction false} WeaveLength(blocks: seq<string>, seps: seq<string>, fallback: string)
    requires |blocks| > 0 && |seps| >= |blocks| - 1
    ensures |Weave(blocks, seps, fallback)| == Total(blocks) + Total(seps[..|blocks| - 1])
  {
    if |blocks| > 1 {
      WeaveLength(blocks[1..], seps[1..], fallback);
      assert seps[..|blocks| - 1][1..] == seps[1..][..|blocks| - 2];
    } else {
      assert Total(blocks[1..]) == 0;
    }
  }

  lemma {:induction false} TotalSnoc(parts: seq<string>, last: string)
    ensures Total(parts + [last]) == Total(parts) + |last|
  {
    if |parts| > 0 {
      assert (parts + [last])[1..] == parts[1..] + [last];
      TotalSnoc(parts[1..], last);
    } else {
      assert parts + [last] == [last] && [last][1..] == [];
    }
  }

  lemma {:induction false} SepsFull(s: string)
    ensures forall i :: 0 <= i < |SplitBlocks(s).seps| ==> SplitBlocks(s).seps[i] != []
    decreases |s|
  {
    hide SepLen, FirstSep;
    var p := FirstSep(s);
    if p < |s| {
      SepsFull(s[p + SepLen(s[p..])..]);
      FirstSepIs(s, p);
    }
  }

  lemma FirstSepIs(s: string, p: nat)
    requires p == FirstSep(s) && p < |s|
    ensures SepLen(s[p..]) > 0
  {
  }

  lemma {:induction false} WeaveBlank(blocks: seq<string>, seps: seq<string>, fallback: string)
    requires Blank(Weave(blocks, seps, fallback))
    ensures forall i :: 0 <= i < |blocks| ==> Blank(blocks[i])
  {
    hide IsSpace;
    if |blocks| > 0 {
      if |blocks| > 1 {
        var sep, rest := if |seps| > 0 then seps[0] else fallback, if |seps| > 0 then seps[1..] else [];
        BlankParts(blocks[0] + sep, Weave(blocks[1..], rest, fallback));
        BlankParts(blocks[0], sep);
        WeaveBlank(blocks[1..], rest, fallback);
        assert forall i :: 1 <= i < |blocks| ==> blocks[i] == blocks[1..][i - 1];
      }
    }
  }

  lemma BlankParts(a: string, b: string)
    requires Blank(a + b)
    ensures Blank(a) && Blank(b)
  {
    hide IsSpace;
    forall k | 0 <= k < |a|
      ensures IsSpace(a[k])
    {
      assert a[k] == (a + b)[k];
    }
    forall k | 0 <= k < |b|
      ensures IsSpace(b[k])
    {
      assert b[k] == (a + b)[|a| + k];
    }
  }

  /** White space is never a cue. */
  lemma BlankIsRaw(block: string)
    requires Blank(block)
    ensures ParseBlock(block).raw == Some(block)
  {
    hide ParseTimes, Lines, Strip, IsSpace, LineEnding, AllDigits, Body;
    if |Lines(block)| >= 2 {
      NoDigits();
      IndexBlank(block);
    }
  }

  lemma IndexBlank(block: string)
    requires Blank(block) && |Lines(block)| >= 2
    ensures Strip(Body(Lines(block)[0])) == []
  {
    var index := Body(Lines(block)[0]);
    assert index <= Lines(block)[0] <= block;
    hide IsSpace, Lines, Body, Strip;
    assert forall k :: 0 <= k < |index| ==> index[k] == block[k];
    StripBlank(index);
  }

  lemma NoDigits()
    ensures !AllDigits([])
  {
  }

  lemma {:induction false} ParseAllTail(blocks: seq<string>)
    requires |blocks| > 0 && blocks[0] == [] && AllFull(blocks[1..])
    ensures ParseAll(blocks) == ParseAll(blocks[1..])
  {
    hide ParseBlock;
    var n := |blocks| - 1;
    if n > 0 {
      assert blocks[..n][1..] == blocks[1..][..n - 1];
      assert blocks[1..][n - 1] == blocks[n];
      ParseAllTail(blocks[..n]);
    } else {
      assert blocks[..0] == [];
    }
  }

  /** In the gap the first separator is written nowhere, and the file comes back shorter. */
  lemma GapLosesText(s: string)
    requires BlankGap(s)
    ensures |Write(Read(s))| < |s|
  {
    hide *;
    var p, le := Structure(s), LineEnding(s);
    WriteRead(s);
    GapHasEmptyBlock(s);
    StructureWhole(s, le + le);
    GapBlocks(s);
    var rest := p.blocks[1..];
    var now := RenderAll(ParseAll(p.blocks), le);
    assert now == rest;
    FitsLength(p.blocks, p.seps);
    WeaveLength(p.blocks, p.seps, le + le);
    WeaveLength(rest, p.seps, le + le);
    TotalTail(p.blocks);
    var m := |p.seps|;
    assert p.seps[..|p.blocks| - 1] == p.seps[..m - 1] + [p.seps[m - 1]];
    TotalSnoc(p.seps[..m - 1], p.seps[m - 1]);
    assert p.seps[..|rest| - 1] == p.seps[..m - 1];
  }

  lemma FitsLength(blocks: seq<string>, seps: seq<string>)
    requires Fits(blocks, seps) && |blocks| > 0
    ensures |seps| == |blocks| - 1
  {
  }

  lemma TotalTail(blocks: seq<string>)
    requires |blocks| > 0 && blocks[0] == []
    ensures Total(blocks) == Total(blocks[1..])
  {
  }

  /** All the blocks of the gap are white space, hence raw. */
  lemma GapBlocks(s: string)
    requires BlankGap(s)
    ensures var p := Structure(s);
            |p.blocks| >= 2 && RenderAll(ParseAll(p.blocks), LineEnding(s)) == p.blocks[1..]
    ensures forall i :: 0 <= i < |Structure(s).seps| ==> Structure(s).seps[i] != []
  {
    var p := Structure(s);
    GapHasEmptyBlock(s);
    PoppedFull(s);
    TailFull(p.blocks);
    ParseAllTail(p.blocks);
    ParseAllFull(p.blocks[1..]);
    assert Blank(s);
    hide *;
    StructureBlank(s);
    RenderBlank(p.blocks[1..], LineEnding(s));
    StructureSeps(s);
  }

  lemma TailFull(blocks: seq<string>)
    requires |blocks| >= 1 && InnerFull(blocks, |blocks|)
    ensures AllFull(blocks[1..])
  {
  }

  lemma StructureBlank(s: string)
    requires Blank(s)
    ensures forall i :: 0 <= i < |Structure(s).blocks| ==> Blank(Structure(s).blocks[i])
  {
    hide *;
    StructureWhole(s, []);
    var p := Structure(s);
    BlankParts(Leading(s) + Weave(p.blocks, p.seps, []), p.trailer);
    BlankParts(Leading(s), Weave(p.blocks, p.seps, []));
    WeaveBlank(p.blocks, p.seps, []);
  }

  lemma RenderBlank(blocks: seq<string>, le: string)
    requires AllFull(blocks) && forall i :: 0 <= i < |blocks| ==> Blank(blocks[i])
    ensures RenderAll(ParseAll(blocks), le) == blocks
  {
    ParseAllFull(blocks);
    hide ParseBlock, ParseAll, Blank, AllFull;
    var now := RenderAll(ParseAll(blocks), le);
    forall i | 0 <= i < |blocks|
      ensures now[i] == blocks[i]
    {
      BlankIsRaw(blocks[i]);
    }
  }

  lemma StructureSeps(s: string)
    ensures forall i :: 0 <= i < |Structure(s).seps| ==> Structure(s).seps[i] != []
  {
    var text := s[|Leading(s)|..];
    var c := SplitBlocks(text);
    SepsFull(text);
    TrailKeeps(c, []);
    PopKeeps(TrailCut(c), []);
    hide SplitBlocks, Leading, Pop, TrailAt, Weave;
    var p := Structure(s);
    assert |p.blocks| == 0 ==> |p.seps| == 0;
    forall i | 0 <= i < |p.seps|
      ensures p.seps[i] != []
    {
      assert p.seps[i] == c.seps[i];
    }
  }

  /** Writing an SRT file after reading it gives it back if and only if every cue block is
      canonical, and the file is not white space that starts with blank lines and goes on after
      them.  Malformed blocks and runs of blank lines are covered. */
  lemma WriteReadIff(s: string)
    ensures Write(Read(s)) == s <==>
      !BlankGap(s) && forall b :: b in Structure(s).blocks ==> Canonical(b, LineEnding(s))
  {
    hide *;
    if BlankGap(s) {
      GapLosesText(s);
    } else {
      NoGapAllFull(s);
      FullWritten(s);
    }
  }

  /** The shortest file in the gap. */
  lemma GapExample()
    ensures Write(Read("\n\n ")) != "\n\n "
  {
    var s := "\n\n ";
    assert s[1..] == "\n " && s[1..][1..] == " " && s[1..][0..] == s[1..] && " "[0..] == " " && " "[1..] == "";
    assert BlankRun(" ") == 1 && BlankLine(" ") == 0 && BlankLine("\n ") == 1 && BlankLines("\n ") == 1;
    assert BlankGap(s);
    GapLosesText(s);
  }
}
