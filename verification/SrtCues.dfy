/** What the SRT reader takes from a block: the timing pattern, and the cue of a block put together from
    its parts. */
module SrtCues {
  import opened Options
  import opened Subtitles
  import opened Text
  import opened TextLines
  import opened Blocks
  import opened Srt

  // ---- the timing pattern ----------------------------------------------------------------

  predicate Digits(s: string) { |s| > 0 && forall k :: 0 <= k < |s| ==> IsDigit(s[k]) }

  /** `hh:mm:ss`, a comma or a period, and at least one digit. */
  predicate Timecode(x: string)
  {
    && |x| >= 10 && IsDigit(x[0]) && IsDigit(x[1]) && x[2] == ':' && IsDigit(x[3]) && IsDigit(x[4]) && x[5] == ':'
    && IsDigit(x[6]) && IsDigit(x[7]) && (x[8] == ',' || x[8] == '.') && Digits(x[9..])
  }

  /** Two timecodes, an arrow between them, and any white space around it. */
  ghost predicate TimesShape(s: string, t: Times, before: string, after: string)
  {
    && s == t.start + (before + ("-->" + (after + t.end)))
    && Timecode(t.start) && Timecode(t.end) && White(before) && White(after)
  }

  lemma DigitRunIs(d: string, rest: string)
    requires (forall k :: 0 <= k < |d| ==> IsDigit(d[k])) && (rest == [] || !IsDigit(rest[0]))
    ensures DigitRun(d + rest) == |d|
  {
    hide IsDigit;
    var s := d + rest;
    var n := DigitRun(s);
    assert forall k :: 0 <= k < |d| ==> s[k] == d[k];
    assert rest != [] ==> s[|d|] == rest[0];
  }

  lemma TimecodeLenIs(x: string, rest: string)
    requires Timecode(x) && (rest == [] || !IsDigit(rest[0]))
    ensures TimecodeLen(x + rest) == |x|
  {
    hide IsDigit;
    var s := x + rest;
    assert s[9..] == x[9..] + rest;
    DigitRunIs(x[9..], rest);
    assert forall k :: 0 <= k < 10 ==> s[k] == x[k];
  }

  lemma TimecodeOf(s: string)
    requires TimecodeLen(s) > 0
    ensures Timecode(s[..TimecodeLen(s)]) && (TimecodeLen(s) < |s| ==> !IsDigit(s[TimecodeLen(s)]))
  {
    hide IsDigit;
    var n := TimecodeLen(s);
    var x := s[..n];
    assert x[9..] == s[9..][..n - 9];
    assert n < |s| ==> s[n] == s[9..][n - 9];
    assert forall k :: 0 <= k < 10 ==> x[k] == s[k];
  }

  lemma TimecodeEnds(x: string)
    requires Timecode(x)
    ensures |x| > 0 && IsDigit(x[0]) && IsDigit(x[|x| - 1])
  {
    assert x[9..][|x| - 10] == x[|x| - 1];
  }

  lemma DigitIsPlain(c: char)
    requires IsDigit(c)
    ensures !IsSpace(c) && !IsBreak(c)
  {
  }

  lemma NoDigit(c: char)
    requires IsSpace(c) || c == '-'
    ensures !IsDigit(c)
  {
  }

  lemma DashIsInk()
    ensures !IsSpace('-')
  {
  }

  lemma ArrowFits(x: string, w: nat)
    requires At(x, w, "-->")
    ensures w + 3 <= |x|
  {
  }

  lemma EndBuilt(before: string, after: string, end: string)
    requires White(before) && White(after) && Timecode(end)
    ensures EndTime(before + ("-->" + (after + end))) == Some(end)
  {
    hide IsSpace, IsDigit, TimecodeLen, Timecode;
    DashIsInk();
    TimecodeEnds(end);
    DigitIsPlain(end[0]);
    var y := after + end;
    var x := before + ("-->" + y);
    SpacesThen(before, "-->" + y);
    SpacesThen(after, end);
    assert end + [] == end;
    TimecodeLenIs(end, []);
    assert x[|before|..|before| + 3] == "-->" && x[|before| + 3..] == y && y[|after|..] == end;
  }

  lemma EndParts(x: string) returns (before: string, after: string)
    requires EndTime(x).Some?
    ensures x == before + ("-->" + (after + EndTime(x).value)) && White(before) && White(after) && Timecode(EndTime(x).value)
  {
    hide IsSpace, IsDigit, TimecodeLen, Timecode, At;
    var w := SpaceRun(x);
    ArrowFits(x, w);
    before := x[..w];
    var y := x[w + 3..];
    after := y[..SpaceRun(y)];
    var end := y[SpaceRun(y)..];
    TimecodeOf(end);
    assert end[..|end|] == end;
    assert y == after + end;
    ArrowSplits(x, w);
  }

  lemma ArrowSplits(x: string, w: nat)
    requires At(x, w, "-->")
    ensures x == x[..w] + ("-->" + x[w + 3..])
  {
    assert x[w..] == "-->" + x[w + 3..];
  }

  lemma TimesBuilt(s: string, t: Times, before: string, after: string)
    requires TimesShape(s, t, before, after)
    ensures ParseTimes(s) == Some(t)
  {
    hide IsSpace, IsDigit, TimecodeLen, Timecode, EndTime;
    var x := before + ("-->" + (after + t.end));
    assert x[0] == if before == [] then '-' else before[0];
    NoDigit(x[0]);
    TimecodeEnds(t.start);
    TimecodeLenIs(t.start, x);
    EndBuilt(before, after, t.end);
    assert s[|t.start|..] == x && s[..|t.start|] == t.start;
  }

  lemma TimesParts(s: string) returns (before: string, after: string)
    requires ParseTimes(s).Some?
    ensures TimesShape(s, ParseTimes(s).value, before, after)
  {
    hide IsSpace, IsDigit, TimecodeLen, Timecode, EndTime;
    var n := TimecodeLen(s);
    TimecodeOf(s);
    before, after := EndParts(s[n..]);
    assert s == s[..n] + s[n..];
  }

  /** A stripped timing line is split if and only if it is two timecodes with an arrow between them, and into
      those two. */
  lemma ParseTimesIff(s: string, t: Times)
    ensures ParseTimes(s) == Some(t) <==> exists before, after :: TimesShape(s, t, before, after)
  {
    hide *;
    if ParseTimes(s) == Some(t) {
      var before, after := TimesParts(s);
    }
    forall before, after | TimesShape(s, t, before, after)
      ensures ParseTimes(s) == Some(t)
    {
      TimesBuilt(s, t, before, after);
    }
  }

  // ---- a block from its parts ------------------------------------------------------------

  /** The index line, the timing line and the text of a block, with the breaks between them. */
  datatype BlockParts = BlockParts(indent: string, digits: string, indexTail: string, indexBreak: string, pad: string, times: Times,
                                   before: string, after: string, timeTail: string, timeBreak: string, text: string)

  function IndexLine(p: BlockParts): string
  {
    p.indent + (p.digits + p.indexTail)
  }

  function TimesText(p: BlockParts): string
  {
    p.times.start + (p.before + ("-->" + (p.after + p.times.end)))
  }

  function TimeLine(p: BlockParts): string
  {
    p.pad + (TimesText(p) + p.timeTail)
  }

  function PartsText(p: BlockParts): string
  {
    IndexLine(p) + p.indexBreak + (TimeLine(p) + p.timeBreak + p.text)
  }

  predicate Gap(s: string) { White(s) && NoBreak(s) }

  /** A number, two timecodes, white space on the line around them, and line endings. */
  predicate PartsFit(p: BlockParts)
  {
    && Digits(p.digits) && Timecode(p.times.start) && Timecode(p.times.end)
    && Gap(p.indent) && Gap(p.indexTail) && Gap(p.pad) && Gap(p.before) && Gap(p.after) && Gap(p.timeTail)
    && UsualBreak(p.indexBreak, TimeLine(p))
    && (UsualBreak(p.timeBreak, p.text) || (p.timeBreak == [] && p.text == []))
  }

  lemma {:induction false} LStripWhite(white: string, rest: string)
    requires White(white) && |rest| > 0 && !IsSpace(rest[0])
    ensures LStrip(white + rest) == rest
  {
    hide IsSpace;
    if white == [] {
      assert white + rest == rest;
    } else {
      assert (white + rest)[1..] == white[1..] + rest;
      LStripWhite(white[1..], rest);
    }
  }

  lemma {:induction false} RStripWhite(core: string, white: string)
    requires White(white) && |core| > 0 && !IsSpace(core[|core| - 1])
    ensures RStrip(core + white) == core
  {
    hide IsSpace;
    if white == [] {
      assert core + white == core;
    } else {
      var n := |white| - 1;
      assert (core + white)[..|core + white| - 1] == core + white[..n];
      RStripWhite(core, white[..n]);
    }
  }

  lemma StripPadded(left: string, core: string, right: string)
    requires White(left) && White(right) && |core| > 0 && !IsSpace(core[0]) && !IsSpace(core[|core| - 1])
    ensures Strip(left + (core + right)) == core
  {
    hide IsSpace, LStrip, RStrip;
    LStripWhite(left, core + right);
    RStripWhite(core, right);
  }

  lemma DigitsPlain(s: string)
    requires forall k :: 0 <= k < |s| ==> IsDigit(s[k])
    ensures NoBreak(s)
  {
    hide IsDigit, IsBreak;
    forall k | 0 <= k < |s|
      ensures !IsBreak(s[k])
    {
      DigitIsPlain(s[k]);
    }
  }

  lemma TimecodePlain(x: string)
    requires Timecode(x)
    ensures NoBreak(x)
  {
    DigitsPlain(x[9..]);
    forall k | 0 <= k < |x|
      ensures !IsBreak(x[k])
    {
      if k >= 9 {
        assert x[k] == x[9..][k - 9];
      } else if k != 2 && k != 5 && k != 8 {
        DigitIsPlain(x[k]);
      }
    }
  }

  lemma PlainJoin(a: string, b: string)
    requires NoBreak(a) && NoBreak(b)
    ensures NoBreak(a + b)
  {
    hide IsBreak;
  }

  lemma LinesPlain(p: BlockParts)
    requires PartsFit(p)
    ensures NoBreak(IndexLine(p)) && NoBreak(TimeLine(p)) && TimeLine(p) != []
  {
    hide IsDigit, IsBreak, IsSpace, Timecode, White;
    DigitsPlain(p.digits);
    PlainJoin(p.digits, p.indexTail);
    PlainJoin(p.indent, p.digits + p.indexTail);
    TimecodePlain(p.times.start);
    TimecodePlain(p.times.end);
    ArrowPlain();
    PlainJoin(p.after, p.times.end);
    PlainJoin("-->", p.after + p.times.end);
    PlainJoin(p.before, "-->" + (p.after + p.times.end));
    PlainJoin(p.times.start, p.before + ("-->" + (p.after + p.times.end)));
    PlainJoin(TimesText(p), p.timeTail);
    PlainJoin(p.pad, TimesText(p) + p.timeTail);
  }

  lemma ArrowPlain()
    ensures NoBreak("-->")
  {
  }

  lemma HeaderRead(p: BlockParts)
    requires PartsFit(p)
    ensures Strip(IndexLine(p)) == p.digits && AllDigits(p.digits)
    ensures ParseTimes(Strip(TimeLine(p))) == Some(p.times)
  {
    hide IsDigit, IsBreak, IsSpace, Timecode, ParseTimes, Strip, NoBreak;
    DigitIsPlain(p.digits[0]);
    DigitIsPlain(p.digits[|p.digits| - 1]);
    StripPadded(p.indent, p.digits, p.indexTail);
    assert p.digits + [] == p.digits;
    DigitRunIs(p.digits, []);
    TimecodeEnds(p.times.start);
    TimecodeEnds(p.times.end);
    DigitIsPlain(p.times.start[0]);
    DigitIsPlain(p.times.end[|p.times.end| - 1]);
    var core := TimesText(p);
    assert core[0] == p.times.start[0] && core[|core| - 1] == p.times.end[|p.times.end| - 1];
    StripPadded(p.pad, core, p.timeTail);
    assert TimesShape(core, p.times, p.before, p.after);
    TimesBuilt(core, p.times, p.before, p.after);
  }

  lemma LinesOfParts(p: BlockParts)
    requires PartsFit(p)
    ensures var ls := Lines(PartsText(p));
            |ls| >= 2 && Body(ls[0]) == IndexLine(p) && Body(ls[1]) == TimeLine(p)
  {
    hide IsBreak, Lines, Body, IndexLine, TimeLine, Gap;
    LinesPlain(p);
    var rest := TimeLine(p) + p.timeBreak + p.text;
    assert rest[0] == TimeLine(p)[0];
    FirstOf(TimeLine(p), p.timeBreak, p.text);
    FirstOf(IndexLine(p), p.indexBreak, rest);
  }

  /** The header the reader rebuilds is a prefix exactly if both breaks are the block's line ending. */
  lemma PrefixIff(index: string, e0: string, times: string, e1: string, text: string, le: string)
    requires (le == "\n" || le == "\r\n") && NoBreak(times) && times != []
    requires UsualBreak(e0, times) && (UsualBreak(e1, text) || (e1 == [] && text == []))
    ensures StartsWith(index + e0 + (times + e1 + text), index + le + times + le) <==> e0 == le && e1 == le
  {
    var block, prefix := index + e0 + (times + e1 + text), index + le + times + le;
    assert times[0] != '\n' by { assert !IsBreak(times[0]); }
    if StartsWith(block, prefix) {
      assert block[0..|prefix|] == prefix;
      var n := |index|;
      assert block[n] == prefix[n] == le[0] && block[n] == e0[0];
      assert |e0| == 1 ==> block[n + 1] == times[0];
      assert |le| == 2 ==> block[n + 1] == prefix[n + 1] == le[1];
      assert e0 == le;
      var m := n + |le| + |times|;
      assert prefix[m] == le[0] && block[m] == prefix[m];
      assert |le| == 2 ==> block[m + 1] == prefix[m + 1] == le[1];
      assert e1 != [] ==> block[m] == e1[0];
      assert |e1| == 1 && |block| > m + 1 ==> block[m + 1] == text[0];
    }
    if e0 == le && e1 == le {
      assert block == prefix + text;
      assert block[..|prefix|] == prefix;
    }
  }

  /** A block put together from such parts reads with exactly this number and these times.  If both breaks of
      its header are the line ending of the block it is a cue with exactly this text; else it is kept whole. */
  lemma BlockReads(p: BlockParts)
    requires PartsFit(p)
    ensures var b := PartsText(p);
            var le := LineEnding(b);
            ParseBlock(b) ==
              if p.indexBreak == le && p.timeBreak == le then SubLine(p.digits, p.times.start, p.times.end, p.text, None)
              else SubLine(p.digits, p.times.start, p.times.end, b, Some(b))
  {
    hide IsDigit, IsBreak, IsSpace, Lines, Body, Strip, ParseTimes, IndexLine, TimeLine, LineEnding, AllDigits, StartsWith, Gap, NoBreak;
    var b := PartsText(p);
    var le := LineEnding(b);
    LinesOfParts(p);
    LinesPlain(p);
    HeaderRead(p);
    PrefixIff(IndexLine(p), p.indexBreak, TimeLine(p), p.timeBreak, p.text, le);
    var prefix := IndexLine(p) + le + TimeLine(p) + le;
    if p.indexBreak == le && p.timeBreak == le {
      assert b == prefix + p.text;
      assert b[|prefix|..] == p.text;
    }
  }
}
