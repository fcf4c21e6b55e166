/** The SRT reader and writer on decoded text. */
module Srt {
  import opened Options
  import opened Subtitles
  import opened Text
  import opened Blocks

  // ---- headers ---------------------------------------------------------------------------

  predicate AllDigits(s: string) { |s| > 0 && DigitRun(s) == |s| }

  /** Length of the timecode at the start (0: none): `hh:mm:ss`, comma or period, digits. */
  function TimecodeLen(s: string): (n: nat)
    ensures n <= |s| && (n > 0 ==> IsDigit(s[0]))
  {
    if |s| >= 10 && IsDigit(s[0]) && IsDigit(s[1]) && s[2] == ':' && IsDigit(s[3]) && IsDigit(s[4]) && s[5] == ':'
       && IsDigit(s[6]) && IsDigit(s[7]) && (s[8] == ',' || s[8] == '.') && DigitRun(s[9..]) > 0
    then 9 + DigitRun(s[9..]) else 0
  }

  /** What follows the first timecode: an arrow, white space around it, and a timecode that ends the line. */
  function EndTime(x: string): Option<string>
  {
    var w := SpaceRun(x);
    if !At(x, w, "-->") then None
    else
      var y := x[w + 3..];
      var end := y[SpaceRun(y)..];
      if TimecodeLen(end) == 0 || TimecodeLen(end) != |end| then None else Some(end)
  }

  /** The whole of a stripped timing line. */
  function ParseTimes(s: string): Option<Times>
  {
    var n := TimecodeLen(s);
    if n == 0 || EndTime(s[n..]).None? then None else Some(Times(s[..n], EndTime(s[n..]).value))
  }

  function Raw(index: string, start: string, end: string, block: string): SubLine
  {
    SubLine(index, start, end, block, Some(block))
  }

  function ParseBlock(block: string): SubLine
  {
    var ls := Lines(block);
    if |ls| < 2 then Raw([], [], [], block)
    else
      var index, tc := Body(ls[0]), Body(ls[1]);
      var times := ParseTimes(Strip(tc));
      if times.None? || !AllDigits(Strip(index)) then Raw([], [], [], block)
      else
        var le := LineEnding(block);
        var prefix := index + le + tc + le;
        if StartsWith(block, prefix)
        then SubLine(Strip(index), times.value.start, times.value.end, block[|prefix|..], None)
        else Raw(Strip(index), times.value.start, times.value.end, block)
  }

  function RenderBlock(l: SubLine, le: string): string
  {
    if l.raw.Some? then l.raw.value else l.index + le + l.startTc + " --> " + l.endTc + le + l.text
  }

  // ---- reading ---------------------------------------------------------------------------

  predicate Blank(s: string) { forall k :: 0 <= k < |s| ==> IsSpace(s[k]) }

  /** The blank lines before the first content; none if nothing but white space follows them. */
  function Leading(s: string): (r: string)
    ensures r <= s
  {
    if Blank(s[BlankLines(s)..]) then [] else s[..BlankLines(s)]
  }

  /** Where the final run of blank lines begins. */
  function TrailAt(s: string): (p: nat)
    ensures p <= |s|
  {
    if |s| == 0 || BlankLines(s) == |s| then 0 else 1 + TrailAt(s[1..])
  }

  datatype Parts = Parts(blocks: seq<string>, seps: seq<string>, trailer: string)

  /** Empty blocks at the end are dropped, their separators become part of the trailer. */
  function Pop(p: Parts): (r: Parts)
    decreases |p.blocks|
  {
    var n := |p.blocks|;
    if n > 0 && p.blocks[n - 1] == [] then
      var m := |p.seps|;
      Pop(if m > 0 then Parts(p.blocks[..n - 1], p.seps[..m - 1], p.seps[m - 1] + p.trailer)
          else Parts(p.blocks[..n - 1], [], p.trailer))
    else p
  }

  /** The last block gives its final blank lines to the trailer. */
  function TrailCut(c: Cut): Parts
    requires |c.blocks| > 0
  {
    var n := |c.blocks| - 1;
    var last := c.blocks[n];
    Parts(c.blocks[..n] + [last[..TrailAt(last)]], c.seps, last[TrailAt(last)..])
  }

  function Structure(s: string): Parts
  {
    Pop(TrailCut(SplitBlocks(s[|Leading(s)|..])))
  }

  function ParseAll(blocks: seq<string>): (r: seq<SubLine>)
  {
    if |blocks| == 0 then []
    else
      var front := ParseAll(blocks[..|blocks| - 1]);
      if blocks[|blocks| - 1] == [] then front else front + [ParseBlock(blocks[|blocks| - 1])]
  }

  function Read(s: string): SubDoc
  {
    var p := Structure(s);
    SubDoc(ParseAll(p.blocks), LineEnding(s), p.seps, Leading(s), p.trailer, NoEnvelope)
  }

  // ---- writing ---------------------------------------------------------------------------

  function RenderAll(lines: seq<SubLine>, le: string): (r: seq<string>)
    ensures |r| == |lines| && forall k :: 0 <= k < |r| ==> r[k] == RenderBlock(lines[k], le)
  {
    seq(|lines|, k requires 0 <= k < |lines| => RenderBlock(lines[k], le))
  }

  function Write(doc: SubDoc): string
  {
    doc.leading + Weave(RenderAll(doc.lines, doc.lineEnding), doc.separators, doc.lineEnding + doc.lineEnding) + doc.trailer
  }

  // ---- as loops --------------------------------------------------------------------------

  lemma PopStep(p: Parts)
    requires |p.blocks| > 0 && p.blocks[|p.blocks| - 1] == []
    ensures var front, m := p.blocks[..|p.blocks| - 1], |p.seps|;
            Pop(p) == if m > 0 then Pop(Parts(front, p.seps[..m - 1], p.seps[m - 1] + p.trailer))
                      else Pop(Parts(front, p.seps, p.trailer))
  {
    assert |p.seps| == 0 ==> p.seps == [];
  }

  lemma PopDone(p: Parts)
    requires |p.blocks| > 0 ==> p.blocks[|p.blocks| - 1] != []
    ensures Pop(p) == p
  {
  }

  method ReadSrt(s: string) returns (doc: SubDoc)
    ensures doc == Read(s)
  {
    hide BlankLines, Blank, SplitBlocks, ParseBlock, TrailAt, LineEnding, Pop;
    var le := if Contains(s, "\r\n") then "\r\n" else "\n";
    assert le == LineEnding(s) by { EndingDefinition(s); }
    var leading, text := [], s;
    var n := BlankLines(s);
    if n > 0 && !Blank(s[n..]) {
      leading, text := s[..n], s[n..];
    }
    assert leading == Leading(s) && text == s[|Leading(s)|..];
    var cut := SplitBlocks(text);
    var blocks, seps := cut.blocks, cut.seps;
    var last := blocks[|blocks| - 1];
    var at := TrailAt(last);
    var trailer := last[at..];
    blocks := blocks[..|blocks| - 1] + [last[..at]];
    assert Structure(s) == Pop(Parts(blocks, seps, trailer));
    while |blocks| > 0 && blocks[|blocks| - 1] == []
      invariant Structure(s) == Pop(Parts(blocks, seps, trailer))
      decreases |blocks|
    {
      PopStep(Parts(blocks, seps, trailer));
      blocks := blocks[..|blocks| - 1];
      if |seps| > 0 {
        seps, trailer := seps[..|seps| - 1], seps[|seps| - 1] + trailer;
      }
    }
    PopDone(Parts(blocks, seps, trailer));
    assert Structure(s) == Parts(blocks, seps, trailer);
    hide Structure, Pop, Leading;
    var lines := [];
    for i := 0 to |blocks|
      invariant lines == ParseAll(blocks[..i])
    {
      assert blocks[..i + 1][..i] == blocks[..i];
      if blocks[i] != [] {
        lines := lines + [ParseBlock(blocks[i])];
      }
    }
    assert blocks[..|blocks|] == blocks;
    doc := SubDoc(lines, le, seps, leading, trailer, NoEnvelope);
  }

  lemma EndingDefinition(s: string)
    ensures LineEnding(s) == if Contains(s, "\r\n") then "\r\n" else "\n"
  {
  }

  function From(seps: seq<string>, i: nat): seq<string>
  {
    if i <= |seps| then seps[i..] else []
  }

  lemma WeaveStep(blocks: seq<string>, seps: seq<string>, fallback: string, i: nat)
    requires i < |blocks|
    ensures Weave(blocks[i..], From(seps, i), fallback) ==
      blocks[i] + (if i == |blocks| - 1 then [] else if i < |seps| then seps[i] else fallback)
      + Weave(blocks[i + 1..], From(seps, i + 1), fallback)
  {
    var rest := blocks[i..];
    assert rest[1..] == blocks[i + 1..] && rest[0] == blocks[i];
    if i < |seps| {
      assert seps[i..][1..] == seps[i + 1..] && seps[i..][0] == seps[i];
    }
  }

  method WriteSrt(doc: SubDoc) returns (s: string)
    ensures s == Write(doc)
  {
    hide RenderAll, Weave, From;
    var blocks := RenderAll(doc.lines, doc.lineEnding);
    var fallback := doc.lineEnding + doc.lineEnding;
    WeaveEnds(blocks, doc.separators, fallback);
    s := doc.leading;
    var i := 0;
    while i < |blocks|
      invariant 0 <= i <= |blocks|
      invariant doc.leading + Weave(blocks, doc.separators, fallback) ==
        s + Weave(blocks[i..], From(doc.separators, i), fallback)
    {
      WeaveStep(blocks, doc.separators, fallback, i);
      s := s + blocks[i];
      if i < |blocks| - 1 {
        s := s + if i < |doc.separators| then doc.separators[i] else fallback;
      }
      i := i + 1;
    }
    s := s + doc.trailer;
  }

  lemma WeaveEnds(blocks: seq<string>, seps: seq<string>, fallback: string)
    ensures blocks[0..] == blocks && From(seps, 0) == seps
    ensures Weave(blocks[|blocks|..], From(seps, |blocks|), fallback) == []
  {
  }
}
