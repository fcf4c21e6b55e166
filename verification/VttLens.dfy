/** Whole VTT files: what is read from a file put together from its blocks, and when replaced texts
    come back. */
module VttLens {
  import opened Options
  import opened Subtitles
  import opened Text
  import opened TextLines
  import opened Blocks
  import opened BlockCuts
  import opened Vtt
  import opened VttLaws
  import opened VttCues

  // ---- a file from its parts -------------------------------------------------------------

  datatype Item = Note(text: string) | Cue(parts: CueText)

  function ItemText(i: Item): string
  {
    match i case Note(text) => text case Cue(parts) => BlockText(parts)
  }

  /** A note starts with a keyword or has no arrow; the parts of a cue fit together. */
  predicate ItemFits(i: Item)
  {
    match i case Note(text) => Keyword(text) || !Contains(text, "-->") case Cue(parts) => Fits(parts)
  }

  /** The cues of the first `n` items, each with the times and the text of its parts. */
  function CuesOf(items: seq<Item>, n: nat): seq<SubLine>
    requires n <= |items|
  {
    if n == 0 then []
    else
      CuesOf(items, n - 1)
      + match items[n - 1]
        case Note(_) => []
        case Cue(c) => [SubLine([], c.start, c.end, c.text, None)]
  }

  function FileBlocks(header: string, items: seq<Item>): (r: seq<string>)
    ensures |r| == |items| + 1 && r[0] == header && forall k :: 0 <= k < |items| ==> r[k + 1] == ItemText(items[k])
  {
    [header] + seq(|items|, k requires 0 <= k < |items| => ItemText(items[k]))
  }

  lemma {:induction false} ItemsRead(c: Cut, items: seq<Item>, n: nat)
    requires |c.blocks| == |c.seps| + 1 == |items| + 1 && n <= |items|
    requires forall k :: 0 <= k < |items| ==> ItemFits(items[k]) && c.blocks[k + 1] == ItemText(items[k])
    ensures ParseAll(c, n + 1).lines == CuesOf(items, n)
  {
    hide Headers, CueOf, Identifier, Timing, BlockText, Keyword, Contains, Fits;
    if n > 0 {
      ItemsRead(c, items, n - 1);
      assert c.blocks[n] == c.blocks[n - 1 + 1] == ItemText(items[n - 1]) && ItemFits(items[n - 1]);
      match items[n - 1]
      case Note(text) => OpaqueReads(text);
      case Cue(parts) => BlockReads(parts);
    } else {
      assert ParseAll(c, 0) == Parsed([], []);
    }
  }

  /** A file put together from a header, items that fit and separators, cut at those separators, reads
      as exactly the cues of its items, in order, with their own times and texts. */
  lemma FileReads(header: string, items: seq<Item>, seps: seq<string>)
    requires |seps| == |items| && forall i :: i in items ==> ItemFits(i)
    requires Tight(Cut(FileBlocks(header, items), seps))
    ensures Read(Weave(FileBlocks(header, items), seps, [])).lines == CuesOf(items, |items|)
  {
    hide Tight, SplitBlocks, Weave, ItemFits, ItemText, FileBlocks, ParseAll, LineEnding;
    var c := Cut(FileBlocks(header, items), seps);
    CutIff(c);
    ItemsRead(c, items, |items|);
  }

  // ---- replaced texts --------------------------------------------------------------------

  function WithTexts(lines: seq<SubLine>, texts: seq<string>): (r: seq<SubLine>)
    requires |texts| == |lines|
    ensures |r| == |lines| && forall i :: 0 <= i < |r| ==> r[i] == lines[i].(text := texts[i])
  {
    seq(|lines|, i requires 0 <= i < |lines| => lines[i].(text := texts[i]))
  }

  /** A cue block with another text. */
  function Retold(block: string, le: string, text: string): string
    requires Headers(block) > 0
  {
    var id := Identifier(block);
    (if id.Some? then id.value + le else []) + (Timing(block) + le) + text
  }

  lemma HeaderLine(block: string, k: nat)
    requires k < |Lines(block)|
    ensures var l := Lines(block)[k]; l == Body(l) + BreakOf(l) && NoBreak(Body(l))
  {
    LinesChain(block);
    assert OneLine(Lines(block)[k]);
    hide Lines, OneLine;
    BodyBreak(Lines(block)[k]);
  }

  lemma HeaderFacts(block: string)
    requires Headers(block) > 0
    ensures var id, t := Identifier(block), Timing(block);
            && |Lines(block)| >= Headers(block)
            && NoBreak(t) && t != [] && HasArrow(t) && SplitTimes(Strip(t)).Some? && !IsNote(if id.Some? then id.value else t)
            && (id.Some? <==> Headers(block) == 2)
            && (id.Some? ==> NoBreak(id.value) && !HasArrow(id.value))
  {
    hide SplitTimes, Strip, IsNote, Lines, Body, BreakOf, NoBreak, HasArrow;
    HeaderLine(block, 0);
    if Headers(block) == 2 {
      HeaderLine(block, 1);
    }
    ArrowNonempty(Timing(block));
  }

  lemma CueTimes(block: string, text: string)
    requires Headers(block) > 0 && SplitTimes(Strip(Timing(block))).Some?
    ensures var times := SplitTimes(Strip(Timing(block))).value;
            CueOf(block).(text := text) == SubLine([], times.start, times.end, text, None)
  {
    hide SplitTimes, Strip, Headers, Timing, Identifier, Payload;
  }

  lemma RetoldIs(block: string, le: string, text: string)
    requires Headers(block) > 0
    ensures var id, t := Identifier(block), Timing(block);
            Retold(block, le, text) == if id.Some? then id.value + le + t + le + text else t + le + text
  {
    hide Headers, Identifier, Timing;
    var id, t := Identifier(block), Timing(block);
    assert id.Some? ==> id.value + le + (t + le) + text == id.value + le + t + le + text;
  }

  lemma LinesOfTwo(id: string, t: string, le: string, text: string)
    requires NoBreak(id) && NoBreak(t) && (le == "\n" || le == "\r\n")
    ensures Lines(id + le + t + le + text) == [id + le, t + le] + Lines(text)
    ensures Body(id + le) == id && Body(t + le) == t
  {
    hide NoBreak, Lines, Body, UsualBreak;
    var tail := t + le + text;
    LineEnds(le, text);
    LineEnds(le, tail);
    FirstOf(t, le, text);
    FirstOf(id, le, tail);
    assert id + le + t + le + text == id + le + tail;
  }

  /** A retold block is the same cue with the other text. */
  lemma RetoldReads(block: string, le: string, text: string)
    requires Headers(block) > 0 && (le == "\n" || le == "\r\n")
    ensures var b := Retold(block, le, text);
            && Headers(b) == Headers(block) && Identifier(b) == Identifier(block) && Timing(b) == Timing(block)
            && CueOf(b) == CueOf(block).(text := text)
  {
    HeaderFacts(block);
    hide *;
    var id, t, b := Identifier(block), Timing(block), Retold(block, le, text);
    var times := SplitTimes(Strip(t)).value;
    CueTimes(block, text);
    RetoldIs(block, le, text);
    LineEnds(le, text);
    if id.Some? {
      LinesOfTwo(id.value, t, le, text);
      TwoHeaders(b, id.value, le, t, le, text, times);
    } else {
      FirstOf(t, le, text);
      OneHeader(b, t, le, text, times);
    }
  }

  lemma LineEnds(le: string, rest: string)
    requires le == "\n" || le == "\r\n"
    ensures UsualBreak(le, rest)
  {
  }

  /** The blocks of the file with the texts replaced: each cue block retold with the text of its own
      place, every other block as it was. */
  function NewBlock(c: Cut, le: string, texts: seq<string>, k: nat): string
    requires k < |c.blocks| && |c.blocks| == |c.seps| + 1
  {
    var i := |ParseAll(c, k).lines|;
    if k > 0 && Headers(c.blocks[k]) > 0 && i < |texts| then Retold(c.blocks[k], le, texts[i]) else c.blocks[k]
  }

  function NewCut(c: Cut, le: string, texts: seq<string>): (r: Cut)
    requires |c.blocks| == |c.seps| + 1
    ensures |r.blocks| == |c.blocks| && r.seps == c.seps
    ensures forall k :: 0 <= k < |r.blocks| ==> r.blocks[k] == NewBlock(c, le, texts, k)
  {
    Cut(seq(|c.blocks|, k requires 0 <= k < |c.blocks| => NewBlock(c, le, texts, k)), c.seps)
  }

  lemma {:induction false} LinesGrow(c: Cut, m: nat, n: nat)
    requires m <= n <= |c.blocks| && |c.blocks| == |c.seps| + 1
    ensures |ParseAll(c, m).lines| <= |ParseAll(c, n).lines|
    ensures ParseAll(c, m).lines == ParseAll(c, n).lines[..|ParseAll(c, m).lines|]
    ensures ParseAll(c, m).blocks == ParseAll(c, n).blocks[..m]
  {
    hide Headers, CueOf, Identifier, Timing;
    if m < n {
      LinesGrow(c, m, n - 1);
    }
  }

  /** One block more, old and new. */
  lemma NewStep(p: Parsed, q: Parsed, block: string, le: string, texts: seq<string>, sep: string)
    requires q.blocks == p.blocks && |p.lines| <= |texts| && q.lines == WithTexts(p.lines, texts[..|p.lines|])
    requires |p.blocks| > 0 && Headers(block) > 0 ==> |p.lines| < |texts|
    requires le == "\n" || le == "\r\n"
    ensures var told := if |p.blocks| > 0 && Headers(block) > 0 then Retold(block, le, texts[|p.lines|]) else block;
            var p', q' := ParseOne(p, block, sep), ParseOne(q, told, sep);
            |p'.lines| <= |texts| && q'.blocks == p'.blocks && q'.lines == WithTexts(p'.lines, texts[..|p'.lines|])
  {
    hide Headers, CueOf, Identifier, Timing, Retold;
    if |p.blocks| > 0 && Headers(block) > 0 {
      var n := |p.lines|;
      RetoldReads(block, le, texts[n]);
      assert texts[..n + 1] == texts[..n] + [texts[n]];
    }
  }

  /** The new blocks parse as the old ones do, with the new texts. */
  lemma {:induction false} NewParses(c: Cut, le: string, texts: seq<string>, n: nat)
    requires n <= |c.blocks| && |c.blocks| == |c.seps| + 1 && (le == "\n" || le == "\r\n")
    requires |ParseAll(c, |c.blocks|).lines| == |texts|
    ensures |ParseAll(c, n).lines| <= |texts|
    ensures var p, q := ParseAll(c, n), ParseAll(NewCut(c, le, texts), n);
            q.blocks == p.blocks && q.lines == WithTexts(p.lines, texts[..|p.lines|])
  {
    hide Headers, ParseOne, Retold, WithTexts;
    LinesGrow(c, n, |c.blocks|);
    if n > 0 {
      NewParses(c, le, texts, n - 1);
      CueCounted(c, n);
      NewStep(ParseAll(c, n - 1), ParseAll(NewCut(c, le, texts), n - 1), c.blocks[n - 1], le, texts, SepAt(c, n - 1));
    } else {
      assert WithTexts([], texts[..0]) == [];
    }
  }

  lemma CueCounted(c: Cut, n: nat)
    requires 0 < n <= |c.blocks| && |c.blocks| == |c.seps| + 1
    ensures n - 1 > 0 && Headers(c.blocks[n - 1]) > 0 ==> |ParseAll(c, n).lines| == |ParseAll(c, n - 1).lines| + 1
  {
    hide Headers, CueOf, Identifier, Timing;
  }

  lemma WrittenNothing(lines: seq<SubLine>, le: string)
    ensures Slotted([], lines) && Written([], lines, le) == []
  {
  }

  /** The block a parse adds, written with the new lines. */
  lemma NewPart(p: Parsed, block: string, sep: string, le: string, texts: seq<string>, lines: seq<SubLine>)
    requires |texts| == |lines| && forall i :: 0 <= i < |lines| ==> lines[i].raw.None? && lines[i].text == texts[i]
    requires |p.blocks| > 0 && Headers(block) > 0 ==> |p.lines| < |texts|
    ensures var q := ParseOne(p, block, sep);
            && |q.blocks| == |p.blocks| + 1 && q.blocks == p.blocks + [q.blocks[|p.blocks|]]
            && (q.blocks[|p.blocks|].VttCue? ==> q.blocks[|p.blocks|].subIndex < |lines|)
            && Part(q.blocks[|p.blocks|], lines, le)
               == (if |p.blocks| > 0 && Headers(block) > 0 then Retold(block, le, texts[|p.lines|]) else block) + sep
  {
    hide Headers, CueOf, Identifier, Timing;
  }

  lemma NewPartWritten(p: Parsed, block: string, sep: string, le: string, texts: seq<string>, lines: seq<SubLine>)
    requires |texts| == |lines| && forall i :: 0 <= i < |lines| ==> lines[i].raw.None? && lines[i].text == texts[i]
    requires |p.blocks| > 0 && Headers(block) > 0 ==> |p.lines| < |texts|
    requires Slotted(p.blocks, lines)
    ensures var q := ParseOne(p, block, sep);
            && Slotted(q.blocks, lines)
            && Written(q.blocks, lines, le) ==
               Written(p.blocks, lines, le)
               + ((if |p.blocks| > 0 && Headers(block) > 0 then Retold(block, le, texts[|p.lines|]) else block) + sep)
  {
    hide *;
    NewPart(p, block, sep, le, texts, lines);
    WrittenSnoc(p.blocks, ParseOne(p, block, sep).blocks[|p.blocks|], lines, le);
  }

  lemma NewWrittenStep(c: Cut, le: string, texts: seq<string>, lines: seq<SubLine>, n: nat)
    requires 0 < n <= |c.blocks| && |c.blocks| == |c.seps| + 1
    requires |ParseAll(c, |c.blocks|).lines| == |texts| == |lines|
    requires forall i :: 0 <= i < |lines| ==> lines[i].raw.None? && lines[i].text == texts[i]
    requires Slotted(ParseAll(c, n - 1).blocks, lines)
    requires Written(ParseAll(c, n - 1).blocks, lines, le) == Original(NewCut(c, le, texts), n - 1)
    ensures Slotted(ParseAll(c, n).blocks, lines)
    ensures Written(ParseAll(c, n).blocks, lines, le)
         == Original(NewCut(c, le, texts), n - 1) + (NewBlock(c, le, texts, n - 1) + SepAt(c, n - 1))
  {
    hide *;
    LinesGrow(c, n, |c.blocks|);
    CueCounted(c, n);
    ParseStep(c, n);
    NewPartWritten(ParseAll(c, n - 1), c.blocks[n - 1], SepAt(c, n - 1), le, texts, lines);
    NewBlockIs(c, le, texts, n - 1);
  }

  lemma OriginalNew(c: Cut, le: string, texts: seq<string>, n: nat)
    requires 0 < n <= |c.blocks| && |c.blocks| == |c.seps| + 1
    ensures Original(NewCut(c, le, texts), n - 1) + (NewBlock(c, le, texts, n - 1) + SepAt(c, n - 1))
         == Original(NewCut(c, le, texts), n)
  {
    hide *;
    OriginalStep(NewCut(c, le, texts), n);
    NewBlockIs(c, le, texts, n - 1);
    var front, block, sep := Original(NewCut(c, le, texts), n - 1), NewBlock(c, le, texts, n - 1), SepAt(c, n - 1);
    assert front + (block + sep) == front + block + sep;
  }

  lemma {:induction false} NewWritten(c: Cut, le: string, texts: seq<string>, lines: seq<SubLine>, n: nat)
    requires n <= |c.blocks| && |c.blocks| == |c.seps| + 1
    requires |ParseAll(c, |c.blocks|).lines| == |texts| == |lines|
    requires forall i :: 0 <= i < |lines| ==> lines[i].raw.None? && lines[i].text == texts[i]
    ensures Slotted(ParseAll(c, n).blocks, lines)
    ensures Written(ParseAll(c, n).blocks, lines, le) == Original(NewCut(c, le, texts), n)
  {
    hide *;
    if n == 0 {
      WrittenNothing(lines, le);
      NothingParsed(c, NewCut(c, le, texts));
    } else {
      NewWritten(c, le, texts, lines, n - 1);
      NewWrittenStep(c, le, texts, lines, n);
      OriginalNew(c, le, texts, n);
    }
  }

  lemma NothingParsed(c: Cut, d: Cut)
    requires |c.blocks| == |c.seps| + 1 && |d.blocks| == |d.seps| + 1
    ensures ParseAll(c, 0).blocks == [] && Original(d, 0) == []
  {
  }

  lemma ParseStep(c: Cut, n: nat)
    requires 0 < n <= |c.blocks| && |c.blocks| == |c.seps| + 1
    ensures ParseAll(c, n) == ParseOne(ParseAll(c, n - 1), c.blocks[n - 1], SepAt(c, n - 1))
  {
    hide ParseOne;
  }

  lemma NewBlockIs(c: Cut, le: string, texts: seq<string>, k: nat)
    requires k < |c.blocks| && |c.blocks| == |c.seps| + 1
    ensures SepAt(NewCut(c, le, texts), k) == SepAt(c, k)
    ensures k > 0 && Headers(c.blocks[k]) > 0 && |ParseAll(c, k).lines| < |texts| ==>
              NewBlock(c, le, texts, k) == Retold(c.blocks[k], le, texts[|ParseAll(c, k).lines|])
    ensures k == 0 || Headers(c.blocks[k]) == 0 ==> NewBlock(c, le, texts, k) == c.blocks[k]
  {
    hide ParseAll, Retold, Headers;
  }

  /** Every cue that is read can be written in place, and none is raw. */
  lemma {:induction false} NothingRaw(c: Cut, n: nat)
    requires n <= |c.blocks| && |c.blocks| == |c.seps| + 1
    ensures forall l :: l in ParseAll(c, n).lines ==> l.raw.None?
  {
    hide Headers, SplitTimes, Payload, Timing, Identifier;
    if n > 0 {
      NothingRaw(c, n - 1);
    }
  }

  /** The document with other texts is written as the new blocks with the old separators. */
  lemma NewText(s: string, texts: seq<string>)
    requires |texts| == |Read(s).lines|
    ensures Writable(Edited(s, texts))
    ensures Write(Edited(s, texts)) == Weave(EditedCut(s, texts).blocks, EditedCut(s, texts).seps, [])
  {
    hide SplitBlocks, ParseAll, Written, Weave, LineEnding, NewCut, Original, After, Slotted;
    var c, le := SplitBlocks(s), LineEnding(s);
    var lines := WithTexts(Read(s).lines, texts);
    NothingRaw(c, |c.blocks|);
    NewWritten(c, le, texts, lines, |c.blocks|);
    OriginalWeaves(NewCut(c, le, texts), |c.blocks|);
    NothingAfter(NewCut(c, le, texts));
  }

  lemma NothingAfter(c: Cut)
    requires |c.blocks| == |c.seps| + 1
    ensures Original(c, |c.blocks|) + After(c, |c.blocks|) == Original(c, |c.blocks|)
  {
  }

  /** The document read from a text, with other texts. */
  ghost function Edited(s: string, texts: seq<string>): SubDoc
    requires |texts| == |Read(s).lines|
  {
    Read(s).(lines := WithTexts(Read(s).lines, texts))
  }

  /** The text cut into blocks, with the cue blocks retold. */
  ghost function EditedCut(s: string, texts: seq<string>): (c: Cut)
    ensures |c.blocks| == |c.seps| + 1
  {
    NewCut(SplitBlocks(s), LineEnding(s), texts)
  }

  ghost predicate RoundTrips(s: string)
  {
    Writable(Read(s)) && Write(Read(s)) == s
  }

  // ---- tightness of the new blocks -------------------------------------------------------

  /** In each retold block no separator begins before the block's own. */
  ghost predicate NoEarlyGap(c: Cut, le: string, texts: seq<string>)
    requires |c.blocks| == |c.seps| + 1
  {
    forall k :: 0 < k < |c.blocks| && Headers(c.blocks[k]) > 0 ==> NoGap(NewBlock(c, le, texts, k), SepAt(c, k))
  }

  /** A closed block and its retold form begin with the same header. */
  lemma SameHeader(block: string, le: string, text: string) returns (head: string)
    requires Headers(block) > 0 && Closed(block, le) && (le == "\n" || le == "\r\n")
    requires Contains(block, "\r\n") ==> le == "\r\n"
    ensures |head| > 0 && head[|head| - 1] == '\n'
    ensures block == head + CueOf(block).text && Retold(block, le, text) == head + text
  {
    hide Headers, SplitTimes, Contains, Closed, Identifier, Timing, Payload;
    BlockRendered(block, le);
    var id := Identifier(block);
    head := (if id.Some? then id.value + le else []) + (Timing(block) + le);
    assert head[|head| - 1] == le[|le| - 1];
  }

  lemma RetoldFresh(block: string, le: string, text: string, e: string)
    requires Headers(block) > 0 && Closed(block, le) && (le == "\n" || le == "\r\n")
    requires Contains(block, "\r\n") ==> le == "\r\n"
    ensures Fresh(Retold(block, le, text), e) <==> Fresh(block, e)
  {
    hide Headers, Closed, Contains, CueOf, Retold, BlankLine;
    var head := SameHeader(block, le, text);
    assert head + text + e == head + (text + e) && block + e == head + (CueOf(block).text + e);
    BlankLineLocal(head, text + e, |head| - 1);
    BlankLineLocal(head, CueOf(block).text + e, |head| - 1);
  }

  lemma NewTight(c: Cut, le: string, texts: seq<string>)
    requires Tight(c) && AllClosed(c, |c.blocks|, le) && (le == "\n" || le == "\r\n")
    requires Contains(Weave(c.blocks, c.seps, []), "\r\n") ==> le == "\r\n"
    ensures Tight(NewCut(c, le, texts)) <==> NoEarlyGap(c, le, texts)
  {
    hide Headers, Closed, Contains, CueOf, Retold, BlankLine, SepLen, NoGap, Fresh, IsSep, Weave, ParseAll;
    var r := NewCut(c, le, texts);
    forall k | 0 <= k < |c.blocks|
      ensures SepAt(r, k) == SepAt(c, k)
      ensures k > 0 ==> (Fresh(r.blocks[k], SepAt(c, k)) <==> Fresh(c.blocks[k], SepAt(c, k)))
    {
      if k > 0 && Headers(c.blocks[k]) > 0 && |ParseAll(c, k).lines| < |texts| {
        BlockInside(c, k);
        RetoldFresh(c.blocks[k], le, texts[|ParseAll(c, k).lines|], SepAt(c, k));
      }
    }
  }

  // ---- the law ---------------------------------------------------------------------------

  lemma ReadOf(s: string, c: Cut)
    requires SplitBlocks(s) == c
    ensures |c.blocks| == |c.seps| + 1
    ensures Read(s) == SubDoc(ParseAll(c, |c.blocks|).lines, LineEnding(s), [], [], [], VttDoc(ParseAll(c, |c.blocks|).blocks))
  {
    hide SplitBlocks, ParseAll, LineEnding;
  }

  /** In each retold block no separator begins before the block's own. */
  ghost predicate NoneEarly(s: string, texts: seq<string>)
  {
    NoEarlyGap(SplitBlocks(s), LineEnding(s), texts)
  }

  lemma LineEndingIs(s: string)
    ensures Contains(s, "\r\n") ==> LineEnding(s) == "\r\n"
  {
    hide Contains;
  }

  lemma ClosedMeans(s: string)
    ensures RoundTrips(s) <==> AllClosed(SplitBlocks(s), |SplitBlocks(s).blocks|, LineEnding(s))
  {
    WriteReadIff(s);
    hide Headers, Closed, SplitBlocks, Read, Write, LineEnding;
  }

  /** For a file that is written back as it was read: the blocks cut from the text written with other
      texts are the retold ones if and only if no separator begins early. */
  lemma NewCutIff(s: string, texts: seq<string>)
    requires RoundTrips(s)
    ensures SplitBlocks(Weave(EditedCut(s, texts).blocks, EditedCut(s, texts).seps, [])) == EditedCut(s, texts)
            <==> NoneEarly(s, texts)
  {
    hide SplitBlocks, LineEnding, RoundTrips, NewCut, Weave, Tight, NoEarlyGap, AllClosed, Contains;
    var c := SplitBlocks(s);
    ClosedMeans(s);
    SplitWeaves(s, []);
    CutTight(s);
    LineEndingIs(s);
    NewTight(c, LineEnding(s), texts);
    CutIff(NewCut(c, LineEnding(s), texts));
  }

  lemma ParsedLines(s: string)
    ensures |Read(s).lines| == |ParseAll(SplitBlocks(s), |SplitBlocks(s).blocks|).lines|
  {
    hide SplitBlocks, ParseAll, LineEnding;
  }

  /** Texts that open no separator early come back: reading what was written gives the very cues, times
      and envelope, with the new texts. */
  lemma TextsComeBack(s: string, texts: seq<string>)
    requires RoundTrips(s) && |texts| == |Read(s).lines| && NoneEarly(s, texts)
    ensures Writable(Edited(s, texts))
    ensures var x := Write(Edited(s, texts)); Read(x) == Edited(s, texts).(lineEnding := LineEnding(x))
  {
    hide SplitBlocks, LineEnding, RoundTrips, NoneEarly, NewCut, Weave, ParseAll, Write, Writable, WithTexts;
    NewText(s, texts);
    NewCutIff(s, texts);
    hide EditedCut;
    ReadOf(s, SplitBlocks(s));
    EditedParses(s, texts);
    ReadOf(Write(Edited(s, texts)), EditedCut(s, texts));
  }

  lemma EditedParses(s: string, texts: seq<string>)
    requires |texts| == |Read(s).lines|
    ensures var c, n := SplitBlocks(s), EditedCut(s, texts);
            && |n.blocks| == |c.blocks| && |ParseAll(c, |c.blocks|).lines| == |texts|
            && ParseAll(n, |n.blocks|).blocks == ParseAll(c, |c.blocks|).blocks
            && ParseAll(n, |n.blocks|).lines == WithTexts(ParseAll(c, |c.blocks|).lines, texts)
  {
    ParsedLines(s);
    hide SplitBlocks, LineEnding, ParseAll, NewBlock, Read, WithTexts;
    var c := SplitBlocks(s);
    NewParses(c, LineEnding(s), texts, |c.blocks|);
    assert texts[..|texts|] == texts;
  }

  /** What a cut holds at one place, from what its parse left there. */
  lemma OpaqueFromParse(c: Cut, b: Cut, k: nat)
    requires k < |c.blocks| == |b.blocks| && |c.blocks| == |c.seps| + 1 && |b.blocks| == |b.seps| + 1
    requires ParseAll(b, k + 1).blocks == ParseAll(c, k + 1).blocks
    ensures SepAt(b, k) == SepAt(c, k)
    ensures k > 0 ==> (Headers(b.blocks[k]) > 0 <==> Headers(c.blocks[k]) > 0)
    ensures k == 0 || Headers(c.blocks[k]) == 0 ==> b.blocks[k] == c.blocks[k]
    ensures k > 0 && Headers(c.blocks[k]) > 0 ==>
              && Identifier(b.blocks[k]) == Identifier(c.blocks[k]) && Timing(b.blocks[k]) == Timing(c.blocks[k])
              && |ParseAll(b, k).lines| == |ParseAll(c, k).lines| < |ParseAll(b, k + 1).lines|
              && ParseAll(b, k + 1).lines[|ParseAll(c, k).lines|] == CueOf(b.blocks[k])
  {
    hide Headers, CueOf, Identifier, Timing;
    assert ParseAll(b, k + 1).blocks[k] == ParseAll(c, k + 1).blocks[k];
  }

  lemma BlockFromParse(c: Cut, b: Cut, le: string, texts: seq<string>, k: nat)
    requires k < |c.blocks| == |b.blocks| && |c.blocks| == |c.seps| + 1 && |b.blocks| == |b.seps| + 1
    requires le == "\n" || le == "\r\n"
    requires ParseAll(b, |b.blocks|).blocks == ParseAll(c, |c.blocks|).blocks
    requires |ParseAll(b, |b.blocks|).lines| == |texts|
    requires forall i :: 0 <= i < |texts| ==> ParseAll(b, |b.blocks|).lines[i].text == texts[i]
    requires AllClosed(b, |b.blocks|, le) && (Contains(b.blocks[k], "\r\n") ==> le == "\r\n")
    ensures b.blocks[k] == NewBlock(c, le, texts, k) && SepAt(b, k) == SepAt(c, k)
  {
    hide Headers, CueOf, ParseAll, Closed, Identifier, Timing, Contains, Retold, ParseOne;
    LinesGrow(c, k + 1, |c.blocks|);
    LinesGrow(b, k + 1, |b.blocks|);
    OpaqueFromParse(c, b, k);
    var i := |ParseAll(c, k).lines|;
    if k > 0 && Headers(c.blocks[k]) > 0 {
      assert ParseAll(b, |b.blocks|).lines[i] == ParseAll(b, k + 1).lines[i];
      var head := SameHeader(b.blocks[k], le, texts[i]);
      SameRetold(b.blocks[k], c.blocks[k], le, texts[i]);
    }
  }

  lemma SameRetold(b: string, c: string, le: string, text: string)
    requires Headers(b) > 0 && Headers(c) > 0 && Identifier(b) == Identifier(c) && Timing(b) == Timing(c)
    ensures Retold(b, le, text) == Retold(c, le, text)
  {
    hide Headers, Identifier, Timing;
  }

  /** The document comes back only if the text was cut at the old separators. */
  lemma SameMeansCut(s: string, texts: seq<string>, x: string)
    requires |texts| == |Read(s).lines| && Read(x) == Edited(s, texts) && RoundTrips(x)
    ensures SplitBlocks(x) == EditedCut(s, texts) && LineEnding(x) == LineEnding(s)
  {
    hide SplitBlocks, LineEnding, RoundTrips, NewCut, Weave, ParseAll, AllClosed, Contains;
    var c, b, le := SplitBlocks(s), SplitBlocks(x), LineEnding(s);
    ReadOf(s, c);
    ReadOf(x, b);
    ClosedMeans(x);
    SplitWeaves(x, []);
    LineEndingIs(x);
    hide Read, Edited, WithTexts;
    var n := EditedCut(s, texts);
    forall k | 0 <= k < |c.blocks|
      ensures k < |b.blocks| && b.blocks[k] == n.blocks[k] && SepAt(b, k) == SepAt(n, k)
    {
      BlockInside(b, k);
      BlockFromParse(c, b, le, texts, k);
    }
    SameCut(b, n);
  }

  lemma SameCut(b: Cut, n: Cut)
    requires |b.blocks| == |n.blocks| == |b.seps| + 1 == |n.seps| + 1
    requires forall k :: 0 <= k < |b.blocks| ==> b.blocks[k] == n.blocks[k] && SepAt(b, k) == SepAt(n, k)
    ensures b == n
  {
    assert b.blocks == n.blocks;
    forall k | 0 <= k < |b.seps|
      ensures b.seps[k] == n.seps[k]
    {
      assert SepAt(b, k) == SepAt(n, k) && b.blocks[k] == n.blocks[k];
    }
    assert b.seps == n.seps;
  }

  /** A document with replaced texts is written and read back as the very same document if and only if
      no separator begins early in a retold block and the text written has the line ending of the file. */
  lemma ReplaceIff(s: string, texts: seq<string>)
    requires RoundTrips(s) && |texts| == |Read(s).lines|
    ensures Writable(Edited(s, texts))
    ensures var x := Write(Edited(s, texts));
            Read(x) == Edited(s, texts) <==> NoneEarly(s, texts) && LineEnding(x) == LineEnding(s)
  {
    hide SplitBlocks, LineEnding, RoundTrips, NoneEarly, NewCut, Weave, ParseAll, Write, Writable, WithTexts, Edited, EditedCut;
    NewText(s, texts);
    NewCutIff(s, texts);
    var x := Write(Edited(s, texts));
    EndingKept(s, texts);
    if NoneEarly(s, texts) {
      TextsComeBack(s, texts);
    }
    if Read(x) == Edited(s, texts) {
      WrittenBack(s, texts);
      SameMeansCut(s, texts, x);
    }
  }

  lemma EndingKept(s: string, texts: seq<string>)
    requires |texts| == |Read(s).lines|
    ensures Edited(s, texts).lineEnding == LineEnding(s)
  {
    hide SplitBlocks, ParseAll, LineEnding;
  }

  lemma WrittenBack(s: string, texts: seq<string>)
    requires |texts| == |Read(s).lines| && Writable(Edited(s, texts)) && Read(Write(Edited(s, texts))) == Edited(s, texts)
    ensures RoundTrips(Write(Edited(s, texts)))
  {
    hide Write, Writable, Read, Edited;
  }
}
