/** When writing a VTT file gives back what was read. */
module VttLaws {
  import opened Options
  import opened Subtitles
  import opened Text
  import opened TextLines
  import opened Blocks
  import opened Vtt

  // ---- a header line and its break -------------------------------------------------------

  function BreakOf(line: string): string { line[|Body(line)|..] }

  predicate Usual(e: string) { e == "\r\n" || e == "\n" || e == "\r" }

  lemma BodyBreak(line: string)
    requires OneLine(line)
    ensures line == Body(line) + BreakOf(line) && NoBreak(Body(line))
    ensures BreakOf(line) == [] || Usual(BreakOf(line)) || (|BreakOf(line)| == 1 && !Usual(BreakOf(line)) && IsBreak(BreakOf(line)[0]))
  {
    BreakAtEnd(line);
    hide OneLine;
    var b := BreakOf(line);
    assert line[|line| - 1..] == [line[|line| - 1]];
    if |line| >= 2 {
      assert line[|line| - 2..] == [line[|line| - 2], line[|line| - 1]];
    }
    forall k | 0 <= k < |Body(line)|
      ensures !IsBreak(Body(line)[k])
    {
      assert Body(line)[k] == line[k];
    }
  }

  /** Searching for a line from at most its place, with no earlier occurrence. */
  lemma SkipFrom(s: string, from: nat, before: string, line: string, e: string, after: string)
    requires s == before + line + e + after && from <= |before|
    requires forall k: nat :: from <= k < |before| ==> !At(s, k, line)
    requires Usual(e) || (e == [] && (|after| == 0 || (after[0] != '\r' && after[0] != '\n')))
    requires e == "\r" ==> |after| == 0 || after[0] != '\n'
    ensures SkipLine(s, line, from) == |before + line + e|
  {
    var pos := |before|;
    assert s[pos..pos + |line|] == line;
    assert At(s, pos, line);
    FindsPlace(s, line, from, pos);
    SkipsEnding(s, before + line, e, after);
  }

  lemma FindsPlace(s: string, line: string, from: nat, pos: nat)
    requires from <= pos <= |s| && At(s, pos, line) && forall k: nat :: from <= k < pos ==> !At(s, k, line)
    ensures FindFrom(s, line, from) == pos
  {
    hide At;
  }

  lemma SkipsEnding(s: string, before: string, e: string, after: string)
    requires s == before + e + after
    requires Usual(e) || (e == [] && (|after| == 0 || (after[0] != '\r' && after[0] != '\n')))
    requires e == "\r" ==> |after| == 0 || after[0] != '\n'
    ensures SkipEnding(s, |before|) == |before + e|
  {
    var p := |before|;
    assert p + 2 <= |s| ==> s[p..p + 2] == [s[p], s[p + 1]];
    assert |e| > 0 ==> s[p] == e[0];
    assert |e| > 1 ==> s[p + 1] == e[1];
    assert |e| == 1 && |after| > 0 ==> s[p + 1] == after[0];
    assert |e| == 0 && |after| > 0 ==> s[p] == after[0];
  }

  // ---- one block -------------------------------------------------------------------------

  /** Every header line of the block is followed, inside the block, by the file's line ending. */
  predicate Closed(block: string, le: string)
  {
    forall k :: 0 <= k < Headers(block) ==> BreakOf(Lines(block)[k]) == le
  }

  function Rendered(block: string, le: string): string
    requires Headers(block) > 0
  {
    var id := Identifier(block);
    (if id.Some? then id.value + le else []) + (Timing(block) + le) + Payload(block, id, Timing(block))
  }

  /** The part of a block after `k` lines. */
  function Tail(block: string, k: nat): string
    requires k <= |Lines(block)|
  {
    Concat(Lines(block)[k..])
  }

  predicate Break(e: string)
  {
    e == [] || Usual(e) || (|e| == 1 && !Usual(e) && IsBreak(e[0]))
  }

  lemma TailStep(ls: seq<string>, k: nat)
    requires k < |ls|
    ensures Concat(ls[k..]) == ls[k] + Concat(ls[k + 1..])
  {
    assert ls[k..][1..] == ls[k + 1..];
  }

  lemma NextLine(ls: seq<string>, k: nat)
    requires LineChain(ls) && k + 1 < |ls|
    ensures var tail := Concat(ls[k + 1..]);
            |BreakOf(ls[k])| > 0 && |tail| > 0 && (BreakOf(ls[k]) == "\r" ==> tail[0] != '\n')
  {
    hide LineLen, BreakOf, Body;
    assert MayFollow(ls[k], ls[k + 1]);
    assert OneLine(ls[k + 1]);
    TailStep(ls, k + 1);
    LastOfBody(ls[k]);
  }

  lemma BlockLine(block: string, k: nat)
    requires k < |Lines(block)|
    ensures var l := Lines(block)[k];
            && Tail(block, k) == Body(l) + BreakOf(l) + Tail(block, k + 1) && NoBreak(Body(l))
            && (BreakOf(l) == [] ==> Tail(block, k + 1) == []) && Break(BreakOf(l))
            && (BreakOf(l) == "\r" && |Tail(block, k + 1)| > 0 ==> Tail(block, k + 1)[0] != '\n')
            && (k + 1 < |Lines(block)| ==> |BreakOf(l)| > 0 && |Tail(block, k + 1)| > 0)
  {
    var ls := Lines(block);
    LinesChain(block);
    assert OneLine(ls[k]);
    BodyBreak(ls[k]);
    TailStep(ls, k);
    hide Lines, LineLen, BreakOf, Body, NoBreak, OneLine;
    if k + 1 < |ls| {
      NextLine(ls, k);
    } else {
      assert ls[k + 1..] == [];
    }
  }

  lemma LastOfBody(l: string)
    requires |l| > 0 && IsBreak(l[|l| - 1])
    ensures |BreakOf(l)| > 0 && BreakOf(l)[|BreakOf(l)| - 1] == l[|l| - 1]
  {
  }

  /** What is left of a header line's break for the payload. */
  function Rest(e: string, tail: string): string
  {
    if Usual(e) then tail else e + tail
  }

  lemma ArrowNonempty(line: string)
    requires HasArrow(line)
    ensures |line| > 0
  {
  }

  lemma PayloadOne(block: string)
    requires Headers(block) == 1
    ensures var l := Lines(block)[0];
            Timing(block) == Body(l) && Payload(block, Identifier(block), Timing(block)) == Rest(BreakOf(l), Tail(block, 1))
  {
    hide SplitTimes, HasArrow, IsNote, Body, BreakOf, Usual, Concat;
    BlockLine(block, 0);
    WholeTail(block);
    var l := Lines(block)[0];
    var e, tail := BreakOf(l), Tail(block, 1);
    PayloadAt(block, Body(l), e, tail);
  }

  lemma WholeTail(block: string)
    ensures Tail(block, 0) == block
  {
    LinesConcat(block);
    assert Lines(block)[0..] == Lines(block);
  }

  lemma PayloadAt(block: string, timing: string, e: string, tail: string)
    requires block == timing + e + tail && (e == [] ==> tail == [])
    requires Break(e)
    requires e == "\r" && |tail| > 0 ==> tail[0] != '\n'
    ensures Payload(block, None, timing) == Rest(e, tail)
  {
    if Usual(e) {
      SkipFrom(block, 0, [], timing, e, tail);
      assert block[|[] + timing + e|..] == tail;
    } else {
      assert e != "\r" && e != "\n";
      SkipFrom(block, 0, [], timing, [], e + tail);
      assert block[|[] + timing + []|..] == e + tail;
    }
  }

  lemma PayloadAfterId(block: string, id: string, d: string, timing: string, e: string, tail: string)
    requires block == id + d + timing + e + tail && (e == [] ==> tail == [])
    requires Break(d) && |d| > 0
    requires Break(e)
    requires e == "\r" && |tail| > 0 ==> tail[0] != '\n'
    requires |timing| > 0 && NoBreak(timing)
    ensures Payload(block, Some(id), timing) == Rest(e, tail)
  {
    hide SkipLine, At, IsBreak, FindFrom;
    PlainStart(timing);
    var x := timing + e + tail;
    var pos := SkipLine(block, id, 0);
    assert block == id + d + x;
    assert x[0] == timing[0];
    IdSkipped(block, id, d, x);
    if pos == |id| {
      NotAtBreak(block, id, d, x, timing);
    }
    assert block == (id + d) + timing + e + tail;
    TimingSkipped(block, pos, id + d, timing, e, tail);
  }

  lemma PlainStart(timing: string)
    requires |timing| > 0 && NoBreak(timing)
    ensures !IsBreak(timing[0]) && timing[0] != '\n'
  {
  }

  lemma IdSkipped(block: string, id: string, d: string, x: string)
    requires block == id + d + x && (Usual(d) || (|d| == 1 && !Usual(d) && IsBreak(d[0]))) && |x| > 0 && x[0] != '\n'
    ensures SkipLine(block, id, 0) == |id + d| || (SkipLine(block, id, 0) == |id| && |d| == 1 && IsBreak(d[0]))
  {
    if Usual(d) {
      assert block == [] + id + d + x;
      SkipFrom(block, 0, [], id, d, x);
    } else {
      assert d != "\r" && d != "\n";
      assert block == [] + id + [] + (d + x);
      SkipFrom(block, 0, [], id, [], d + x);
    }
  }

  lemma NotAtBreak(block: string, id: string, d: string, x: string, timing: string)
    requires block == id + d + x && |d| > 0 && IsBreak(d[0]) && |timing| > 0 && !IsBreak(timing[0])
    ensures !At(block, |id|, timing)
  {
    var here, first := block[|id| + 0], timing[0];
    assert here == d[0];
    AtIndex(block, |id|, timing);
  }

  lemma TimingSkipped(block: string, pos: nat, before: string, timing: string, e: string, tail: string)
    requires block == before + timing + e + tail && (e == [] ==> tail == [])
    requires pos <= |before| && forall k: nat :: pos <= k < |before| ==> !At(block, k, timing)
    requires Break(e)
    requires e == "\r" && |tail| > 0 ==> tail[0] != '\n'
    ensures block[SkipLine(block, timing, pos)..] == Rest(e, tail)
  {
    if Usual(e) {
      SkipFrom(block, pos, before, timing, e, tail);
      assert block[|before + timing + e|..] == tail;
    } else {
      assert block == before + timing + [] + (e + tail);
      SkipFrom(block, pos, before, timing, [], e + tail);
      assert block[|before + timing + []|..] == e + tail;
    }
  }

  lemma PayloadTwo(block: string)
    requires Headers(block) == 2
    ensures var l := Lines(block)[1];
            && Identifier(block) == Some(Body(Lines(block)[0])) && Timing(block) == Body(l)
            && Payload(block, Identifier(block), Timing(block)) == Rest(BreakOf(l), Tail(block, 2))
  {
    hide *;
    TimingHasArrow(block);
    BlockLine(block, 0);
    BlockLine(block, 1);
    WholeTail(block);
    var id, d := Body(Lines(block)[0]), BreakOf(Lines(block)[0]);
    var timing, e := Body(Lines(block)[1]), BreakOf(Lines(block)[1]);
    var tail := Tail(block, 2);
    ArrowNonempty(timing);
    assert block == id + d + timing + e + tail;
    PayloadAfterId(block, id, d, timing, e, tail);
  }

  lemma TimingHasArrow(block: string)
    requires Headers(block) == 2
    ensures |Lines(block)| >= 2 && HasArrow(Body(Lines(block)[1]))
    ensures Identifier(block) == Some(Body(Lines(block)[0])) && Timing(block) == Body(Lines(block)[1])
  {
    hide HasArrow, Body, IsNote, SplitTimes, Lines;
  }

  /** Writing a cue block back never shortens it, and reproduces it exactly if it is closed. */
  lemma BlockRendered(block: string, le: string)
    requires Headers(block) > 0 && (le == "\n" || le == "\r\n") && (Contains(block, "\r\n") ==> le == "\r\n")
    ensures |Rendered(block, le)| >= |block|
    ensures Rendered(block, le) == block <==> Closed(block, le)
  {
    hide Headers, Body, BreakOf, Usual, Lines, Contains, Tail, Payload, Rest;
    WholeTail(block);
    if Headers(block) == 1 {
      PayloadOne(block);
      BlockLine(block, 0);
      var l := Lines(block)[0];
      LineRendered([], Body(l), BreakOf(l), Tail(block, 1), le, block);
      assert Rendered(block, le) == [] + Body(l) + le + Rest(BreakOf(l), Tail(block, 1));
    } else {
      PayloadTwo(block);
      BlockLine(block, 0);
      BlockLine(block, 1);
      var k, l := Lines(block)[0], Lines(block)[1];
      var start := Body(k) + BreakOf(k);
      assert block == start + Body(l) + BreakOf(l) + Tail(block, 2);
      LineRendered(start, Body(l), BreakOf(l), Tail(block, 2), le, block);
      BreakLength(block, Body(k), BreakOf(k), Tail(block, 1), le);
      IdRendered(Body(k), BreakOf(k), le, Body(l) + BreakOf(l) + Tail(block, 2), Body(l) + le + Rest(BreakOf(l), Tail(block, 2)));
      assert Rendered(block, le) == Body(k) + le + (Body(l) + le + Rest(BreakOf(l), Tail(block, 2)));
      assert block == Body(k) + BreakOf(k) + (Body(l) + BreakOf(l) + Tail(block, 2));
    }
  }

  /** A break inside the block is no longer than the file's line ending. */
  lemma BreakLength(block: string, before: string, e: string, after: string, le: string)
    requires block == before + e + after && Break(e) && (le == "\n" || le == "\r\n")
    requires Contains(block, "\r\n") ==> le == "\r\n"
    ensures |e| <= |le|
  {
    if e == "\r\n" {
      assert block[|before|..|before| + 2] == e;
      assert At(block, |before|, e);
      ContainsIff(block, "\r\n");
    }
  }

  lemma LineRendered(before: string, body: string, e: string, tail: string, le: string, block: string)
    requires block == before + body + e + tail && Break(e) && (e == [] ==> tail == []) && (le == "\n" || le == "\r\n")
    requires Contains(block, "\r\n") ==> le == "\r\n"
    ensures |body + le + Rest(e, tail)| >= |body + e + tail|
    ensures body + le + Rest(e, tail) == body + e + tail <==> e == le
    ensures before + body + le + Rest(e, tail) == block <==> e == le
  {
    BreakLength(block, before + body, e, tail, le);
    hide Contains;
    var now, was := body + le + Rest(e, tail), body + e + tail;
    assert before + now == before + body + le + Rest(e, tail) && before + was == block;
    if Usual(e) {
      if e != le && |e| == |le| {
        assert was[|body|] == e[0] && now[|body|] == le[0];
      }
    }
    assert now != was ==> before + now != before + was by {
      if before + now == before + was {
        assert (before + now)[|before|..] == now && (before + was)[|before|..] == was;
      }
    }
  }

  lemma IdRendered(id: string, d: string, le: string, was: string, now: string)
    requires |d| <= |le| && |was| <= |now| && |d| > 0
    ensures |id + le + now| >= |id + d + was|
    ensures id + le + now == id + d + was <==> le == d && now == was
  {
    if id + le + now == id + d + was {
      assert |le| == |d| && |now| == |was|;
      assert (id + le + now)[|id|..|id| + |le|] == le && (id + d + was)[|id|..|id| + |d|] == d;
      assert (id + le + now)[|id| + |le|..] == now && (id + d + was)[|id| + |d|..] == was;
    }
  }

  // ---- the whole file --------------------------------------------------------------------

  /** The text of the first `n` blocks with their separators. */
  function Original(c: Cut, n: nat): string
    requires n <= |c.blocks| && |c.blocks| == |c.seps| + 1
  {
    if n == 0 then [] else Original(c, n - 1) + c.blocks[n - 1] + SepAt(c, n - 1)
  }

  function After(c: Cut, n: nat): string
    requires |c.blocks| == |c.seps| + 1
  {
    if n < |c.blocks| then Weave(c.blocks[n..], c.seps[n..], []) else []
  }

  lemma {:induction false} OriginalWeaves(c: Cut, n: nat)
    requires n <= |c.blocks| && |c.blocks| == |c.seps| + 1
    ensures Original(c, n) + After(c, n) == Weave(c.blocks, c.seps, [])
  {
    hide Weave, SepAt;
    if n == 0 {
      assert c.blocks[0..] == c.blocks && c.seps[0..] == c.seps;
    } else {
      OriginalWeaves(c, n - 1);
      WeaveHead(c, n - 1);
      hide After;
      assert Original(c, n - 1) + (c.blocks[n - 1] + SepAt(c, n - 1) + After(c, n)) == Original(c, n) + After(c, n);
    }
  }

  lemma WeaveHead(c: Cut, k: nat)
    requires k < |c.blocks| && |c.blocks| == |c.seps| + 1
    ensures After(c, k) == c.blocks[k] + SepAt(c, k) + After(c, k + 1)
  {
    assert c.blocks[k..][1..] == c.blocks[k + 1..] && c.blocks[k..][0] == c.blocks[k];
    if k < |c.seps| {
      assert c.seps[k..][1..] == c.seps[k + 1..] && c.seps[k..][0] == c.seps[k];
    }
  }

  lemma BlockInside(c: Cut, n: nat)
    requires n < |c.blocks| && |c.blocks| == |c.seps| + 1
    ensures Contains(c.blocks[n], "\r\n") ==> Contains(Weave(c.blocks, c.seps, []), "\r\n")
  {
    hide Weave, After, Contains;
    OriginalWeaves(c, n + 1);
    assert Weave(c.blocks, c.seps, []) == Original(c, n) + c.blocks[n] + (SepAt(c, n) + After(c, n + 1));
    InsideContains(Original(c, n), c.blocks[n], SepAt(c, n) + After(c, n + 1));
  }

  lemma InsideContains(x: string, b: string, y: string)
    ensures Contains(b, "\r\n") ==> Contains(x + b + y, "\r\n")
  {
    var s := x + b + y;
    if Contains(b, "\r\n") {
      var p := Find(b, "\r\n");
      assert s[|x| + p..|x| + p + 2] == b[p..p + 2];
      assert At(s, |x| + p, "\r\n");
      ContainsIff(s, "\r\n");
    }
  }

  /** More cues at the end do not change what earlier blocks write. */
  lemma {:induction false} WrittenMore(blocks: seq<VttBlock>, lines: seq<SubLine>, more: seq<SubLine>, le: string)
    requires Slotted(blocks, lines)
    ensures Slotted(blocks, lines + more) && Written(blocks, lines + more, le) == Written(blocks, lines, le)
  {
    if |blocks| > 0 {
      var n := |blocks| - 1;
      assert forall x :: x in blocks[..n] ==> x in blocks;
      assert blocks[n] in blocks;
      WrittenMore(blocks[..n], lines, more, le);
    }
  }

  /** What block `k` is written as. */
  function Now(c: Cut, k: nat, le: string): string
    requires k < |c.blocks|
  {
    if k > 0 && Headers(c.blocks[k]) > 0 then Rendered(c.blocks[k], le) else c.blocks[k]
  }

  lemma WrittenStep(c: Cut, n: nat, le: string)
    requires n < |c.blocks| && |c.blocks| == |c.seps| + 1
    requires var p := ParseAll(c, n); Slotted(p.blocks, p.lines)
    ensures var p, q := ParseAll(c, n), ParseAll(c, n + 1);
            && Slotted(q.blocks, q.lines)
            && Written(q.blocks, q.lines, le) == Written(p.blocks, p.lines, le) + Now(c, n, le) + SepAt(c, n)
  {
    var p := ParseAll(c, n);
    OneWritten(p, c.blocks[n], SepAt(c, n), le);
    assert n > 0 <==> |p.blocks| > 0;
    assert ParseAll(c, n + 1) == ParseOne(p, c.blocks[n], SepAt(c, n));
    hide *;
    NowIs(c, n, le);
  }

  lemma NowIs(c: Cut, n: nat, le: string)
    requires n < |c.blocks|
    ensures Now(c, n, le) == if n > 0 && Headers(c.blocks[n]) > 0 then Rendered(c.blocks[n], le) else c.blocks[n]
  {
  }

  lemma OneWritten(p: Parsed, block: string, sep: string, le: string)
    requires Slotted(p.blocks, p.lines)
    ensures var q := ParseOne(p, block, sep);
            && Slotted(q.blocks, q.lines)
            && Written(q.blocks, q.lines, le) ==
              Written(p.blocks, p.lines, le)
              + (if |p.blocks| > 0 && Headers(block) > 0 then Rendered(block, le) else block) + sep
  {
    hide Headers, SplitTimes, Identifier, Timing, Payload, Written, Part, Rendered;
    if |p.blocks| > 0 && Headers(block) > 0 {
      var last := VttCue(Identifier(block), Timing(block), |p.lines|, sep);
      WrittenMore(p.blocks, p.lines, [CueOf(block)], le);
      PartOfCue(block, p.lines, sep, le);
      WrittenSnoc(p.blocks, last, p.lines + [CueOf(block)], le);
    } else {
      WrittenSnoc(p.blocks, VttOpaque(block, sep), p.lines, le);
      PartOfOpaque(block, sep, p.lines, le);
    }
  }

  lemma PartOfOpaque(block: string, sep: string, lines: seq<SubLine>, le: string)
    ensures Part(VttOpaque(block, sep), lines, le) == block + sep
  {
  }

  lemma WrittenSnoc(blocks: seq<VttBlock>, last: VttBlock, lines: seq<SubLine>, le: string)
    requires Slotted(blocks, lines) && (last.VttCue? ==> last.subIndex < |lines|)
    ensures Slotted(blocks + [last], lines)
    ensures Written(blocks + [last], lines, le) == Written(blocks, lines, le) + Part(last, lines, le)
  {
    hide Part;
    assert (blocks + [last])[..|blocks|] == blocks;
  }

  lemma PartOfCue(block: string, lines: seq<SubLine>, sep: string, le: string)
    requires Headers(block) > 0
    ensures Part(VttCue(Identifier(block), Timing(block), |lines|, sep), lines + [CueOf(block)], le) == Rendered(block, le) + sep
  {
    hide Headers, SplitTimes, Identifier, Timing, Payload;
  }

  ghost predicate AllClosed(c: Cut, n: nat, le: string)
    requires n <= |c.blocks|
  {
    forall k :: 0 < k < n && Headers(c.blocks[k]) > 0 ==> Closed(c.blocks[k], le)
  }

  lemma NowFacts(c: Cut, k: nat, le: string)
    requires k < |c.blocks| && |c.blocks| == |c.seps| + 1 && (le == "\n" || le == "\r\n")
    requires Contains(Weave(c.blocks, c.seps, []), "\r\n") ==> le == "\r\n"
    ensures |Now(c, k, le)| >= |c.blocks[k]|
    ensures Now(c, k, le) == c.blocks[k] <==> (k > 0 && Headers(c.blocks[k]) > 0 ==> Closed(c.blocks[k], le))
  {
    hide Headers, Closed, Rendered, Contains;
    BlockInside(c, k);
    if k > 0 && Headers(c.blocks[k]) > 0 {
      BlockRendered(c.blocks[k], le);
    }
  }

  /** Longer parts that add up to the same text are the same parts. */
  lemma Unpack(a: string, x: string, b: string, y: string, sep: string)
    requires |a| >= |b| && |x| >= |y|
    ensures a + x + sep == b + y + sep <==> a == b && x == y
  {
    if a + x + sep == b + y + sep {
      assert (a + x + sep)[..|a|] == a && (b + y + sep)[..|b|] == b;
      assert (a + x + sep)[|a|..|a| + |x|] == x && (b + y + sep)[|b|..|b| + |y|] == y;
    }
  }

  lemma {:induction false} WrittenIff(c: Cut, n: nat, le: string)
    requires n <= |c.blocks| && |c.blocks| == |c.seps| + 1 && (le == "\n" || le == "\r\n")
    requires Contains(Weave(c.blocks, c.seps, []), "\r\n") ==> le == "\r\n"
    ensures var p := ParseAll(c, n);
            && Slotted(p.blocks, p.lines)
            && |Written(p.blocks, p.lines, le)| >= |Original(c, n)|
            && (Written(p.blocks, p.lines, le) == Original(c, n) <==> AllClosed(c, n, le))
  {
    hide *;
    if n == 0 {
      WrittenNone(c, le);
    } else {
      WrittenIff(c, n - 1, le);
      WrittenStep(c, n - 1, le);
      NowFacts(c, n - 1, le);
      ClosedStep(c, n, le);
      OriginalStep(c, n);
      var p := ParseAll(c, n - 1);
      Unpack(Written(p.blocks, p.lines, le), Now(c, n - 1, le), Original(c, n - 1), c.blocks[n - 1], SepAt(c, n - 1));
    }
  }

  lemma WrittenNone(c: Cut, le: string)
    requires |c.blocks| == |c.seps| + 1
    ensures var p := ParseAll(c, 0);
            Slotted(p.blocks, p.lines) && Written(p.blocks, p.lines, le) == [] && Original(c, 0) == [] && AllClosed(c, 0, le)
  {
  }

  lemma OriginalStep(c: Cut, n: nat)
    requires 0 < n <= |c.blocks| && |c.blocks| == |c.seps| + 1
    ensures Original(c, n) == Original(c, n - 1) + c.blocks[n - 1] + SepAt(c, n - 1)
  {
  }

  lemma ClosedStep(c: Cut, n: nat, le: string)
    requires 0 < n <= |c.blocks|
    ensures AllClosed(c, n, le) <==>
      AllClosed(c, n - 1, le) && (n - 1 > 0 && Headers(c.blocks[n - 1]) > 0 ==> Closed(c.blocks[n - 1], le))
  {
    hide Headers, Closed;
  }

  /** Writing a VTT file after reading it gives it back if and only if every header line of every
      cue block (its identifier, if any, and its timing line) is followed, inside the block, by the
      line ending of the file. */
  lemma WriteReadIff(s: string)
    ensures Writable(Read(s))
    ensures var blocks := SplitBlocks(s).blocks;
            Write(Read(s)) == s <==>
              forall k :: 0 < k < |blocks| && Headers(blocks[k]) > 0 ==> Closed(blocks[k], LineEnding(s))
  {
    hide Headers, Closed, SplitBlocks, Weave, Written, ParseAll;
    var c := SplitBlocks(s);
    SplitWeaves(s, []);
    WrittenIff(c, |c.blocks|, LineEnding(s));
    OriginalWeaves(c, |c.blocks|);
    assert Original(c, |c.blocks|) == s;
  }
}
