/** When writing an SRT file gives back what was read. */
module SrtLaws {
  import opened Options
  import opened Subtitles
  import opened Text
  import opened TextLines
  import opened Blocks
  import opened Srt

  // ---- the structure around the blocks ---------------------------------------------------

  predicate Fits(blocks: seq<string>, seps: seq<string>)
  {
    |seps| == if |blocks| == 0 then 0 else |blocks| - 1
  }

  lemma {:induction false} WeaveSnoc(front: seq<string>, last: string, seps: seq<string>, fallback: string)
    requires |front| > 0 && |seps| == |front|
    ensures Weave(front + [last], seps, fallback) == Weave(front, seps[..|seps| - 1], fallback) + seps[|seps| - 1] + last
  {
    assert (front + [last])[1..] == front[1..] + [last];
    if |front| > 1 {
      WeaveSnoc(front[1..], last, seps[1..], fallback);
      assert seps[1..][..|seps| - 2] == seps[..|seps| - 1][1..];
    } else {
      assert (front + [last])[1..] == [last];
    }
  }

  lemma {:induction false} PopKeeps(p: Parts, fallback: string)
    requires Fits(p.blocks, p.seps)
    ensures var r := Pop(p);
            && Fits(r.blocks, r.seps)
            && Weave(r.blocks, r.seps, fallback) + r.trailer == Weave(p.blocks, p.seps, fallback) + p.trailer
            && r.blocks <= p.blocks && (|r.blocks| > 0 ==> r.blocks[|r.blocks| - 1] != [] && r.seps <= p.seps)
    decreases |p.blocks|
  {
    var n := |p.blocks|;
    if n > 0 && p.blocks[n - 1] == [] {
      var m := |p.seps|;
      if m > 0 {
        WeaveSnoc(p.blocks[..n - 1], [], p.seps, fallback);
        assert p.blocks[..n - 1] + [[]] == p.blocks;
        PopKeeps(Parts(p.blocks[..n - 1], p.seps[..m - 1], p.seps[m - 1] + p.trailer), fallback);
      } else {
        assert p.blocks[..n - 1] == [];
        PopKeeps(Parts(p.blocks[..n - 1], [], p.trailer), fallback);
      }
    }
  }

  lemma TrimKeeps(front: seq<string>, last: string, at: nat, seps: seq<string>, fallback: string)
    requires at <= |last| && |seps| == |front|
    ensures Weave(front + [last[..at]], seps, fallback) + last[at..] == Weave(front + [last], seps, fallback)
  {
    assert last == last[..at] + last[at..];
    if |front| > 0 {
      WeaveSnoc(front, last, seps, fallback);
      WeaveSnoc(front, last[..at], seps, fallback);
    } else {
      assert front + [last] == [last] && front + [last[..at]] == [last[..at]];
    }
  }

  lemma TrailKeeps(c: Cut, fallback: string)
    requires |c.blocks| == |c.seps| + 1
    ensures var p := TrailCut(c);
            Fits(p.blocks, p.seps) && Weave(p.blocks, p.seps, fallback) + p.trailer == Weave(c.blocks, c.seps, fallback)
  {
    hide TrailAt, Weave;
    var n := |c.blocks| - 1;
    assert c.blocks[..n] + [c.blocks[n]] == c.blocks;
    TrimKeeps(c.blocks[..n], c.blocks[n], TrailAt(c.blocks[n]), c.seps, fallback);
  }

  /** Nothing is lost in taking a file apart. */
  lemma StructureWhole(s: string, fallback: string)
    ensures var p := Structure(s);
            Fits(p.blocks, p.seps) && s == Leading(s) + Weave(p.blocks, p.seps, fallback) + p.trailer
  {
    hide SplitBlocks, TrailCut, Weave, Leading, Pop, Fits;
    var text := s[|Leading(s)|..];
    SplitWeaves(text, fallback);
    TrailKeeps(SplitBlocks(text), fallback);
    PopKeeps(TrailCut(SplitBlocks(text)), fallback);
    assert s == Leading(s) + text;
  }

  // ---- the one gap -----------------------------------------------------------------------

  /** White space only, starting with blank lines, and not all of it blank lines. */
  predicate BlankGap(s: string)
  {
    Blank(s) && SepLen(s) > 0 && BlankLines(s) < |s|
  }

  lemma SepIsBlankLines(s: string)
    requires SepLen(s) > 0
    ensures SepLen(s) == BlankLines(s)
  {
    var n := NewlineLen(s);
    assert BlankRun(s) == 0;
    assert s[0..] == s;
  }

  lemma FirstBlockEmpty(s: string)
    ensures SplitBlocks(s).blocks[0] == [] <==> |s| == 0 || SepLen(s) > 0
  {
    assert s[0..] == s;
    hide SepLen;
  }

  /** A file starts with an empty block exactly where its blank lines were not taken as leading. */
  lemma LeadingThenContent(s: string)
    requires |Leading(s)| > 0
    ensures SepLen(s[|Leading(s)|..]) == 0 && |Leading(s)| < |s|
  {
    var text := s[|Leading(s)|..];
    BlankLinesMaximal(s);
    NewlineIsBlankLine(text);
  }

  lemma {:induction false} BlankLinesBlank(s: string)
    ensures Blank(s[..BlankLines(s)])
    decreases |s|
  {
    var n := BlankLine(s);
    if n > 0 {
      BlankLinesBlank(s[n..]);
      forall k | 0 <= k < BlankLines(s)
        ensures IsSpace(s[k])
      {
        if k < n {
          BlankLineBlank(s, k);
        } else {
          assert s[k] == s[n..][..BlankLines(s[n..])][k - n];
        }
      }
    }
  }

  lemma BlankLineBlank(s: string, k: nat)
    requires k < BlankLine(s)
    ensures IsSpace(s[k])
  {
    var b := BlankRun(s);
    if k >= b {
      assert s[k] == s[b..][k - b];
    }
  }

  lemma {:induction false} TrailAtZero(s: string)
    ensures TrailAt(s) == 0 && |s| > 0 ==> BlankLines(s) == |s|
    ensures BlankLine(s) == 0 && |s| > 0 ==> TrailAt(s) > 0
  {
  }

  lemma SplitCons(s: string, p: nat)
    requires p == FirstSep(s)
    ensures p == |s| ==> SplitBlocks(s) == Cut([s], [])
    ensures p < |s| ==>
      var n := SepLen(s[p..]);
      var rest := SplitBlocks(s[p + n..]);
      n > 0 && SplitBlocks(s) == Cut([s[..p]] + rest.blocks, [s[p..p + n]] + rest.seps)
  {
    hide SepLen, FirstSep, NewlineLen, BlankLines, BlankLine, IsBreak, IsSpace;
    var c := SplitBlocks(s);
  }

  lemma SepEndsBlank(s: string)
    requires SepLen(s) > 0
    ensures BlankLine(s[SepLen(s)..]) == 0
  {
    var n := NewlineLen(s);
    BlankLinesMaximal(s[n..]);
    assert s[n..][BlankLines(s[n..])..] == s[SepLen(s)..];
  }

  predicate AllFull(blocks: seq<string>)
  {
    forall i :: 0 <= i < |blocks| ==> blocks[i] != []
  }

  ghost predicate InnerFull(blocks: seq<string>, n: int)
  {
    forall i :: 0 < i < n && i < |blocks| ==> blocks[i] != []
  }

  lemma TrailInner(c: Cut)
    requires |c.blocks| > 0 && InnerFull(c.blocks, |c.blocks| - 1)
    ensures InnerFull(TrailCut(c).blocks, |TrailCut(c).blocks| - 1)
  {
    hide TrailAt;
  }

  lemma PopFull(p: Parts)
    requires Fits(p.blocks, p.seps) && InnerFull(p.blocks, |p.blocks| - 1)
    ensures InnerFull(Pop(p).blocks, |Pop(p).blocks|)
  {
    PopKeeps(p, []);
    hide Pop, Weave;
  }

  lemma SplitInner(s: string)
    ensures InnerFull(SplitBlocks(s).blocks, |SplitBlocks(s).blocks| - 1)
  {
    InnerBlocksFull(s);
    hide SplitBlocks;
  }

  /** What popping leaves: full blocks, but possibly an empty first one. */
  lemma PoppedFull(s: string)
    ensures InnerFull(Structure(s).blocks, |Structure(s).blocks|)
  {
    hide SplitBlocks, Leading, Pop, Weave, TrailAt, TrailCut, Fits, InnerFull;
    var c := SplitBlocks(s[|Leading(s)|..]);
    SplitInner(s[|Leading(s)|..]);
    TrailKeeps(c, []);
    TrailInner(c);
    PopFull(TrailCut(c));
  }

  /** A full block stays, with everything before it. */
  lemma {:induction false} PopStops(p: Parts, j: nat)
    requires j < |p.blocks| && p.blocks[j] != []
    ensures j < |Pop(p).blocks| && Pop(p).blocks <= p.blocks
    decreases |p.blocks|
  {
    var n := |p.blocks|;
    if p.blocks[n - 1] == [] {
      var m := |p.seps|;
      PopStops(if m > 0 then Parts(p.blocks[..n - 1], p.seps[..m - 1], p.seps[m - 1] + p.trailer)
               else Parts(p.blocks[..n - 1], [], p.trailer), j);
    }
  }

  lemma GapText(s: string)
    requires BlankGap(s)
    ensures Leading(s) == [] && s[|Leading(s)|..] == s
    ensures var rest := s[SepLen(s)..];
            |rest| > 0 && SepLen(rest) == 0 && BlankLine(rest) == 0
            && SplitBlocks(s) == Cut([[]] + SplitBlocks(rest).blocks, [s[..SepLen(s)]] + SplitBlocks(rest).seps)
  {
    SepIsBlankLines(s);
    assert s[0..] == s;
    assert FirstSep(s) == 0;
    SplitCons(s, 0);
    SepEndsBlank(s);
    SepMaximal(s);
    hide SepLen, BlankLines, SplitBlocks, FirstSep;
    forall k | 0 <= k < |s[BlankLines(s)..]|
      ensures IsSpace(s[BlankLines(s)..][k])
    {
      assert s[BlankLines(s)..][k] == s[BlankLines(s) + k];
    }
  }

  /** In the gap, the empty first block survives with at least one block after it. */
  lemma GapHasEmptyBlock(s: string)
    requires BlankGap(s)
    ensures var p := Structure(s); |p.blocks| >= 2 && p.blocks[0] == []
  {
    hide SepLen, BlankLines, SplitBlocks, Pop, TrailAt, Leading, BlankLine, BlankGap;
    GapText(s);
    var rest := s[SepLen(s)..];
    var c, r := SplitBlocks(s), SplitBlocks(rest);
    var cut := TrailCut(c);
    assert c.blocks[0] == [] && c.blocks[1] == r.blocks[0];
    InnerBlocksFull(rest);
    SplitRest(rest);
    TrailAtZero(rest);
    assert cut.blocks[0] == [];
    assert |r.blocks| > 1 ==> cut.blocks[1] == r.blocks[0];
    assert |r.blocks| == 1 ==> cut.blocks[1] == rest[..TrailAt(rest)];
    assert cut.blocks[1] != [];
    PopStops(cut, 1);
  }

  lemma SplitRest(s: string)
    ensures |SplitBlocks(s).blocks| == 1 ==> SplitBlocks(s).blocks == [s]
  {
    SplitCons(s, FirstSep(s));
  }

  /** Outside the gap every block is full. */
  lemma NoGapAllFull(s: string)
    requires !BlankGap(s)
    ensures AllFull(Structure(s).blocks)
  {
    hide SepLen, SplitBlocks, Pop, TrailAt, BlankLine, Blank, BlankLines, Weave;
    var p := Structure(s);
    PoppedFull(s);
    var text := s[|Leading(s)|..];
    var c := SplitBlocks(text);
    TrailKeeps(c, []);
    PopKeeps(TrailCut(c), []);
    if |p.blocks| > 0 && p.blocks[0] == [] {
      assert |p.blocks| >= 2;
      assert TrailCut(c).blocks[0] == c.blocks[0];
      FirstBlockEmpty(text);
      SplitNothing(text);
      if |Leading(s)| > 0 {
        LeadingThenContent(s);
      } else {
        assert text == s;
        SepIsBlankLines(s);
        BlankLinesBlank(s);
        BlankWhole(s, BlankLines(s));
        AllBlankLines(s);
      }
    }
  }

  lemma SplitNothing(s: string)
    ensures |s| == 0 ==> |SplitBlocks(s).blocks| == 1
  {
  }

  lemma BlankWhole(s: string, n: nat)
    requires n <= |s| && Blank(s[..n]) && Blank(s[n..])
    ensures Blank(s)
  {
    forall k | 0 <= k < |s|
      ensures IsSpace(s[k])
    {
      assert if k < n then s[k] == s[..n][k] else s[k] == s[n..][k - n];
    }
  }

  /** A file of nothing but blank lines has no block. */
  lemma SepFirst(s: string)
    requires SepLen(s) > 0
    ensures FirstSep(s) == 0 && s[0..] == s
  {
    assert s[0..] == s;
  }

  lemma AllBlankLines(s: string)
    requires SepLen(s) > 0 && BlankLines(s) == |s|
    ensures Pop(TrailCut(SplitBlocks(s))).blocks == []
  {
    hide *;
    SepIsBlankLines(s);
    SepFirst(s);
    SplitCons(s, 0);
    SplitCons([], 0);
    assert s[0 + |s|..] == [];
    assert FirstSep([]) == 0;
    TwoEmpty(SplitBlocks(s));
  }

  lemma TwoEmpty(c: Cut)
    requires c.blocks == [[], []] && |c.seps| == 1
    ensures Pop(TrailCut(c)).blocks == []
  {
    TrailKeeps(c, []);
    PopKeeps(TrailCut(c), []);
    hide Pop, Weave;
  }
}
