/** Text cut into blocks at blank lines, as SRT and VTT both do it. */
module Blocks {
  import opened Text

  /** The two timecodes of a timing line. */
  datatype Times = Times(start: string, end: string)

  /** The line ending a text is taken to have. */
  function LineEnding(s: string): (le: string)
    ensures le == "\r\n" || le == "\n"
  {
    if Contains(s, "\r\n") then "\r\n" else "\n"
  }

  // ---- the separator pattern -------------------------------------------------------------

  /** `\r?\n` at the start. */
  function NewlineLen(s: string): (n: nat)
    ensures n <= |s| && n <= 2
    ensures n > 0 ==> s[n - 1] == '\n'
  {
    if |s| >= 2 && s[0] == '\r' && s[1] == '\n' then 2
    else if |s| >= 1 && s[0] == '\n' then 1
    else 0
  }

  function BlankRun(s: string): (n: nat)
    ensures n <= |s|
    ensures forall k :: 0 <= k < n ==> IsBlank(s[k])
    ensures n < |s| ==> !IsBlank(s[n])
  {
    if |s| == 0 || !IsBlank(s[0]) then 0 else 1 + BlankRun(s[1..])
  }

  /** `[ \t]*\r?\n` at the start. */
  function BlankLine(s: string): (n: nat)
    ensures n <= |s|
  {
    var b := BlankRun(s);
    if NewlineLen(s[b..]) > 0 then b + NewlineLen(s[b..]) else 0
  }

  /** `(?:[ \t]*\r?\n)+` at the start. */
  function BlankLines(s: string): (n: nat)
    ensures n <= |s|
    decreases |s|
  {
    var n := BlankLine(s);
    if n == 0 then 0 else n + BlankLines(s[n..])
  }

  /** A line ending and the blank lines after it, at least one. */
  function SepLen(s: string): (n: nat)
    ensures n <= |s|
  {
    var n := NewlineLen(s);
    if n > 0 && BlankLines(s[n..]) > 0 then n + BlankLines(s[n..]) else 0
  }

  function FirstSep(s: string): (p: nat)
    ensures p <= |s|
    ensures p < |s| ==> SepLen(s[p..]) > 0
    ensures forall q :: 0 <= q < p ==> SepLen(s[q..]) == 0
  {
    if |s| == 0 || SepLen(s) > 0 then 0
    else
      var p := 1 + FirstSep(s[1..]);
      LaterSep(s, p);
      p
  }

  /** No separator at the start, and the first one of the rest one place earlier. */
  lemma LaterSep(s: string, p: nat)
    requires |s| > 0 && SepLen(s) == 0 && 1 <= p <= |s|
    requires p < |s| ==> SepLen(s[1..][p - 1..]) > 0
    requires forall q :: 0 <= q < p - 1 ==> SepLen(s[1..][q..]) == 0
    ensures p < |s| ==> SepLen(s[p..]) > 0
    ensures forall q :: 0 <= q < p ==> SepLen(s[q..]) == 0
  {
    hide SepLen;
    assert s[p..] == s[1..][p - 1..];
    forall q | 0 <= q < p
      ensures SepLen(s[q..]) == 0
    {
      if q > 0 {
        assert s[q..] == s[1..][q - 1..];
      } else {
        assert s[0..] == s;
      }
    }
  }

  datatype Cut = Cut(blocks: seq<string>, seps: seq<string>)

  function SplitBlocks(s: string): (c: Cut)
    ensures |c.blocks| == |c.seps| + 1
    decreases |s|
  {
    var p := FirstSep(s);
    if p == |s| then Cut([s], [])
    else
      var n := SepLen(s[p..]);
      var rest := SplitBlocks(s[p + n..]);
      Cut([s[..p]] + rest.blocks, [s[p..p + n]] + rest.seps)
  }

  /** The separator after a block; the last block has none. */
  function SepAt(c: Cut, k: nat): string
  {
    if k < |c.seps| then c.seps[k] else []
  }

  /** The blocks with the separators between them; where a separator is missing, `fallback`. */
  function Weave(blocks: seq<string>, seps: seq<string>, fallback: string): string
  {
    if |blocks| == 0 then []
    else if |blocks| == 1 then blocks[0]
    else if |seps| == 0 then blocks[0] + fallback + Weave(blocks[1..], [], fallback)
    else blocks[0] + seps[0] + Weave(blocks[1..], seps[1..], fallback)
  }

  lemma {:induction false} SplitWeaves(s: string, fallback: string)
    ensures Weave(SplitBlocks(s).blocks, SplitBlocks(s).seps, fallback) == s
    decreases |s|
  {
    hide SepLen, FirstSep;
    var p := FirstSep(s);
    if p < |s| {
      var n := SepLen(s[p..]);
      var rest := SplitBlocks(s[p + n..]);
      SplitWeaves(s[p + n..], fallback);
      assert SplitBlocks(s) == Cut([s[..p]] + rest.blocks, [s[p..p + n]] + rest.seps);
      assert ([s[..p]] + rest.blocks)[1..] == rest.blocks && ([s[p..p + n]] + rest.seps)[1..] == rest.seps;
      assert s == s[..p] + s[p..p + n] + s[p + n..];
    }
  }

  // ---- no two separators touch -----------------------------------------------------------

  lemma NewlineIsBlankLine(s: string)
    ensures NewlineLen(s) > 0 ==> BlankLine(s) > 0
  {
    if NewlineLen(s) > 0 {
      assert BlankRun(s) == 0;
      assert s[0..] == s;
    }
  }

  /** After a maximal run of blank lines no blank line follows. */
  lemma {:induction false} BlankLinesMaximal(s: string)
    ensures BlankLine(s[BlankLines(s)..]) == 0
    decreases |s|
  {
    var n := BlankLine(s);
    if n == 0 {
      assert s[0..] == s;
    } else {
      BlankLinesMaximal(s[n..]);
      assert s[n..][BlankLines(s[n..])..] == s[BlankLines(s)..];
    }
  }

  /** What follows a separator does not start with another one. */
  lemma SepMaximal(s: string)
    requires SepLen(s) > 0
    ensures SepLen(s[SepLen(s)..]) == 0
  {
    var n := NewlineLen(s);
    BlankLinesMaximal(s[n..]);
    assert s[n..][BlankLines(s[n..])..] == s[SepLen(s)..];
    NewlineIsBlankLine(s[SepLen(s)..]);
  }

  /** Every block but the first and the last has content. */
  lemma {:induction false} InnerBlocksFull(s: string)
    ensures forall i :: 0 < i < |SplitBlocks(s).blocks| - 1 ==> SplitBlocks(s).blocks[i] != []
    ensures SepLen(s) == 0 && |SplitBlocks(s).blocks| > 1 ==> SplitBlocks(s).blocks[0] != []
    decreases |s|
  {
    hide SepLen, FirstSep;
    var p := FirstSep(s);
    if p < |s| {
      var n := SepLen(s[p..]);
      InnerBlocksFull(s[p + n..]);
      NextStarts(s);
      var rest := SplitBlocks(s[p + n..]);
      var blocks := SplitBlocks(s).blocks;
      assert blocks == [s[..p]] + rest.blocks;
      forall i | 0 < i < |blocks| - 1
        ensures blocks[i] != []
      {
        assert blocks[i] == rest.blocks[i - 1];
      }
    }
  }

  /** The first block is empty only if the text starts with a separator, and no separator follows one. */
  lemma NextStarts(s: string)
    requires FirstSep(s) < |s|
    ensures var p := FirstSep(s); var n := SepLen(s[p..]);
            p + n <= |s| && SepLen(s[p + n..]) == 0 && (SepLen(s) == 0 ==> p > 0)
  {
    hide SepLen, FirstSep;
    var p := FirstSep(s);
    SepMaximal(s[p..]);
    assert s[p..][SepLen(s[p..])..] == s[p + SepLen(s[p..])..];
    assert p == 0 ==> s[p..] == s;
  }
}
