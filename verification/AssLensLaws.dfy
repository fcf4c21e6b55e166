/** Reading the file again after replacing texts: the same document with the new texts, exactly when
    no replaced cue ended in a line break the reader does not recognise. */
module AssLensLaws {
  import opened Options
  import opened Subtitles
  import opened Text
  import opened TextLines
  import opened Blocks
  import opened Ass
  import opened AssRoundTrip
  import opened AssSections
  import opened AssLens
  import opened AssSwap

  // ---- one segment per line --------------------------------------------------------------

  lemma LineAppends(st: Events, line: string)
    requires Line(st, line).ok
    ensures var r := Line(st, line);
            && st.ok && |r.segments| == |st.segments| + 1 && r.segments[..|st.segments|] == st.segments
            && |r.lines| <= |st.lines| + 1 && |st.lines| <= |r.lines| && r.lines[..|st.lines|] == st.lines
            && (r.segments[|st.segments|].AssSlot? <==> |r.lines| == |st.lines| + 1)
            && (r.segments[|st.segments|].AssSlot? ==> r.segments[|st.segments|].subIndex == |st.lines|)
  {
    hide Cue, SplitMax, Joined, Strip, Content;
  }

  lemma {:induction false} FoldShape(ls: seq<string>)
    requires Fold(ls).ok
    ensures |Fold(ls).segments| == |ls|
  {
    hide Line;
    if |ls| > 0 {
      LineAppends(Fold(ls[..|ls| - 1]), ls[|ls| - 1]);
      FoldShape(ls[..|ls| - 1]);
    }
  }

  /** What line `j` added is still there at the end. */
  lemma {:induction false} FoldAt(ls: seq<string>, j: nat)
    requires Fold(ls).ok && j < |ls|
    ensures var st, r, end := Fold(ls[..j]), Line(Fold(ls[..j]), ls[j]), Fold(ls);
            && r.ok && |st.segments| == j && |r.segments| == j + 1 && |end.segments| == |ls|
            && end.segments[j] == r.segments[j]
            && |r.lines| <= |end.lines| && end.lines[..|r.lines|] == r.lines
  {
    hide Line;
    var n := |ls| - 1;
    FoldShape(ls);
    LineAppends(Fold(ls[..n]), ls[n]);
    if j < n {
      FoldAt(ls[..n], j);
      assert ls[..n][..j] == ls[..j];
      FoldShape(ls[..n]);
      var mid, r := Fold(ls[..n]), Line(Fold(ls[..j]), ls[j]);
      assert Fold(ls).lines[..|r.lines|] == Fold(ls).lines[..|mid.lines|][..|r.lines|];
    } else {
      FoldShape(ls[..n]);
    }
  }

  /** A line that adds a translatable cue is a well-formed Dialogue line. */
  lemma SlotSplits(st: Events, line: string)
    requires Line(st, line).ok && |Line(st, line).lines| == |st.lines| + 1 && Line(st, line).lines[|st.lines|].raw.None?
    requires |Line(st, line).segments| == |st.segments| + 1 && Line(st, line).segments[|st.segments|].AssSlot?
    ensures var r := Line(st, line);
            var g, c := r.segments[|st.segments|], r.lines[|st.lines|];
            && st.ok && Splits(line, st.commas, g.prefix, c.text, c.startTc, c.endTc)
            && g.lineEnding == Ending(line) && c == Cue(c.startTc, c.endTc, c.text)
  {
    hide SplitMax, Joined, Strip, Content, IsSpecial;
  }

  // ---- the fold after a replacement ------------------------------------------------------

  function WithCue(st: Events, i: nat, c: SubLine): Events
    requires i < |st.lines|
  {
    st.(lines := st.lines[i := c])
  }

  /** Later lines do not look at the cues read before. */
  lemma LineIgnoresCues(st: Events, i: nat, c: SubLine, line: string)
    requires i < |st.lines| && Line(st, line).ok
    ensures i < |Line(st, line).lines| && Line(WithCue(st, i, c), line) == WithCue(Line(st, line), i, c)
  {
    hide Cue, SplitMax, Joined, Strip, Content;
  }

  lemma {:induction false} FoldReplace(ls: seq<string>, j: nat, l: string, i: nat, c: SubLine)
    requires Fold(ls).ok && j < |ls|
    requires var st := Fold(ls[..j]);
             var r := Line(st, ls[j]);
             i < |r.lines| && Line(st, l) == WithCue(r, i, c)
    ensures i < |Fold(ls).lines| && Fold(ls[j := l]) == WithCue(Fold(ls), i, c)
  {
    hide Line;
    var n := |ls| - 1;
    var now := ls[j := l];
    if j == n {
      assert now[..n] == ls[..n];
    } else {
      LineAppends(Fold(ls[..n]), ls[n]);
      assert ls[..n][..j] == ls[..j];
      FoldReplace(ls[..n], j, l, i, c);
      assert now[..n] == ls[..n][j := l];
      LineIgnoresCues(Fold(ls[..n]), i, c, ls[n]);
    }
  }

  // ---- the document ----------------------------------------------------------------------

  function Segs(doc: SubDoc): seq<AssSegment>
  {
    if doc.envelope.AssDoc? then doc.envelope.segments else []
  }

  /** Segment `q` is the slot of a translatable cue. */
  predicate Translatable(doc: SubDoc, q: nat)
  {
    q < |Segs(doc)| && Segs(doc)[q].AssSlot? && Segs(doc)[q].subIndex < |doc.lines|
    && doc.lines[Segs(doc)[q].subIndex].raw.None?
  }

  function Replace(doc: SubDoc, q: nat, other: string): SubDoc
    requires Translatable(doc, q)
  {
    var g := Segs(doc)[q];
    doc.(lines := doc.lines[g.subIndex := Retimed(g.prefix, doc.lines[g.subIndex], other)])
  }

  /** The slot ends in a recognised break, or nothing follows it. */
  predicate Closed(doc: SubDoc, q: nat)
    requires q < |Segs(doc)| && Segs(doc)[q].AssSlot?
  {
    |Segs(doc)[q].lineEnding| > 0 || q == |Segs(doc)| - 1
  }

  /** How a file with an Events section was read. */
  ghost predicate Cut(s: string, doc: SubDoc, ps: seq<string>, k: nat, ls: seq<string>)
  {
    && ps == Sections(s) && k == EventsAt(ps, LineEnding(s)) && k < |ps| && ls == Lines(ps[k])
    && Fold(ls).ok
    && doc == Document(Verbatim(ps[..k]) + Fold(ls).segments + Verbatim(ps[k + 1..]), Fold(ls).lines, LineEnding(s))
  }

  /** A slot belongs to a line of the Events section. */
  lemma SlotLine(s: string, q: nat) returns (ps: seq<string>, k: nat, ls: seq<string>, j: nat)
    requires Read(s).Some? && q < |Segs(Read(s).value)| && Segs(Read(s).value)[q].AssSlot?
    ensures Cut(s, Read(s).value, ps, k, ls) && j < |ls| && q == k + j
    ensures |Fold(ls).segments| == |ls| && Segs(Read(s).value)[q] == Fold(ls).segments[j]
    ensures |Segs(Read(s).value)| == |ps| - 1 + |ls|
  {
    hide Fold, Lines, EventsAt, Sections, LineEnding;
    var doc := Read(s).value;
    ps := if |s| == 0 then [[]] else Sections(s);
    k := EventsAt(ps, LineEnding(s));
    assert k == |ps| ==> Segs(doc) == Verbatim(ps);
    assert k < |ps|;
    ls := Lines(ps[k]);
    FoldShape(ls);
    SectionsNonempty(s, k);
    j := q - k;
  }

  lemma SectionsNonempty(s: string, k: nat)
    requires k < |if |s| == 0 then [[]] else Sections(s)|
    requires k == EventsAt(if |s| == 0 then [[]] else Sections(s), LineEnding(s))
    ensures |s| > 0
  {
    EventsAtFacts(if |s| == 0 then [[]] else Sections(s), LineEnding(s));
  }

  lemma ConcatAt(parts: seq<string>, j: nat, p: string)
    requires j < |parts|
    ensures Concat(parts[j := p]) == Concat(parts[..j]) + p + Concat(parts[j + 1..])
  {
    ConcatOne(parts[..j], p);
    ConcatAppend(parts[..j] + [p], parts[j + 1..]);
    assert parts[j := p] == parts[..j] + [p] + parts[j + 1..];
  }

  /** What surrounds line `j` of a section. */
  lemma AroundFacts(p: string, ls: seq<string>, j: nat)
    requires |p| > 0 && ls == Lines(p) && j < |ls| && p[0] == '[' && |ls[j]| > 0 && ls[j][0] == 'D'
    ensures var x, y := Concat(ls[..j]), Concat(ls[j + 1..]);
            && p == x + ls[j] + y && |x| > 0 && x[0] == '[' && OneLine(ls[j])
            && (|y| > 0 <==> j + 1 < |ls|)
            && (|y| > 0 ==> MayFollow(ls[j], y))
  {
    LinesChain(p);
    LinesConcat(p);
    hide Lines, MayFollow, LineLen;
    ConcatAt(ls, j, ls[j]);
    assert ls[j := ls[j]] == ls;
    assert ls[..j][0] == ls[0];
    ChainTail(ls, j);
  }

  lemma ChainTail(ls: seq<string>, j: nat)
    requires LineChain(ls) && j < |ls|
    ensures OneLine(ls[j])
    ensures var y := Concat(ls[j + 1..]); (|y| > 0 <==> j + 1 < |ls|) && (|y| > 0 ==> MayFollow(ls[j], y))
  {
    hide MayFollow, LineLen;
    if j + 1 < |ls| {
      var y := Concat(ls[j + 1..]);
      assert MayFollow(ls[j], ls[j + 1]) && OneLine(ls[j + 1]);
      assert y == ls[j + 1] + Concat(ls[j + 1..][1..]);
      FollowStart(ls[j], ls[j + 1], y);
    }
  }

  lemma FollowStart(a: string, b: string, y: string)
    requires MayFollow(a, b) && |y| > 0 && y[0] == b[0]
    ensures MayFollow(a, y)
  {
  }

  /** The section after the swap: the same lines but one, and still an Events section. */
  lemma SectionAfter(p: string, ls: seq<string>, j: nat, b: string, le: string)
    requires |p| > 0 && ls == Lines(p) && j < |ls| && OneSection(p) && IsEvents(p, le) && (le == "\n" || le == "\r\n")
    requires Alike(ls[j], b) && (j + 1 < |ls| ==> |Ending(ls[j])| > 0 || b[|b| - 1] == ls[j][|ls[j]| - 1])
    ensures var after := Concat(ls[j := b]);
            && Lines(after) == ls[j := b] && OneSection(after) && IsEvents(after, le)
            && after[0] == p[0] && (p[|p| - 1] == '\n' ==> after[|after| - 1] == '\n')
  {
    hide *;
    var x, y := Concat(ls[..j]), Concat(ls[j + 1..]);
    var a, after := ls[j], Concat(ls[j := b]);
    LinesChain(p);
    AlikeStarts(a, b);
    AlikeBoth(a, b);
    AlikeEnds(a, b);
    ChainReplace(ls, j, b);
    LinesOfChain(ls[j := b]);
    EventsStart(p, le);
    AroundFacts(p, ls, j);
    ConcatAt(ls, j, b);
    SectionSwap(x, a, b, y);
    EventsSwap(x, a, b, y, le);
    assert after == x + b + y;
    assert |y| == 0 ==> p[|p| - 1] == a[|a| - 1] && after[|after| - 1] == b[|b| - 1];
    assert |y| > 0 ==> p[|p| - 1] == y[|y| - 1] && after[|after| - 1] == y[|y| - 1];
  }

  lemma AlikeBoth(a: string, b: string)
    requires Alike(a, b)
    ensures OneLine(b) && |b| > 0 && b[0] == 'D'
  {
  }

  lemma EventsStart(p: string, le: string)
    requires IsEvents(p, le)
    ensures |p| > 0 && p[0] == '['
  {
  }

  /** CRLF is in the file before the swap exactly if it is there after it. */
  lemma EndingAfter(ps: seq<string>, k: nat, ls: seq<string>, j: nat, b: string)
    requires SectionChain(ps) && k < |ps| && ls == Lines(ps[k]) && j < |ls| && Alike(ls[j], b) && |ps[k]| > 0 && ps[k][0] == '['
    ensures LineEnding(Concat(ps)) == LineEnding(Concat(ps[k := Concat(ls[j := b])]))
  {
    hide *;
    var x, y := Concat(ls[..j]), Concat(ls[j + 1..]);
    var before, rest := Concat(ps[..k]), Concat(ps[k + 1..]);
    var p := ps[k];
    AlikeStarts(ls[j], b);
    AroundFacts(p, ls, j);
    ConcatAt(ls, j, b);
    ConcatAt(ps, k, p);
    ConcatAt(ps, k, Concat(ls[j := b]));
    assert ps[k := p] == ps;
    var was, now := Concat(ps), Concat(ps[k := Concat(ls[j := b])]);
    assert was == (before + x) + ls[j] + (y + rest);
    assert now == (before + x) + b + (y + rest);
    TailFollows(ps, k, ls[j], x, y, rest);
    CrlfSwap(before + x, ls[j], b, y + rest);
    EndingByCrlf(was, now);
  }

  lemma EndingByCrlf(a: string, b: string)
    requires HasCrlf(a) <==> HasCrlf(b)
    ensures LineEnding(a) == LineEnding(b)
  {
    ContainsCrlf(a);
    ContainsCrlf(b);
  }

  lemma TailFollows(ps: seq<string>, k: nat, a: string, x: string, y: string, rest: string)
    requires SectionChain(ps) && k < |ps| && rest == Concat(ps[k + 1..]) && ps[k] == x + a + y && |a| > 0
    requires |y| > 0 ==> MayFollow(a, y)
    ensures |y + rest| > 0 ==> MayFollow(a, y + rest)
  {
    if |y| == 0 && |rest| > 0 {
      assert k + 1 < |ps|;
      assert Adjoins(ps[k], ps[k + 1]);
      assert OneSection(ps[k + 1]);
      assert rest == ps[k + 1] + Concat(ps[k + 1..][1..]);
      assert y + rest == rest;
      assert ps[k][|ps[k]| - 1] == a[|a| - 1];
    }
  }

  /** One swap in a file: the reader finds the same segments and one other cue. */
  lemma FileAfter(s: string, doc: SubDoc, ps: seq<string>, k: nat, ls: seq<string>, j: nat, b: string, i: nat, c: SubLine)
    requires Cut(s, doc, ps, k, ls) && j < |ls| && Alike(ls[j], b)
    requires j + 1 < |ls| ==> |Ending(ls[j])| > 0 || b[|b| - 1] == ls[j][|ls[j]| - 1]
    requires var r := Line(Fold(ls[..j]), ls[j]); i < |r.lines| && Line(Fold(ls[..j]), b) == WithCue(r, i, c)
    ensures i < |doc.lines|
    ensures Read(Concat(ps[k := Concat(ls[j := b])])) == Some(doc.(lines := doc.lines[i := c]))
  {
    hide Line, Fold, IsEvents, Lines, Ending, HeaderLine, OneLine, MayFollow, LineEnding, Sections, EventsAt;
    var le := LineEnding(s);
    var p := ps[k];
    SectionsChain(s);
    SectionsConcat(s);
    EventsAtFacts(ps, le);
    assert OneSection(p);
    EndingIsOne(s);
    EventsStart(p, le);
    SectionAfter(p, ls, j, b, le);
    var after := Concat(ls[j := b]);
    var now := ps[k := after];
    assert k + 1 < |ps| ==> Adjoins(ps[k], ps[k + 1]);
    SectionReplace(ps, k, after);
    SectionsOfChain(now);
    EndingAfter(ps, k, ls, j, b);
    EventsAtSwap(ps, le, k, after);
    FoldReplace(ls, j, b, i, c);
    ConcatAt(ps, k, after);
    ReadsAs(Concat(now), now, k, ls[j := b]);
    assert now[..k] == ps[..k] && now[k + 1..] == ps[k + 1..];
  }

  lemma EndingIsOne(s: string)
    ensures LineEnding(s) == "\n" || LineEnding(s) == "\r\n"
  {
  }

  lemma ReadsAs(s: string, ps: seq<string>, k: nat, ls: seq<string>)
    requires |s| > 0 && ps == Sections(s) && k == EventsAt(ps, LineEnding(s)) && k < |ps| && ls == Lines(ps[k]) && Fold(ls).ok
    ensures Read(s) == Some(Document(Verbatim(ps[..k]) + Fold(ls).segments + Verbatim(ps[k + 1..]), Fold(ls).lines, LineEnding(s)))
  {
  }

  // ---- one replacement -------------------------------------------------------------------

  /** The line behind a slot: what it added, and where its cue is. */
  lemma SlotAdded(ls: seq<string>, j: nat)
    requires Fold(ls).ok && j < |ls| && |Fold(ls).segments| == |ls| && Fold(ls).segments[j].AssSlot?
    ensures var st, r, g := Fold(ls[..j]), Line(Fold(ls[..j]), ls[j]), Fold(ls).segments[j];
            && st.ok && r.ok && |r.segments| == |st.segments| + 1 && r.segments[|st.segments|] == g
            && |r.lines| == |st.lines| + 1 && g.subIndex == |st.lines|
            && g.subIndex < |Fold(ls).lines| && Fold(ls).lines[g.subIndex] == r.lines[g.subIndex]
  {
    hide Line, Fold;
    FoldAt(ls, j);
    LineAppends(Fold(ls[..j]), ls[j]);
    var r := Line(Fold(ls[..j]), ls[j]);
    assert Fold(ls).lines[..|r.lines|][|r.lines| - 1] == r.lines[|r.lines| - 1];
  }

  lemma SwapLine(st: Events, line: string, other: string)
    requires st.ok && Line(st, line).ok && |Line(st, line).segments| == |st.segments| + 1
    requires Line(st, line).segments[|st.segments|].AssSlot? && |Line(st, line).lines| == |st.lines| + 1
    requires Line(st, line).lines[|st.lines|].raw.None? && OneLine(line) && NoBreak(other)
    ensures var r := Line(st, line);
            var g, c := r.segments[|st.segments|], r.lines[|st.lines|];
            var l := g.prefix + other + Ending(line);
            && Alike(line, l) && (|Ending(line)| > 0 ==> l[|l| - 1] == line[|line| - 1])
            && g.lineEnding == Ending(line) && |g.prefix| > 0 && g.prefix[|g.prefix| - 1] == ','
            && Line(st, l) == WithCue(r, |st.lines|, Retimed(g.prefix, c, other))
  {
    hide Line, Cue, Splits, Ending, OneLine;
    SlotSplits(st, line);
    var r := Line(st, line);
    var g, c := r.segments[|st.segments|], r.lines[|st.lines|];
    SplitsLine(st, line, g.prefix, c.text, c.startTc, c.endTc);
    LineReplaced(st, line, g.prefix, c.text, c.startTc, c.endTc, other);
    assert line[0] == g.prefix[..9][0];
    var l := g.prefix + other + Ending(line);
    assert Line(st, l) == Slot(st, g.prefix, Ending(line), Retimed(g.prefix, c, other));
  }

  /** Replacing one translatable text by a break-free one in a closed slot: the reader gives back
      the same document with that text. */
  lemma LensOne(s: string, q: nat, other: string)
    requires Read(s).Some? && Translatable(Read(s).value, q) && NoBreak(other) && Closed(Read(s).value, q)
    ensures var doc := Replace(Read(s).value, q, other);
            Writable(doc) && Read(Write(doc)) == Some(doc)
  {
    hide Read, Line, Fold, Ending, Write, Sections, EventsAt, LineEnding, Retimed, NoBreak, Lines, Alike;
    var doc := Read(s).value;
    var ps, k, ls, j := SlotLine(s, q);
    SlotAdded(ls, j);
    OneLineAt(ps, k, ls, j);
    var st, r, g := Fold(ls[..j]), Line(Fold(ls[..j]), ls[j]), Fold(ls).segments[j];
    SwapLine(st, ls[j], other);
    var l := g.prefix + other + Ending(ls[j]);
    var c := Retimed(g.prefix, r.lines[|st.lines|], other);
    FileAfter(s, doc, ps, k, ls, j, l, |st.lines|, c);
    WriteAfterRead(Concat(ps[k := Concat(ls[j := l])]));
  }

  lemma OneLineAt(ps: seq<string>, k: nat, ls: seq<string>, j: nat)
    requires k < |ps| && ls == Lines(ps[k]) && j < |ls|
    ensures OneLine(ls[j])
  {
    LinesChain(ps[k]);
  }

  // ---- what every read satisfies ---------------------------------------------------------

  lemma SlotText(st: Events, line: string)
    requires Line(st, line).ok && |Line(st, line).segments| == |st.segments| + 1 && |Line(st, line).lines| == |st.lines| + 1
    requires Line(st, line).segments[|st.segments|].AssSlot?
    ensures var r := Line(st, line);
            var g := r.segments[|st.segments|];
            g.lineEnding == Ending(line) && line == g.prefix + TextOut(r.lines[|st.lines|]) + Ending(line)
  {
    hide SplitMax, Joined, Strip, IsSpecial, Ending;
    assert line == Content(line) + Ending(line);
    SplitJoins(Content(line), st.commas);
  }

  /** In a document that was read, a slot without a recognised ending that is not the last segment
      has its unrecognised break at the end of its text. */
  lemma OpenEndsInBreak(s: string, q: nat)
    requires Read(s).Some? && q < |Segs(Read(s).value)| && Segs(Read(s).value)[q].AssSlot? && !Closed(Read(s).value, q)
    ensures var doc, g := Read(s).value, Segs(Read(s).value)[q];
            g.subIndex < |doc.lines| && EndsInBreak(g.prefix + TextOut(doc.lines[g.subIndex]))
  {
    hide Read, Line, Fold, Ending, Sections, EventsAt, LineEnding, Lines, TextOut, OneLine;
    var ps, k, ls, j := SlotLine(s, q);
    SlotAdded(ls, j);
    SlotText(Fold(ls[..j]), ls[j]);
    LinesChain(ps[k]);
    LastBreak(s, ps, k, ls, j);
    var g := Segs(Read(s).value)[q];
    assert ls[j] == g.prefix + TextOut(Read(s).value.lines[g.subIndex]);
  }

  lemma LastBreak(s: string, ps: seq<string>, k: nat, ls: seq<string>, j: nat)
    requires ps == Sections(s) && k < |ps| && ls == Lines(ps[k]) && j < |ls| && Ending(ls[j]) == []
    requires j + 1 < |ls| || k + 1 < |ps|
    ensures EndsInBreak(ls[j])
  {
    hide Sections, Lines, Ending, LineLen;
    LinesChain(ps[k]);
    SectionsChain(s);
    LinesConcat(ps[k]);
    if j + 1 < |ls| {
      assert MayFollow(ls[j], ls[j + 1]);
    } else {
      assert Adjoins(ps[k], ps[k + 1]);
      ConcatAt(ls, j, ls[j]);
      assert ls[j := ls[j]] == ls && ls[j + 1..] == [];
      LastOfEnding(ls[j]);
    }
  }

  // ---- any number of replacements --------------------------------------------------------

  /** A new text, or none, for each segment; new texts only for translatable cues. */
  predicate Request(doc: SubDoc, news: seq<Option<string>>)
  {
    && |news| == |Segs(doc)|
    && forall q :: 0 <= q < |news| && news[q].Some? ==> Translatable(doc, q) && NoBreak(news[q].value)
  }

  function Replaced(doc: SubDoc, news: seq<Option<string>>, n: nat): (r: SubDoc)
    requires n <= |news|
    ensures r.envelope == doc.envelope && |r.lines| == |doc.lines|
  {
    if n == 0 then doc
    else
      var d := Replaced(doc, news, n - 1);
      if news[n - 1].Some? && Translatable(d, n - 1) then Replace(d, n - 1, news[n - 1].value) else d
  }

  predicate Distinct(doc: SubDoc)
  {
    forall p, q :: 0 <= p < q < |Segs(doc)| && Segs(doc)[p].AssSlot? && Segs(doc)[q].AssSlot? ==>
      Segs(doc)[p].subIndex != Segs(doc)[q].subIndex
  }

  lemma SlotsDistinct(s: string)
    requires Read(s).Some?
    ensures Distinct(Read(s).value)
  {
    var doc := Read(s).value;
    hide Read, Line, Fold, Sections, EventsAt, LineEnding, Lines;
    forall p, q | 0 <= p < q < |Segs(doc)| && Segs(doc)[p].AssSlot? && Segs(doc)[q].AssSlot?
      ensures Segs(doc)[p].subIndex != Segs(doc)[q].subIndex
    {
      var ps, k, ls, j := SlotLine(s, q);
      var ps', k', ls', i := SlotLine(s, p);
      assert ps == ps' && k == k' && ls == ls' && i < j;
      SlotAdded(ls, i);
      SlotAdded(ls, j);
      FoldOkPrefix(ls, j);
      FoldAt(ls[..j], i);
      assert ls[..j][..i] == ls[..i] && ls[..j][i] == ls[i];
    }
  }

  lemma FoldOkPrefix(ls: seq<string>, j: nat)
    requires Fold(ls).ok && j < |ls|
    ensures Fold(ls[..j]).ok
  {
    hide Line;
    FoldAt(ls, j);
    LineAppends(Fold(ls[..j]), ls[j]);
  }

  /** Requests do not interfere: slot `q` has its own new text once the loop has passed it. */
  lemma {:induction false} ReplacedAt(doc: SubDoc, news: seq<Option<string>>, n: nat, q: nat)
    requires Request(doc, news) && Distinct(doc) && n <= |news| && q < |news| && Segs(doc)[q].AssSlot?
    requires Segs(doc)[q].subIndex < |doc.lines|
    ensures var i := Segs(doc)[q].subIndex;
            Replaced(doc, news, n).lines[i] ==
              if q < n && news[q].Some? then Retimed(Segs(doc)[q].prefix, doc.lines[i], news[q].value) else doc.lines[i]
  {
    hide Retimed, NoBreak;
    if n > 0 {
      ReplacedAt(doc, news, n - 1, q);
      var d := Replaced(doc, news, n - 1);
      assert Segs(d) == Segs(doc);
      if news[n - 1].Some? {
        assert Translatable(doc, n - 1);
        if q != n - 1 {
          assert Segs(doc)[q].subIndex != Segs(doc)[n - 1].subIndex;
        }
      }
    }
  }

  ghost predicate AllClosed(doc: SubDoc, news: seq<Option<string>>)
    requires Request(doc, news)
  {
    forall q :: 0 <= q < |news| && news[q].Some? ==> Closed(doc, q)
  }

  lemma {:induction false} LensUpTo(s: string, news: seq<Option<string>>, n: nat)
    requires Read(s).Some? && Request(Read(s).value, news) && AllClosed(Read(s).value, news) && n <= |news|
    ensures var d := Replaced(Read(s).value, news, n);
            Writable(d) && Read(Write(d)) == Some(d)
  {
    hide Read, Write, Writable, Retimed, NoBreak, Replace;
    var doc := Read(s).value;
    if n == 0 {
      WriteAfterRead(s);
    } else {
      LensUpTo(s, news, n - 1);
      var d := Replaced(doc, news, n - 1);
      if news[n - 1].Some? && Translatable(d, n - 1) {
        LensOne(Write(d), n - 1, news[n - 1].value);
      }
    }
  }

  /** The lens law: replace any texts by break-free ones, write, read again.  The result is the
      same document with exactly those texts, if and only if every replaced slot ended in CRLF, LF
      or CR, or was the end of the file. */
  lemma LensIff(s: string, news: seq<Option<string>>)
    requires Read(s).Some? && Request(Read(s).value, news)
    ensures var doc := Read(s).value;
            var d := Replaced(doc, news, |news|);
            Writable(d) && (Read(Write(d)) == Some(d) <==> AllClosed(doc, news))
  {
    hide Read, Write, Retimed, NoBreak, Replace;
    var doc := Read(s).value;
    var d := Replaced(doc, news, |news|);
    WriteAfterRead(s);
    assert Segs(d) == Segs(doc);
    if AllClosed(doc, news) {
      LensUpTo(s, news, |news|);
    } else if Read(Write(d)) == Some(d) {
      var q :| 0 <= q < |news| && news[q].Some? && !Closed(doc, q);
      SlotsDistinct(s);
      ReplacedAt(doc, news, |news|, q);
      OpenEndsInBreak(Write(d), q);
      PrefixComma(s, q);
      NewTextClosed(Segs(doc)[q].prefix, doc.lines[Segs(doc)[q].subIndex], news[q].value);
    }
  }

  lemma PrefixComma(s: string, q: nat)
    requires Read(s).Some? && Translatable(Read(s).value, q)
    ensures var p := Segs(Read(s).value)[q].prefix; |p| > 0 && p[|p| - 1] == ','
  {
    hide Read, Line, Fold, Sections, EventsAt, LineEnding, Lines;
    var ps, k, ls, j := SlotLine(s, q);
    SlotAdded(ls, j);
    SlotSplits(Fold(ls[..j]), ls[j]);
    var g, c := Fold(ls).segments[j], Fold(ls).lines[Fold(ls).segments[j].subIndex];
    SplitsLine(Fold(ls[..j]), ls[j], g.prefix, c.text, c.startTc, c.endTc);
  }

  lemma NewTextClosed(prefix: string, cue: SubLine, other: string)
    requires |prefix| > 0 && prefix[|prefix| - 1] == ',' && NoBreak(other)
    ensures !EndsInBreak(prefix + TextOut(Retimed(prefix, cue, other)))
  {
    hide IsSpecial, Commas, Strip;
    assert TextOut(Retimed(prefix, cue, other)) == other;
    var l := prefix + other;
    assert |other| > 0 ==> l[|l| - 1] == other[|other| - 1];
    assert |other| == 0 ==> l[|l| - 1] == prefix[|prefix| - 1];
  }
}
