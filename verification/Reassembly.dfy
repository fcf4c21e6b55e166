/** Putting translated texts back into the frame of the source document. */
module Reassembly {
  import opened Options
  import opened Subtitles
  import opened Batching
  import opened Envelopes
  import opened Gate

  /** A cue with another text. */
  function Retext(l: SubLine, text: string): SubLine
  {
    SubLine(l.index, l.startTc, l.endTc, text, None)
  }

  /** The source with text `k` in place of its `k`-th translatable cue. */
  function Filled(src: seq<SubLine>, texts: seq<string>): (r: seq<SubLine>)
    requires |texts| == |NonRaw(src)|
    ensures |r| == |src|
    ensures forall i :: 0 <= i < |r| ==> r[i] == FilledAt(src, texts, i)
  {
    seq(|src|, i requires 0 <= i < |src| => FilledAt(src, texts, i))
  }

  function FilledAt(src: seq<SubLine>, texts: seq<string>, i: nat): SubLine
    requires |texts| == |NonRaw(src)| && i < |src|
  {
    if src[i].raw.Some? then src[i]
    else
      NonRawAt(src, i);
      Retext(src[i], texts[Rank(src, i)])
  }

  /** Step 8: walk the source, taking the next text at every translatable cue.  The queue never runs
      dry and is used up exactly. */
  method Reassemble(src: seq<SubLine>, texts: seq<string>) returns (lines: seq<SubLine>)
    requires |texts| == |NonRaw(src)|
    ensures lines == Filled(src, texts) && SameFrame(src, lines)
  {
    hide NonRaw;
    lines := [];
    var next := 0;
    RankEnds(src);
    for i := 0 to |src|
      invariant |lines| == i && next == Rank(src, i) && next <= |texts|
      invariant forall j :: 0 <= j < i ==> lines[j] == FilledAt(src, texts, j)
    {
      RankStep(src, i);
      if src[i].raw.Some? {
        lines := lines + [SubLine(src[i].index, src[i].startTc, src[i].endTc, src[i].text, src[i].raw)];
      } else {
        NonRawAt(src, i);
        lines := lines + [Retext(src[i], texts[next])];
        next := next + 1;
      }
    }
    assert next == |texts|;
    assert lines == Filled(src, texts);
  }

  lemma RankEnds(lines: seq<SubLine>)
    ensures Rank(lines, 0) == 0 && Rank(lines, |lines|) == |NonRaw(lines)|
  {
    assert lines[..|lines|] == lines;
  }

  /** Distinct texts cannot trade places: text `k` ends up in the `k`-th translatable cue and nowhere
      else. */
  lemma FilledNonRaw(src: seq<SubLine>, texts: seq<string>, i: nat)
    requires |texts| == |NonRaw(src)| && i < |src| && src[i].raw.None?
    ensures Rank(src, i) < |texts| && Filled(src, texts)[i].text == texts[Rank(src, i)]
    ensures forall j :: 0 <= j < |src| && src[j].raw.None? && j != i ==> Rank(src, j) != Rank(src, i)
  {
    hide NonRaw;
    NonRawAt(src, i);
    forall j | 0 <= j < |src| && src[j].raw.None? && j != i
      ensures Rank(src, j) != Rank(src, i)
    {
      var a, b := if j < i then j else i, if j < i then i else j;
      RankStep(src, a);
      RankMonotone(src, a + 1, b);
    }
  }

  // ---- review ----------------------------------------------------------------------------

  /** A correction of one translatable cue: the cue as it was batched, and its new text. */
  type Correction = Option<(SubLine, string)>

  function BatchCorrections(cues: seq<SubLine>, result: Option<seq<string>>): (r: seq<Correction>)
    ensures |r| == |cues|
    ensures forall k :: 0 <= k < |r| && r[k].Some? ==> r[k].value.0 == cues[k]
  {
    seq(|cues|, k requires 0 <= k < |cues| =>
      if result.Some? && k < |result.value| then Some((cues[k], result.value[k])) else None)
  }

  function Corrections(batches: seq<seq<SubLine>>, results: seq<Option<seq<string>>>): (r: seq<Correction>)
    requires |batches| == |results|
  {
    if |batches| == 0 then []
    else
      var n := |batches| - 1;
      Corrections(batches[..n], results[..n]) + BatchCorrections(batches[n], results[n])
  }

  lemma {:induction false} CorrectionsAlign(batches: seq<seq<SubLine>>, results: seq<Option<seq<string>>>)
    requires |batches| == |results|
    ensures var r := Corrections(batches, results);
            && |r| == |Flatten(batches)|
            && forall k :: 0 <= k < |r| && r[k].Some? ==> r[k].value.0 == Flatten(batches)[k]
  {
    if |batches| > 0 {
      var n := |batches| - 1;
      CorrectionsAlign(batches[..n], results[..n]);
    }
  }

  /** The document with the corrections of its translatable cues. */
  function SplicedAt(lines: seq<SubLine>, corrections: seq<Correction>, i: nat): SubLine
    requires |corrections| == |NonRaw(lines)| && i < |lines|
  {
    if lines[i].raw.Some? then lines[i]
    else
      NonRawAt(lines, i);
      var c := corrections[Rank(lines, i)];
      if c.Some? then Retext(c.value.0, c.value.1) else lines[i]
  }

  /** Pass 4's splice: the correction pointer moves on translatable cues only. */
  method SpliceReviewCorrections(lines: seq<SubLine>, batches: seq<seq<SubLine>>, results: seq<Option<seq<string>>>)
    returns (spliced: seq<SubLine>)
    requires |batches| == |results| && Flatten(batches) == NonRaw(lines)
    ensures var c := Corrections(batches, results);
            && |c| == |NonRaw(lines)| && |spliced| == |lines|
            && forall i :: 0 <= i < |lines| ==> spliced[i] == SplicedAt(lines, c, i)
    ensures forall src :: SameFrame(src, lines) ==> SameFrame(src, spliced)
  {
    hide NonRaw, Flatten;
    var corrections: seq<Correction> := [];
    for b := 0 to |batches|
      invariant corrections == Corrections(batches[..b], results[..b])
    {
      assert batches[..b + 1][..b] == batches[..b] && results[..b + 1][..b] == results[..b];
      var cues, result := batches[b], results[b];
      var more: seq<Correction> := [];
      for idx := 0 to |cues|
        invariant more == BatchCorrections(cues, result)[..idx]
      {
        if result.Some? && idx < |result.value| {
          more := more + [Some((cues[idx], result.value[idx]))];
        } else {
          more := more + [None];
        }
      }
      corrections := corrections + more;
    }
    assert batches[..|batches|] == batches && results[..|results|] == results;
    CorrectionsAlign(batches, results);
    spliced := [];
    var next := 0;
    RankEnds(lines);
    for i := 0 to |lines|
      invariant |spliced| == i && next == Rank(lines, i) && next <= |corrections|
      invariant forall j :: 0 <= j < i ==> spliced[j] == SplicedAt(lines, corrections, j)
    {
      RankStep(lines, i);
      if lines[i].raw.Some? {
        spliced := spliced + [lines[i]];
      } else {
        NonRawAt(lines, i);
        var c := corrections[next];
        spliced := spliced + [if c.Some? then Retext(c.value.0, c.value.1) else lines[i]];
        next := next + 1;
      }
    }
    forall src | SameFrame(src, lines)
      ensures SameFrame(src, spliced)
    {
      SpliceKeepsFrame(src, lines, corrections, spliced);
    }
  }

  lemma SpliceKeepsFrame(src: seq<SubLine>, lines: seq<SubLine>, c: seq<Correction>, spliced: seq<SubLine>)
    requires SameFrame(src, lines) && |c| == |NonRaw(lines)| && |spliced| == |lines|
    requires forall k :: 0 <= k < |c| && c[k].Some? ==> c[k].value.0 == NonRaw(lines)[k]
    requires forall i :: 0 <= i < |lines| ==> spliced[i] == SplicedAt(lines, c, i)
    ensures SameFrame(src, spliced)
  {
    hide NonRaw;
    forall i | 0 <= i < |src|
      ensures SameFrameLine(src[i], spliced[i])
    {
      assert SameFrameLine(src[i], lines[i]);
      if lines[i].raw.None? {
        NonRawAt(lines, i);
      }
    }
  }

  // ---- repair ----------------------------------------------------------------------------

  /** The cues of a failure that can be translated again. */
  function Chosen(failing: seq<nat>, lines: seq<SubLine>): (r: seq<nat>)
    requires Ascending(failing, |lines|)
    ensures Ascending(r, |lines|) && forall i :: i in r <==> i in failing && lines[i].raw.None?
  {
    if |failing| == 0 then []
    else
      var n := |failing| - 1;
      assert Ascending(failing[..n], |lines|) && failing[n] in failing;
      var front := Chosen(failing[..n], lines);
      assert forall i :: i in front ==> i in failing[..n] && i < failing[n];
      assert forall k :: 0 <= k < |front| ==> front[k] in front;
      assert failing == failing[..n] + [failing[n]];
      if lines[failing[n]].raw.None? then front + [failing[n]] else front
  }

  /** The document with new texts for the chosen cues, in order, and nothing else changed. */
  ghost predicate Repaired(lines: seq<SubLine>, chosen: seq<nat>, texts: seq<string>, r: seq<SubLine>)
  {
    && |chosen| == |texts| && |r| == |lines| && Ascending(chosen, |lines|)
    && (forall k :: 0 <= k < |chosen| ==> r[chosen[k]] == Retext(lines[chosen[k]], texts[k]))
    && (forall i :: 0 <= i < |lines| && i !in chosen ==> r[i] == lines[i])
  }

  /** The splice of a repair: walk the document, taking the next text at every chosen cue. */
  method SpliceRepair(lines: seq<SubLine>, chosen: seq<nat>, texts: seq<string>) returns (r: seq<SubLine>)
    requires Ascending(chosen, |lines|) && |texts| == |chosen|
    ensures Repaired(lines, chosen, texts, r)
  {
    r := [];
    var next := 0;
    for i := 0 to |lines|
      invariant |r| == i && 0 <= next <= |chosen|
      invariant forall k :: 0 <= k < next ==> chosen[k] < i
      invariant forall k :: next <= k < |chosen| ==> chosen[k] >= i
      invariant forall k :: 0 <= k < next ==> r[chosen[k]] == Retext(lines[chosen[k]], texts[k])
      invariant forall j :: 0 <= j < i && j !in chosen ==> r[j] == lines[j]
    {
      var l := lines[i];
      if i in chosen {
        assert next < |chosen| && chosen[next] == i by {
          var k :| 0 <= k < |chosen| && chosen[k] == i;
          assert next <= k;
        }
        r := r + [Retext(l, texts[next])];
        next := next + 1;
      } else {
        r := r + [SubLine(l.index, l.startTc, l.endTc, l.text, l.raw)];
      }
    }
  }

  lemma RepairKeepsFrame(src: seq<SubLine>, lines: seq<SubLine>, chosen: seq<nat>, texts: seq<string>, r: seq<SubLine>)
    requires SameFrame(src, lines) && Repaired(lines, chosen, texts, r)
    requires forall i :: i in chosen ==> i < |lines| && lines[i].raw.None?
    ensures SameFrame(src, r)
  {
    forall i | 0 <= i < |src|
      ensures SameFrameLine(src[i], r[i])
    {
      assert SameFrameLine(src[i], lines[i]);
      if i in chosen {
        var k :| 0 <= k < |chosen| && chosen[k] == i;
      }
    }
  }

  lemma EnvelopesKeepFrame(src: seq<SubLine>, lines: seq<SubLine>)
    requires SameFrame(src, lines)
    ensures SameFrame(src, PreservedLines(src, lines))
  {
    hide Enclosed, Wrapped;
    forall i | 0 <= i < |src|
      ensures SameFrameLine(src[i], PreservedLines(src, lines)[i])
    {
      assert SameFrameLine(src[i], lines[i]);
    }
  }
}
