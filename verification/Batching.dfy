/** The greedy batch packer: what it emits, and why no other packing is shorter. */
module Batching {
  import opened Options
  import opened Subtitles

  /** `budgetChars` is the already computed character budget of one batch. */
  datatype PackSettings = PackSettings(budgetChars: int, maxCues: int, sceneGapMs: int, contextLines: nat)

  datatype Batch = Batch(cues: seq<SubLine>, contextBefore: seq<SubLine>, contextAfter: seq<SubLine>)

  /** A translatable cue with its document position and whether a scene gap precedes it. */
  datatype Item = Item(cue: SubLine, pos: nat, sceneGap: bool)

  /** Gap between the previous document line, raw or not, and line `i`. */
  function GapMs(lines: seq<SubLine>, i: nat, ms: string -> int): int
    requires i < |lines|
  {
    if i == 0 then 0 else ms(lines[i].startTc) - ms(lines[i - 1].endTc)
  }

  function Items(lines: seq<SubLine>, ms: string -> int, gap: int): (r: seq<Item>)
    ensures forall k :: 0 <= k < |r| ==> r[k].pos < |lines| && r[k].cue == lines[r[k].pos] && r[k].cue.raw.None?
    ensures forall k, l :: 0 <= k < l < |r| ==> r[k].pos < r[l].pos
  {
    if |lines| == 0 then [] else
      var n := |lines| - 1;
      var front := Items(lines[..n], ms, gap);
      if lines[n].raw.Some? then front else front + [Item(lines[n], n, GapMs(lines, n, ms) >= gap)]
  }

  function Cues(items: seq<Item>): (r: seq<SubLine>)
    ensures |r| == |items| && forall k :: 0 <= k < |r| ==> r[k] == items[k].cue
  {
    seq(|items|, k requires 0 <= k < |items| => items[k].cue)
  }

  function Chars(run: seq<Item>): nat
  {
    if |run| == 0 then 0 else Chars(run[..|run| - 1]) + |run[|run| - 1].cue.text|
  }

  /** A batch the caps allow: one cue of any length, or a run within both caps; either way no cue
      after the first may follow a scene gap. */
  ghost predicate Feasible(run: seq<Item>, s: PackSettings)
  {
    && |run| >= 1
    && (|run| == 1 || (Chars(run) <= s.budgetChars && |run| <= s.maxCues))
    && forall k :: 1 <= k < |run| ==> !run[k].sceneGap
  }

  /** A way of packing `items`: contiguous feasible runs that concatenate to all of them. */
  ghost predicate Cut(items: seq<Item>, runs: seq<seq<Item>>, s: PackSettings)
  {
    && Flatten(runs) == items
    && forall r :: 0 <= r < |runs| ==> Feasible(runs[r], s)
  }

  /** `run` could not have taken the first cue of `next`. */
  ghost predicate Full(run: seq<Item>, next: seq<Item>, s: PackSettings)
  {
    |next| >= 1 && !Feasible(run + [next[0]], s)
  }

  /** Every run took all it could. */
  ghost predicate Maximal(runs: seq<seq<Item>>, s: PackSettings)
  {
    forall q :: 1 <= q < |runs| ==> Full(runs[q - 1], runs[q], s)
  }

  // ---- context windows -------------------------------------------------------------------

  function Max(a: int, b: int): int { if a > b then a else b }
  function Min(a: int, b: int): int { if a < b then a else b }

  /** The window arithmetic of the packer: it takes the batch to end just before `nextIdx`. */
  function MakeBatch(cues: seq<SubLine>, lines: seq<SubLine>, nextIdx: nat, k: nat): Batch
    requires |cues| <= nextIdx <= |lines|
  {
    var first := nextIdx - |cues|;
    Batch(cues, lines[Max(0, first - k)..first], lines[nextIdx..Min(|lines|, nextIdx + k)])
  }

  /** Document position at which the window code believes run `r` ends. */
  function NextIdx(runs: seq<seq<Item>>, r: nat, n: nat): nat
    requires r < |runs|
    requires r + 1 < |runs| ==> |runs[r + 1]| >= 1
  {
    if r + 1 < |runs| then runs[r + 1][0].pos else n
  }

  // ---- the packer ------------------------------------------------------------------------

  function BatchCues(batches: seq<Batch>): (r: seq<seq<SubLine>>)
    ensures |r| == |batches| && forall b :: 0 <= b < |r| ==> r[b] == batches[b].cues
  {
    seq(|batches|, b requires 0 <= b < |batches| => batches[b].cues)
  }

  function RunCues(runs: seq<seq<Item>>): (r: seq<seq<SubLine>>)
    ensures |r| == |runs| && forall b :: 0 <= b < |r| ==> r[b] == Cues(runs[b])
  {
    seq(|runs|, b requires 0 <= b < |runs| => Cues(runs[b]))
  }

  lemma ItemsAreNonRaw(lines: seq<SubLine>, ms: string -> int, gap: int)
    ensures Cues(Items(lines, ms, gap)) == NonRaw(lines)
    ensures |Items(lines, ms, gap)| <= |lines|
  {
    if |lines| > 0 {
      ItemsAreNonRaw(lines[..|lines| - 1], ms, gap);
    }
  }

  lemma CuesFlatten(runs: seq<seq<Item>>)
    ensures Flatten(RunCues(runs)) == Cues(Flatten(runs))
  {
    if |runs| > 0 {
      var n := |runs| - 1;
      CuesFlatten(runs[..n]);
      assert RunCues(runs)[..n] == RunCues(runs[..n]);
    }
  }

  /** Every batch with the window the packer attaches to it. */
  ghost predicate Windowed(batches: seq<Batch>, runs: seq<seq<Item>>, lines: seq<SubLine>, k: nat)
  {
    && |batches| <= |runs|
    && (forall r :: 1 <= r < |runs| ==> |runs[r]| >= 1)
    && forall b :: 0 <= b < |batches| ==>
         |runs[b]| <= NextIdx(runs, b, |lines|) <= |lines|
         && batches[b] == MakeBatch(Cues(runs[b]), lines, NextIdx(runs, b, |lines|), k)
  }

  lemma WindowedEmit(batches: seq<Batch>, runs: seq<seq<Item>>, run: seq<Item>, item: Item,
                     lines: seq<SubLine>, k: nat)
    requires |batches| == |runs| && 1 <= |run| <= item.pos <= |lines|
    requires Windowed(batches, runs + [run], lines, k)
    ensures Windowed(batches + [MakeBatch(Cues(run), lines, item.pos, k)], runs + [run] + [[item]], lines, k)
  {
    var before, after := runs + [run], runs + [run] + [[item]];
    forall b | 0 <= b < |batches|
      ensures NextIdx(after, b, |lines|) == NextIdx(before, b, |lines|) && after[b] == before[b]
    {
      assert |before[b + 1]| >= 1 && after[b + 1] == before[b + 1];
    }
  }

  lemma WindowedGrow(batches: seq<Batch>, runs: seq<seq<Item>>, run: seq<Item>, item: Item,
                     lines: seq<SubLine>, k: nat)
    requires |batches| == |runs| && (|run| == 0 ==> |runs| == 0)
    requires Windowed(batches, runs + [run], lines, k)
    ensures Windowed(batches, runs + [run + [item]], lines, k)
  {
    var before, after := runs + [run], runs + [run + [item]];
    forall r | 1 <= r < |after|
      ensures |after[r]| >= 1 && |before[r]| >= 1 && after[r][0] == before[r][0]
    {
      if r < |runs| {
        assert after[r] == runs[r] && before[r] == runs[r];
      }
    }
    forall b | 0 <= b < |batches|
      ensures NextIdx(after, b, |lines|) == NextIdx(before, b, |lines|) && after[b] == before[b]
    {
    }
  }

  lemma WindowedFinish(batches: seq<Batch>, runs: seq<seq<Item>>, run: seq<Item>, lines: seq<SubLine>, k: nat)
    requires |batches| == |runs| && 1 <= |run| <= |lines|
    requires Windowed(batches, runs + [run], lines, k)
    ensures Windowed(batches + [MakeBatch(Cues(run), lines, |lines|, k)], runs + [run], lines, k)
  {
  }

  /** What the walk has done with the cues seen so far: closed runs and the open one. */
  ghost predicate Packed(items: seq<Item>, runs: seq<seq<Item>>, run: seq<Item>, s: PackSettings)
  {
    && Flatten(runs) + run == items
    && (forall r :: 0 <= r < |runs| ==> Feasible(runs[r], s))
    && Maximal(runs, s)
    && (|run| == 0 ==> |runs| == 0)
    && (|run| > 0 ==> Feasible(run, s) && (|runs| > 0 ==> Full(runs[|runs| - 1], run, s)))
  }

  lemma PackedGrow(items: seq<Item>, runs: seq<seq<Item>>, run: seq<Item>, item: Item, s: PackSettings)
    requires Packed(items, runs, run, s)
    requires |run| == 0 || Feasible(run + [item], s)
    ensures Packed(items + [item], runs, run + [item], s)
  {
    assert Flatten(runs) + (run + [item]) == items + [item];
    if |run| > 0 {
      assert (run + [item])[0] == run[0];
    }
  }

  lemma PackedEmit(items: seq<Item>, runs: seq<seq<Item>>, run: seq<Item>, item: Item, s: PackSettings)
    requires Packed(items, runs, run, s)
    requires |run| > 0 && !Feasible(run + [item], s)
    ensures Packed(items + [item], runs + [run], [item], s)
    ensures Cut(items, runs + [run], s) && Maximal(runs + [run], s)
  {
    PackedClose(items, runs, run, s);
    assert Feasible([item], s);
    assert (runs + [run])[|runs|] == run;
  }

  lemma PackedClose(items: seq<Item>, runs: seq<seq<Item>>, run: seq<Item>, s: PackSettings)
    requires Packed(items, runs, run, s) && |run| > 0
    ensures Cut(items, runs + [run], s) && Maximal(runs + [run], s)
  {
    FlattenAppend(runs, run);
    forall q | 1 <= q < |runs + [run]|
      ensures Full((runs + [run])[q - 1], (runs + [run])[q], s)
    {
      if q < |runs| {
        assert Full(runs[q - 1], runs[q], s);
      }
    }
  }

  /** The two tests of the walk together are infeasibility of the extended run. */
  lemma OverflowTest(run: seq<Item>, item: Item, s: PackSettings)
    requires Feasible(run, s)
    ensures Feasible(run + [item], s) <==>
            !item.sceneGap && !(Chars(run) + |item.cue.text| > s.budgetChars || |run| >= s.maxCues)
    ensures Chars(run + [item]) == Chars(run) + |item.cue.text|
  {
    assert (run + [item])[..|run|] == run;
    assert (run + [item])[|run|] == item;
  }

  lemma ItemsStep(lines: seq<SubLine>, i: nat, ms: string -> int, gap: int)
    requires i < |lines|
    ensures Items(lines[..i + 1], ms, gap) == Items(lines[..i], ms, gap) +
            (if lines[i].raw.Some? then [] else [Item(lines[i], i, GapMs(lines, i, ms) >= gap)])
  {
    assert lines[..i + 1][..i] == lines[..i];
  }

  /** The loop invariant of the walk after `i` document lines. */
  ghost predicate Walk(lines: seq<SubLine>, i: nat, batches: seq<Batch>, runs: seq<seq<Item>>, run: seq<Item>,
                       s: PackSettings, ms: string -> int)
  {
    && i <= |lines|
    && Packed(Items(lines[..i], ms, s.sceneGapMs), runs, run, s)
    && |batches| == |runs|
    && Windowed(batches, runs + [run], lines, s.contextLines)
  }

  ghost function ItemAt(lines: seq<SubLine>, i: nat, s: PackSettings, ms: string -> int): Item
    requires i < |lines|
  {
    Item(lines[i], i, GapMs(lines, i, ms) >= s.sceneGapMs)
  }

  lemma WalkStep(lines: seq<SubLine>, i: nat, batches: seq<Batch>, runs: seq<seq<Item>>, run: seq<Item>,
                 s: PackSettings, ms: string -> int)
    requires Walk(lines, i, batches, runs, run, s, ms) && i < |lines|
    ensures |run| <= i
    ensures lines[i].raw.Some? ==> Walk(lines, i + 1, batches, runs, run, s, ms)
    ensures lines[i].raw.None? ==> var item := ItemAt(lines, i, s, ms);
                                   if |run| == 0 || Feasible(run + [item], s)
                                   then Walk(lines, i + 1, batches, runs, run + [item], s, ms)
                                   else Walk(lines, i + 1, batches + [MakeBatch(Cues(run), lines, i, s.contextLines)],
                                             runs + [run], [item], s, ms)
  {
    var items := Items(lines[..i], ms, s.sceneGapMs);
    ItemsStep(lines, i, ms, s.sceneGapMs);
    ItemsAreNonRaw(lines[..i], ms, s.sceneGapMs);
    if lines[i].raw.None? {
      var item := ItemAt(lines, i, s, ms);
      if |run| == 0 || Feasible(run + [item], s) {
        WindowedGrow(batches, runs, run, item, lines, s.contextLines);
        PackedGrow(items, runs, run, item, s);
      } else {
        WindowedEmit(batches, runs, run, item, lines, s.contextLines);
        PackedEmit(items, runs, run, item, s);
      }
    }
  }

  /** What the packer promises of its result. */
  ghost predicate Packing(lines: seq<SubLine>, batches: seq<Batch>, runs: seq<seq<Item>>, s: PackSettings,
                          ms: string -> int)
  {
    && Cut(Items(lines, ms, s.sceneGapMs), runs, s)
    && Maximal(runs, s)
    && |batches| == |runs|
    && Windowed(batches, runs, lines, s.contextLines)
  }

  lemma WalkFinish(lines: seq<SubLine>, batches: seq<Batch>, runs: seq<seq<Item>>, run: seq<Item>,
                   s: PackSettings, ms: string -> int)
    requires Walk(lines, |lines|, batches, runs, run, s, ms)
    ensures |run| <= |lines|
    ensures |run| == 0 ==> Packing(lines, batches, runs, s, ms)
    ensures |run| > 0 ==> Packing(lines, batches + [MakeBatch(Cues(run), lines, |lines|, s.contextLines)],
                                  runs + [run], s, ms)
  {
    assert lines[..|lines|] == lines;
    var items := Items(lines, ms, s.sceneGapMs);
    ItemsAreNonRaw(lines, ms, s.sceneGapMs);
    if |run| > 0 {
      PackedClose(items, runs, run, s);
      WindowedFinish(batches, runs, run, lines, s.contextLines);
    }
  }

  /** Nothing is lost, repeated or reordered, and no batch is empty. */
  lemma PackingCoversNonRaw(lines: seq<SubLine>, batches: seq<Batch>, runs: seq<seq<Item>>, s: PackSettings,
                            ms: string -> int)
    requires Packing(lines, batches, runs, s, ms)
    ensures Flatten(BatchCues(batches)) == NonRaw(lines)
    ensures forall b :: 0 <= b < |batches| ==> |batches[b].cues| >= 1
  {
    ItemsAreNonRaw(lines, ms, s.sceneGapMs);
    CuesFlatten(runs);
    assert forall b :: 0 <= b < |batches| ==> Feasible(runs[b], s) && batches[b].cues == Cues(runs[b]);
    assert BatchCues(batches) == RunCues(runs);
  }

  /** The greedy walk.  `runs` is the same packing with document positions kept. */
  method BatchSubdoc(lines: seq<SubLine>, s: PackSettings, ms: string -> int)
    returns (batches: seq<Batch>, ghost runs: seq<seq<Item>>)
    ensures Packing(lines, batches, runs, s, ms)
    ensures Flatten(BatchCues(batches)) == NonRaw(lines)
    ensures forall b :: 0 <= b < |batches| ==> |batches[b].cues| >= 1
  {
    hide Walk, Packing, Feasible;
    batches, runs := [], [];
    var current: seq<SubLine> := [];
    ghost var run: seq<Item> := [];
    var currentChars := 0;
    WalkStart(lines, s, ms);
    for i := 0 to |lines|
      invariant current == Cues(run) && currentChars == Chars(run)
      invariant Walk(lines, i, batches, runs, run, s, ms)
    {
      WalkStep(lines, i, batches, runs, run, s, ms);
      var cue := lines[i];
      if cue.raw.Some? {
        continue;
      }
      var atSceneGap := (if i > 0 then ms(cue.startTc) - ms(lines[i - 1].endTc) else 0) >= s.sceneGapMs;
      var wouldOverflow := currentChars + |cue.text| > s.budgetChars || |current| >= s.maxCues;
      ghost var item := ItemAt(lines, i, s, ms);
      WalkTest(lines, i, batches, runs, run, s, ms);
      if |current| > 0 && (atSceneGap || wouldOverflow) {
        batches := batches + [MakeBatch(current, lines, i, s.contextLines)];
        runs, run := runs + [run], [];
        current := [];
        currentChars := 0;
        assert run + [item] == [item];
      }
      assert Cues(run + [item]) == current + [cue];
      run, current, currentChars := run + [item], current + [cue], currentChars + |cue.text|;
    }
    WalkFinish(lines, batches, runs, run, s, ms);
    if |current| > 0 {
      batches := batches + [MakeBatch(current, lines, |lines|, s.contextLines)];
      runs := runs + [run];
    }
    PackingCoversNonRaw(lines, batches, runs, s, ms);
  }

  lemma WalkStart(lines: seq<SubLine>, s: PackSettings, ms: string -> int)
    ensures Walk(lines, 0, [], [], [], s, ms)
  {
    assert lines[..0] == [];
  }

  /** The walk's test, in the walk's own variables, is infeasibility of the extended run. */
  lemma WalkTest(lines: seq<SubLine>, i: nat, batches: seq<Batch>, runs: seq<seq<Item>>, run: seq<Item>,
                 s: PackSettings, ms: string -> int)
    requires Walk(lines, i, batches, runs, run, s, ms) && i < |lines|
    ensures var item := ItemAt(lines, i, s, ms);
            var gap := (if i > 0 then ms(lines[i].startTc) - ms(lines[i - 1].endTc) else 0) >= s.sceneGapMs;
            var overflow := Chars(run) + |lines[i].text| > s.budgetChars || |run| >= s.maxCues;
            Chars(run + [item]) == Chars(run) + |lines[i].text|
            && Chars([item]) == |lines[i].text|
            && (|run| > 0 ==> (Feasible(run + [item], s) <==> !(gap || overflow)))
  {
    var item := ItemAt(lines, i, s, ms);
    assert (run + [item])[..|run|] == run;
    assert (run + [item])[|run|] == item;
    assert [item][..0] == [];
    if |run| > 0 { OverflowTest(run, item, s); }
  }

  // ---- optimality ------------------------------------------------------------------------

  lemma {:induction false} CharsMonotone(run: seq<Item>, a: nat, b: nat)
    requires a <= b <= |run|
    ensures Chars(run[a..b]) <= Chars(run)
  {
    if b < |run| {
      var n := |run| - 1;
      CharsMonotone(run[..n], a, b);
      assert run[..n][a..b] == run[a..b];
    } else if a < b {
      var n := |run| - 1;
      CharsMonotone(run[..n], a, n);
      assert run[..n][a..n] == run[a..b][..b - a - 1];
      assert run[a..b][b - a - 1] == run[n];
    } else {
      assert run[a..b] == [];
    }
  }

  /** Feasibility passes to every contiguous part. */
  lemma FeasiblePart(run: seq<Item>, a: nat, b: nat, s: PackSettings)
    requires Feasible(run, s) && a < b <= |run|
    ensures Feasible(run[a..b], s)
  {
    CharsMonotone(run, a, b);
    forall k | 1 <= k < b - a
      ensures !run[a..b][k].sceneGap
    {
      assert run[a..b][k] == run[a + k];
    }
  }

  lemma {:induction false} PrefixOfFlatten<T>(parts: seq<seq<T>>, all: seq<T>)
    requires |parts| >= 1 && Flatten(parts) == all
    ensures |parts[0]| <= |all| && parts[0] == all[..|parts[0]|] && Flatten(parts[1..]) == all[|parts[0]|..]
  {
    FlattenCons(parts[0], parts[1..]);
    assert [parts[0]] + parts[1..] == parts;
  }

  lemma FeasibleSlice(items: seq<Item>, q: nat, p: nat, e: nat, f: nat, s: PackSettings)
    requires q <= p < e <= f <= |items| && Feasible(items[q..f], s)
    ensures Feasible(items[p..e], s)
  {
    hide Feasible;
    FeasiblePart(items[q..f], p - q, e - q, s);
    SliceOfSlice(items, q, p, e, f);
  }

  lemma SliceOfSlice<T>(items: seq<T>, q: nat, p: nat, e: nat, f: nat)
    requires q <= p <= e <= f <= |items|
    ensures items[q..f][p - q..e - q] == items[p..e]
  {
    var x := items[q..f];
    forall k | 0 <= k < e - p
      ensures x[p - q..e - q][k] == items[p..e][k]
    {
      assert x[p - q + k] == items[p + k];
    }
  }

  lemma StopsAt(items: seq<Item>, p: nat, e: nat, runs: seq<seq<Item>>, s: PackSettings)
    requires p <= e <= |items| && |runs| > 1 && runs[0] == items[p..e] && Full(runs[0], runs[1], s)
    requires Flatten(runs[1..]) == items[e..]
    ensures e < |items| && !Feasible(items[p..e + 1], s)
  {
    hide Feasible;
    PrefixOfFlatten(runs[1..], items[e..]);
    assert runs[1..][0] == runs[1];
    assert runs[1][0] == items[e..][0] == items[e];
    assert items[p..e] + [items[e]] == items[p..e + 1];
  }

  lemma MaximalHead(items: seq<Item>, p: nat, runs: seq<seq<Item>>, s: PackSettings)
    requires p <= |items| && Cut(items[p..], runs, s) && Maximal(runs, s) && |runs| >= 1
    ensures var e := p + |runs[0]|;
            p < e <= |items| && runs[0] == items[p..e]
            && Cut(items[e..], runs[1..], s) && Maximal(runs[1..], s)
            && (|runs| > 1 ==> e < |items| && !Feasible(items[p..e + 1], s))
  {
    var e := p + |runs[0]|;
    PrefixOfFlatten(runs, items[p..]);
    assert items[p..][|runs[0]|..] == items[e..];
    assert runs[0] == items[p..e];
    assert forall r :: 0 <= r < |runs[1..]| ==> runs[1..][r] == runs[r + 1];
    forall q | 1 <= q < |runs[1..]|
      ensures Full(runs[1..][q - 1], runs[1..][q], s)
    {
      assert Full(runs[q], runs[q + 1], s);
    }
    if |runs| > 1 {
      assert Full(runs[0], runs[1], s);
      hide *;
      StopsAt(items, p, e, runs, s);
    }
  }

  lemma CutHead(items: seq<Item>, q: nat, runs: seq<seq<Item>>, s: PackSettings)
    requires q <= |items| && Cut(items[q..], runs, s) && |runs| >= 1
    ensures var f := q + |runs[0]|;
            q < f <= |items| && runs[0] == items[q..f] && Cut(items[f..], runs[1..], s)
  {
    var f := q + |runs[0]|;
    PrefixOfFlatten(runs, items[q..]);
    assert items[q..][|runs[0]|..] == items[f..];
    assert runs[0] == items[q..f];
    assert forall r :: 0 <= r < |runs[1..]| ==> runs[1..][r] == runs[r + 1];
  }

  /** A greedy packing of what is left from `p` needs no more runs than any packing of what is
      left from an earlier point `q`. */
  lemma {:induction false} GreedyStaysAhead(items: seq<Item>, p: nat, q: nat, runs: seq<seq<Item>>,
                                            other: seq<seq<Item>>, s: PackSettings)
    requires q <= p <= |items|
    requires Cut(items[p..], runs, s) && Maximal(runs, s)
    requires Cut(items[q..], other, s)
    ensures |runs| <= |other|
    decreases |runs|
  {
    if |runs| > 0 {
      MaximalHead(items, p, runs, s);
      assert |other| > 0;
      CutHead(items, q, other, s);
      var e, f := p + |runs[0]|, q + |other[0]|;
      if |runs| > 1 {
        if e < f {
          FeasibleSlice(items, q, p, e + 1, f, s);
          assert false;
        }
        GreedyStaysAhead(items, e, f, runs[1..], other[1..], s);
      }
    }
  }

  /** The packer's batches are as few as any packing within the caps can have. */
  lemma GreedyIsOptimal(items: seq<Item>, runs: seq<seq<Item>>, other: seq<seq<Item>>, s: PackSettings)
    requires Cut(items, runs, s) && Maximal(runs, s) && Cut(items, other, s)
    ensures |runs| <= |other|
  {
    assert items[0..] == items;
    GreedyStaysAhead(items, 0, 0, runs, other, s);
  }

  /** Feasible, maximal and complete leaves no freedom: the packing is determined. */
  lemma {:induction false} GreedyIsUnique(items: seq<Item>, p: nat, runs: seq<seq<Item>>, other: seq<seq<Item>>,
                                          s: PackSettings)
    requires p <= |items|
    requires Cut(items[p..], runs, s) && Maximal(runs, s)
    requires Cut(items[p..], other, s) && Maximal(other, s)
    ensures runs == other
    decreases |runs|
  {
    GreedyStaysAhead(items, p, p, runs, other, s);
    GreedyStaysAhead(items, p, p, other, runs, s);
    if |runs| > 0 {
      MaximalHead(items, p, runs, s);
      MaximalHead(items, p, other, s);
      var e, f := p + |runs[0]|, p + |other[0]|;
      if |runs| > 1 {
        if e < f {
          FeasibleSlice(items, p, p, e + 1, f, s);
          assert false;
        }
        if f < e {
          FeasibleSlice(items, p, p, f + 1, e, s);
          assert false;
        }
      } else {
        assert runs[1..] == [] && other[1..] == [];
      }
      GreedyIsUnique(items, e, runs[1..], other[1..], s);
      assert runs == [runs[0]] + runs[1..] && other == [other[0]] + other[1..];
    }
  }

  // ---- where the window arithmetic is right ----------------------------------------------

  /** The number of document lines from a batch's first cue to its end is its cue count plus the
      raw cues it skipped, so the computed start is late by exactly that many lines. */
  lemma WindowStart(lines: seq<SubLine>, p: nat, next: nat, cues: seq<SubLine>)
    requires p <= next <= |lines| && cues == NonRaw(lines[p..next])
    ensures next - |cues| == p <==> forall i :: p <= i < next ==> lines[i].raw.None?
  {
    NonRawCount(lines[p..next]);
    if next - |cues| == p {
      forall i | p <= i < next
        ensures lines[i].raw.None?
      {
        assert lines[p..next][i - p] == lines[i];
      }
    }
  }

  lemma {:induction false} NonRawCount(lines: seq<SubLine>)
    ensures |NonRaw(lines)| == |lines| <==> forall i :: 0 <= i < |lines| ==> lines[i].raw.None?
  {
    if |lines| > 0 {
      var n := |lines| - 1;
      NonRawCount(lines[..n]);
      if forall i :: 0 <= i < |lines| ==> lines[i].raw.None? {
        assert forall i :: 0 <= i < n ==> lines[..n][i].raw.None?;
      }
    }
  }

  /** A batch's windows are the up to k lines on either side of it if and only if no raw cue lies
      between its first cue and the next batch. */
  lemma WindowsSurroundBatch(lines: seq<SubLine>, p: nat, next: nat, cues: seq<SubLine>, k: nat)
    requires p < next <= |lines| && cues == NonRaw(lines[p..next]) && k >= 1
    ensures |cues| <= next
    ensures var b := MakeBatch(cues, lines, next, k);
            b.contextAfter == lines[next..Min(|lines|, next + k)]
            && (next - |cues| == p ==> b.contextBefore == lines[Max(0, p - k)..p])
            && (next - |cues| == p <==> forall i :: p <= i < next ==> lines[i].raw.None?)
            && (next - |cues| != p ==> p < next - |cues|)
  {
    WindowStart(lines, p, next, cues);
  }

  // ---- the packing on the document -------------------------------------------------------

  function TextsOf(cues: seq<SubLine>): (r: seq<string>)
    ensures |r| == |cues| && forall k :: 0 <= k < |r| ==> r[k] == cues[k].text
  {
    seq(|cues|, k requires 0 <= k < |cues| => cues[k].text)
  }

  /** The texts of a run, put together, are as long as the packer counts them. */
  lemma {:induction false} CharsAreLength(run: seq<Item>)
    ensures Chars(run) == |Flatten(TextsOf(Cues(run)))|
  {
    if |run| > 0 {
      var n := |run| - 1;
      CharsAreLength(run[..n]);
      assert TextsOf(Cues(run))[..n] == TextsOf(Cues(run[..n]));
    } else {
      assert TextsOf(Cues(run)) == [];
    }
  }

  /** A scene ends before document line `i`: at least the gap lies between the line before it, translatable
      or not, and its own start. */
  predicate NewScene(lines: seq<SubLine>, i: nat, s: PackSettings, ms: string -> int)
    requires i < |lines|
  {
    if i == 0 then 0 >= s.sceneGapMs else ms(lines[i].startTc) - ms(lines[i - 1].endTc) >= s.sceneGapMs
  }

  lemma NewSceneIs(lines: seq<SubLine>, i: nat, s: PackSettings, ms: string -> int)
    requires i < |lines|
    ensures NewScene(lines, i, s, ms) <==> GapMs(lines, i, ms) >= s.sceneGapMs
    ensures i + 1 < |lines| ==> (NewScene(lines[..|lines| - 1], i, s, ms) <==> NewScene(lines, i, s, ms))
  {
  }

  lemma {:induction false} GapsOnLines(lines: seq<SubLine>, ms: string -> int, s: PackSettings, k: nat)
    requires k < |Items(lines, ms, s.sceneGapMs)|
    ensures var item := Items(lines, ms, s.sceneGapMs)[k]; item.sceneGap <==> NewScene(lines, item.pos, s, ms)
  {
    hide NewScene, GapMs;
    var n := |lines| - 1;
    var front := Items(lines[..n], ms, s.sceneGapMs);
    if k < |front| {
      GapsOnLines(lines[..n], ms, s, k);
      NewSceneIs(lines, front[k].pos, s, ms);
    } else {
      NewSceneIs(lines, n, s, ms);
    }
  }

  /** Where the cues of a run stand, in the document. */
  ghost predicate Placed(run: seq<Item>, lines: seq<SubLine>, s: PackSettings, ms: string -> int)
  {
    forall k :: 0 <= k < |run| ==>
      run[k].pos < |lines| && run[k].cue == lines[run[k].pos] && (run[k].sceneGap <==> NewScene(lines, run[k].pos, s, ms))
  }

  lemma RunsPlaced(lines: seq<SubLine>, runs: seq<seq<Item>>, s: PackSettings, ms: string -> int, b: nat)
    requires Flatten(runs) == Items(lines, ms, s.sceneGapMs) && b < |runs|
    ensures Placed(runs[b], lines, s, ms)
  {
    hide NewScene, Items;
    forall k | 0 <= k < |runs[b]|
      ensures runs[b][k].pos < |lines| && runs[b][k].cue == lines[runs[b][k].pos]
      ensures runs[b][k].sceneGap <==> NewScene(lines, runs[b][k].pos, s, ms)
    {
      FlattenHas(runs, b, k);
      var j :| 0 <= j < |Flatten(runs)| && Flatten(runs)[j] == runs[b][k];
      GapsOnLines(lines, ms, s, j);
    }
  }

  lemma {:induction false} FlattenHas<T>(parts: seq<seq<T>>, b: nat, k: nat)
    requires b < |parts| && k < |parts[b]|
    ensures exists j :: 0 <= j < |Flatten(parts)| && Flatten(parts)[j] == parts[b][k]
  {
    var n := |parts| - 1;
    var front := Flatten(parts[..n]);
    if b < n {
      FlattenHas(parts[..n], b, k);
      var j :| 0 <= j < |front| && front[j] == parts[..n][b][k];
      assert Flatten(parts)[j] == parts[b][k];
    } else {
      assert Flatten(parts)[|front| + k] == parts[b][k];
    }
  }

  /** What the packer decided, in terms of the document: a batch of several cues keeps both caps, no scene
      ends inside a batch, and a batch ends only where a scene does or where the next cue would break a
      cap. */
  lemma PackedOnLines(lines: seq<SubLine>, batches: seq<Batch>, runs: seq<seq<Item>>, s: PackSettings, ms: string -> int, b: nat)
    requires Packing(lines, batches, runs, s, ms) && b < |batches|
    ensures |runs| == |batches| && Placed(runs[b], lines, s, ms) && batches[b].cues == Cues(runs[b]) && |runs[b]| > 0
    ensures |batches[b].cues| > 1 ==> |Flatten(TextsOf(batches[b].cues))| <= s.budgetChars && |batches[b].cues| <= s.maxCues
    ensures forall k :: 1 <= k < |runs[b]| ==> !NewScene(lines, runs[b][k].pos, s, ms)
    ensures b + 1 < |batches| ==>
              && |runs[b + 1]| > 0 && runs[b + 1][0].pos < |lines|
              && (NewScene(lines, runs[b + 1][0].pos, s, ms)
                  || |Flatten(TextsOf(batches[b].cues))| + |lines[runs[b + 1][0].pos].text| > s.budgetChars
                  || |batches[b].cues| + 1 > s.maxCues)
  {
    hide NewScene, Items, Flatten;
    RunsPlaced(lines, runs, s, ms, b);
    CharsAreLength(runs[b]);
    assert Feasible(runs[b], s);
    if b + 1 < |batches| {
      RunsPlaced(lines, runs, s, ms, b + 1);
      assert Feasible(runs[b + 1], s) && Full(runs[b + 1 - 1], runs[b + 1], s);
      OverflowTest(runs[b], runs[b + 1][0], s);
    }
  }
}
