/** When a reply is accepted, and what is read from it. */
module NumberedLaws {
  import opened Options
  import opened Text
  import opened NumberedLines

  /** The text of the marker at `i`, with the lines before `m` that belong to it. */
  function Gathered(items: seq<Item>, i: nat, m: nat, multiline: Option<set<nat>>): string
    requires i < m <= |items| && items[i].Numbered?
  {
    if m == i + 1 then items[i].text
    else
      var text := Gathered(items, i, m - 1, multiline);
      var more := items[m - 1];
      if more.Numbered? || Ended(items, i, m - 1) || more.text == [] || !Continues(multiline, items[i].n) then text
      else Append(text, more.text)
  }

  /** Another marker came between. */
  predicate Ended(items: seq<Item>, i: nat, m: nat)
    requires m <= |items|
  {
    exists j :: i < j < m && items[j].Numbered?
  }

  ghost predicate DistinctNumbers(items: seq<Item>)
  {
    forall i, j :: 0 <= i < j < |items| && items[i].Numbered? && items[j].Numbered? ==> items[i].n != items[j].n
  }

  predicate LastMarker(items: seq<Item>, i: int)
  {
    0 <= i < |items| && items[i].Numbered? && forall j :: i < j < |items| ==> !items[j].Numbered?
  }

  predicate MarkerOf(items: seq<Item>, i: int, n: nat)
  {
    0 <= i < |items| && items[i].Numbered? && items[i].n == n
  }

  /** The state of the scan after distinct markers. */
  ghost predicate Scanned(items: seq<Item>, multiline: Option<set<nat>>, s: Scan)
  {
    && s.duplicate.None?
    && (forall n :: n in s.parsed ==> exists i :: MarkerOf(items, i, n))
    && (forall i :: 0 <= i < |items| && items[i].Numbered? ==>
          items[i].n in s.parsed && s.parsed[items[i].n] == Gathered(items, i, |items|, multiline))
    && (s.current.Some? ==> exists i :: LastMarker(items, i) && items[i].n == s.current.value)
    && (s.current.None? ==> forall i :: 0 <= i < |items| ==> !items[i].Numbered?)
  }

  lemma {:induction false} GatheredPrefix(items: seq<Item>, i: nat, m: nat, n: nat, multiline: Option<set<nat>>)
    requires i < m <= n <= |items| && items[i].Numbered?
    ensures Gathered(items[..n], i, m, multiline) == Gathered(items, i, m, multiline)
  {
    if m > i + 1 {
      GatheredPrefix(items, i, m - 1, n, multiline);
      assert Ended(items[..n], i, m - 1) <==> Ended(items, i, m - 1) by {
        assert forall j :: 0 <= j < n ==> items[..n][j] == items[j];
      }
    }
  }

  /** What one more line adds to the cue of marker `i`. */
  lemma GatheredStep(items: seq<Item>, i: nat, multiline: Option<set<nat>>)
    requires |items| > 0 && i < |items| - 1 && items[i].Numbered?
    ensures var n := |items| - 1;
            var text := Gathered(items[..n], i, n, multiline);
            Gathered(items, i, n + 1, multiline) ==
              if items[n].Prose? && LastMarker(items[..n], i) && items[n].text != [] && Continues(multiline, items[i].n)
              then Append(text, items[n].text) else text
  {
    hide Append, Continues, Gathered;
    var n := |items| - 1;
    GatheredPrefix(items, i, n, n, multiline);
    GatheredNext(items, i, n + 1, multiline);
    LastOrEnded(items, i, n);
  }

  lemma GatheredNext(items: seq<Item>, i: nat, m: nat, multiline: Option<set<nat>>)
    requires i + 1 < m <= |items| && items[i].Numbered?
    ensures var text, more := Gathered(items, i, m - 1, multiline), items[m - 1];
            Gathered(items, i, m, multiline) ==
              if more.Prose? && !Ended(items, i, m - 1) && more.text != [] && Continues(multiline, items[i].n)
              then Append(text, more.text) else text
  {
    hide Append, Continues, Ended;
  }

  lemma LastOrEnded(items: seq<Item>, i: nat, n: nat)
    requires i < n <= |items| && items[i].Numbered?
    ensures LastMarker(items[..n], i) <==> !Ended(items, i, n)
  {
    assert forall j :: 0 <= j < n ==> items[..n][j] == items[j];
  }

  lemma DistinctPrefix(items: seq<Item>)
    requires |items| > 0 && DistinctNumbers(items)
    ensures DistinctNumbers(items[..|items| - 1])
  {
    assert forall i :: 0 <= i < |items| - 1 ==> items[..|items| - 1][i] == items[i];
  }

  lemma ScanNumber(items: seq<Item>, multiline: Option<set<nat>>, s: Scan, m: Item)
    requires Scanned(items, multiline, s) && m.Numbered? && m.n !in s.parsed
    requires s.current.Some? ==> s.current.value in s.parsed
    ensures ScanItem(s, m, multiline) == Scan(s.parsed[m.n := m.text], Some(m.n), None)
  {
    hide Gathered;
  }

  lemma {:induction false} ScanIs(items: seq<Item>, multiline: Option<set<nat>>)
    requires DistinctNumbers(items)
    ensures Scanned(items, multiline, ScanAll(items, multiline))
  {
    if |items| > 0 {
      hide ScanItem, Scanned, DistinctNumbers;
      var n := |items| - 1;
      DistinctPrefix(items);
      ScanIs(items[..n], multiline);
      var s := ScanAll(items[..n], multiline);
      if items[n].Numbered? {
        FreshNumber(items, multiline, s);
        ScanNumber(items[..n], multiline, s, items[n]);
        MarkerStep(items, multiline, s);
      } else {
        ProseStep(items, multiline, s);
      }
    }
  }

  lemma FreshNumber(items: seq<Item>, multiline: Option<set<nat>>, s: Scan)
    requires |items| > 0 && Scanned(items[..|items| - 1], multiline, s) && items[|items| - 1].Numbered?
    ensures DistinctNumbers(items) ==> items[|items| - 1].n !in s.parsed
  {
    hide Gathered;
    var front := items[..|items| - 1];
    assert forall i :: MarkerOf(front, i, items[|items| - 1].n) ==> front[i] == items[i] && items[i].n == items[|items| - 1].n;
  }

  /** The current cue is the one of the last marker. */
  lemma CurrentIsLast(items: seq<Item>, multiline: Option<set<nat>>, s: Scan, i: nat)
    requires Scanned(items, multiline, s) && DistinctNumbers(items) && i < |items| && items[i].Numbered?
    ensures s.current.Some? && s.duplicate.None?
    ensures LastMarker(items, i) <==> s.current == Some(items[i].n)
  {
    hide Gathered;
    assert s.current.Some?;
    var last :| LastMarker(items, last) && items[last].n == s.current.value;
    assert i != last ==> items[i].n != items[last].n && !LastMarker(items, i);
  }

  lemma TextsStep(items: seq<Item>, multiline: Option<set<nat>>, s: Scan, i: nat)
    requires |items| > 0 && Scanned(items[..|items| - 1], multiline, s) && DistinctNumbers(items)
    requires s.current.Some? ==> s.current.value in s.parsed
    requires i < |items| && items[i].Numbered? && items[|items| - 1].Prose?
    ensures var r := ScanItem(s, items[|items| - 1], multiline);
            items[i].n in r.parsed && r.parsed[items[i].n] == Gathered(items, i, |items|, multiline)
  {
    hide *;
    var n := |items| - 1;
    var front := items[..n];
    assert front[i] == items[i];
    ScannedAt(front, multiline, s, i);
    DistinctPrefix(items);
    CurrentIsLast(front, multiline, s, i);
    GatheredStep(items, i, multiline);
    ProseEffect(s, items[n], items[i].n, multiline);
  }

  lemma ScannedAt(items: seq<Item>, multiline: Option<set<nat>>, s: Scan, i: nat)
    requires Scanned(items, multiline, s) && i < |items| && items[i].Numbered?
    ensures items[i].n in s.parsed && s.parsed[items[i].n] == Gathered(items, i, |items|, multiline)
  {
    hide Gathered;
  }

  /** A line without a marker reaches the current cue only. */
  lemma ProseEffect(s: Scan, item: Item, n: nat, multiline: Option<set<nat>>)
    requires item.Prose? && s.duplicate.None? && n in s.parsed && s.current.Some? && s.current.value in s.parsed
    ensures var r := ScanItem(s, item, multiline);
            n in r.parsed && r.parsed[n] == if s.current == Some(n) && item.text != [] && Continues(multiline, n)
                                            then Append(s.parsed[n], item.text) else s.parsed[n]
  {
    hide Append, Continues;
  }

  /** A line without a marker touches the last cue only. */
  lemma ProseStep(items: seq<Item>, multiline: Option<set<nat>>, s: Scan)
    requires |items| > 0 && Scanned(items[..|items| - 1], multiline, s) && DistinctNumbers(items)
    requires s.current.Some? ==> s.current.value in s.parsed
    requires items[|items| - 1].Prose?
    ensures Scanned(items, multiline, ScanItem(s, items[|items| - 1], multiline))
  {
    hide Gathered, Append, Continues, DistinctNumbers;
    var n := |items| - 1;
    var front := items[..n];
    var r := ScanItem(s, items[n], multiline);
    assert r.duplicate.None? && r.current == s.current && r.parsed.Keys == s.parsed.Keys;
    hide ScanItem;
    assert forall j :: 0 <= j < n ==> front[j] == items[j];
    forall i | 0 <= i < |items| && items[i].Numbered?
      ensures items[i].n in r.parsed && r.parsed[items[i].n] == Gathered(items, i, |items|, multiline)
    {
      TextsStep(items, multiline, s, i);
    }
    if s.current.Some? {
      var i :| LastMarker(front, i) && front[i].n == s.current.value;
      assert LastMarker(items, i);
    }
    forall k | k in r.parsed
      ensures exists i :: MarkerOf(items, i, k)
    {
      var i :| MarkerOf(front, i, k);
      assert MarkerOf(items, i, k);
    }
  }

  lemma MarkerStep(items: seq<Item>, multiline: Option<set<nat>>, s: Scan)
    requires |items| > 0 && Scanned(items[..|items| - 1], multiline, s) && items[|items| - 1].Numbered?
    requires items[|items| - 1].n !in s.parsed
    ensures var m := items[|items| - 1]; Scanned(items, multiline, Scan(s.parsed[m.n := m.text], Some(m.n), None))
  {
    var n := |items| - 1;
    var front, m := items[..n], items[n];
    var r := Scan(s.parsed[m.n := m.text], Some(m.n), None);
    assert forall j :: 0 <= j < n ==> front[j] == items[j];
    forall i | 0 <= i < |items| && items[i].Numbered?
      ensures items[i].n in r.parsed && r.parsed[items[i].n] == Gathered(items, i, |items|, multiline)
    {
      if i < n {
        GatheredStep(items, i, multiline);
      }
    }
    hide Gathered;
    forall k | k in r.parsed
      ensures exists i :: MarkerOf(items, i, k)
    {
      if k != m.n {
        var i :| MarkerOf(front, i, k);
        assert MarkerOf(items, i, k);
      } else {
        assert MarkerOf(items, n, k);
      }
    }
    assert LastMarker(items, n);
  }

  lemma {:induction false} RepeatIsDuplicate(items: seq<Item>, multiline: Option<set<nat>>)
    requires !DistinctNumbers(items)
    ensures ScanAll(items, multiline).duplicate.Some?
  {
    var n := |items| - 1;
    var front := items[..n];
    assert forall i :: 0 <= i < n ==> front[i] == items[i];
    hide Gathered;
    if !DistinctNumbers(front) {
      RepeatIsDuplicate(front, multiline);
    } else {
      ScanIs(front, multiline);
      var i, j :| 0 <= i < j < |items| && items[i].Numbered? && items[j].Numbered? && items[i].n == items[j].n;
      assert j == n && front[i] == items[i];
      assert front[i].n in ScanAll(front, multiline).parsed;
    }
  }

  // ---- acceptance ------------------------------------------------------------------------

  predicate HasContent(text: string) { Strip(text) != [] }

  lemma {:induction false} CollectIff(parsed: map<nat, string>, n: nat)
    ensures Collect(parsed, n).Texts? <==> forall k :: 1 <= k <= n ==> k in parsed && HasContent(Clean(parsed[k]))
    ensures Collect(parsed, n).Texts? ==> |Collect(parsed, n).texts| == n
    ensures Collect(parsed, n).Texts? ==> forall k :: 1 <= k <= n ==> k in parsed && Collect(parsed, n).texts[k - 1] == Clean(parsed[k])
  {
    hide Clean, Strip;
    if n > 0 {
      CollectIff(parsed, n - 1);
    }
  }

  /** Cue `k` has a marker, and content after cleaning. */
  ghost predicate Answered(items: seq<Item>, multiline: Option<set<nat>>, k: nat)
  {
    exists i :: MarkerOf(items, i, k) && HasContent(Clean(Gathered(items, i, |items|, multiline)))
  }

  ghost predicate InRange(items: seq<Item>, expected: nat)
  {
    forall i :: 0 <= i < |items| && items[i].Numbered? ==> 1 <= items[i].n <= expected
  }

  /** A reply is accepted exactly when its marker numbers are 1 to `expected`, once each, in any
      order, each with content left after cleaning; and each cue then gets the cleaned text of its
      own marker. */
  lemma AcceptedIff(items: seq<Item>, expected: nat, multiline: Option<set<nat>>)
    ensures var r := ReadItems(items, expected, multiline);
            && (r.Texts? <==>
                  DistinctNumbers(items) && InRange(items, expected)
                  && forall k :: 1 <= k <= expected ==> Answered(items, multiline, k))
            && (r.Texts? ==> |r.texts| == expected)
            && (r.Texts? ==> forall i :: 0 <= i < |items| && items[i].Numbered? && 1 <= items[i].n <= expected ==>
                  r.texts[items[i].n - 1] == Clean(Gathered(items, i, |items|, multiline)))
  {
    hide Clean, HasContent, Gathered, Collect, ScanAll, Scanned, DistinctNumbers, InRange, Answered;
    if !DistinctNumbers(items) {
      RepeatIsDuplicate(items, multiline);
    } else {
      ScanIs(items, multiline);
      var s := ScanAll(items, multiline);
      CollectIff(s.parsed, expected);
      ScannedTexts(items, multiline, s);
      RangeOfKeys(items, multiline, s, expected);
      AnsweredKeys(items, multiline, s, expected);
    }
  }

  lemma ScannedTexts(items: seq<Item>, multiline: Option<set<nat>>, s: Scan)
    requires Scanned(items, multiline, s)
    ensures s.duplicate.None?
    ensures forall i :: 0 <= i < |items| && items[i].Numbered? ==>
      items[i].n in s.parsed && s.parsed[items[i].n] == Gathered(items, i, |items|, multiline)
  {
    hide Gathered;
  }

  lemma RangeOfKeys(items: seq<Item>, multiline: Option<set<nat>>, s: Scan, expected: nat)
    requires Scanned(items, multiline, s)
    ensures InRange(items, expected) <==> !exists n :: n in s.parsed && (n < 1 || n > expected)
  {
    hide Gathered;
    assert forall i :: 0 <= i < |items| && items[i].Numbered? ==> items[i].n in s.parsed;
    assert forall n :: n in s.parsed ==> exists i :: MarkerOf(items, i, n);
  }

  lemma AnsweredKeys(items: seq<Item>, multiline: Option<set<nat>>, s: Scan, expected: nat)
    requires Scanned(items, multiline, s)
    ensures forall k :: 1 <= k <= expected ==>
      (Answered(items, multiline, k) <==> k in s.parsed && HasContent(Clean(s.parsed[k])))
  {
    hide Gathered, Clean, HasContent;
  }

  // ---- prose -----------------------------------------------------------------------------

  function OnlyMarkers(items: seq<Item>): seq<Item>
  {
    if |items| == 0 then []
    else
      var front := OnlyMarkers(items[..|items| - 1]);
      if items[|items| - 1].Numbered? then front + [items[|items| - 1]] else front
  }

  /** With no multi-line cue, every unnumbered line of the reply is ignored. */
  lemma ProseIgnored(items: seq<Item>, expected: nat)
    ensures ReadItems(items, expected, Some({})) == ReadItems(OnlyMarkers(items), expected, Some({}))
  {
    ProseUnscanned(items);
  }

  lemma {:induction false} ProseUnscanned(items: seq<Item>)
    ensures ScanAll(items, Some({})) == ScanAll(OnlyMarkers(items), Some({}))
  {
    if |items| > 0 {
      var front := OnlyMarkers(items[..|items| - 1]);
      var last := items[|items| - 1];
      ProseUnscanned(items[..|items| - 1]);
      if last.Numbered? {
        assert (front + [last])[..|front|] == front;
      }
    }
  }
}
