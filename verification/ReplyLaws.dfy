/** Why a reply is refused, and what a review reply does to each cue. */
module ReplyLaws {
  import opened Options
  import opened Text
  import opened Subtitles
  import Sentinel
  import SentinelLaws
  import opened NumberedLines
  import opened NumberedLaws
  import opened Conversation
  import BlankReplies

  // ---- refusals of the parser ------------------------------------------------------------

  /** The first marker whose number stood on an earlier one. */
  ghost predicate FirstRepeat(items: seq<Item>, j: nat)
  {
    j < |items| && items[j].Numbered? && DistinctNumbers(items[..j])
    && exists i :: 0 <= i < j && items[i].Numbered? && items[i].n == items[j].n
  }

  lemma {:induction false} DuplicateIs(items: seq<Item>, multiline: Option<set<nat>>)
    ensures var d := ScanAll(items, multiline).duplicate;
            if DistinctNumbers(items) then d.None? else exists j: nat :: FirstRepeat(items, j) && d == Some(items[j].n)
  {
    hide Gathered;
    if DistinctNumbers(items) {
      ScanIs(items, multiline);
    } else {
      var n := |items| - 1;
      var front := items[..n];
      DuplicateIs(front, multiline);
      assert forall i :: 0 <= i < n ==> front[i] == items[i];
      hide ScanItem;
      if DistinctNumbers(front) {
        RepeatIsDuplicate(items, multiline);
        RepeatAtEnd(items, multiline);
      } else {
        var j: nat :| FirstRepeat(front, j) && ScanAll(front, multiline).duplicate == Some(front[j].n);
        assert front[..j] == items[..j];
        assert FirstRepeat(items, j);
        StaysDuplicate(ScanAll(front, multiline), items[n], multiline);
      }
    }
  }

  lemma StaysDuplicate(s: Scan, item: Item, multiline: Option<set<nat>>)
    requires s.duplicate.Some? && (s.current.Some? ==> s.current.value in s.parsed)
    ensures ScanItem(s, item, multiline) == s
  {
  }

  lemma RepeatAtEnd(items: seq<Item>, multiline: Option<set<nat>>)
    requires |items| > 0 && DistinctNumbers(items[..|items| - 1]) && !DistinctNumbers(items)
    requires ScanAll(items, multiline).duplicate.Some?
    ensures FirstRepeat(items, |items| - 1) && ScanAll(items, multiline).duplicate == Some(items[|items| - 1].n)
  {
    var n := |items| - 1;
    ScanIs(items[..n], multiline);
    hide Gathered;
    assert forall i :: 0 <= i < n ==> items[..n][i] == items[i];
  }

  /** Cue `k` is the first one without a marker of its number, or without content under it. */
  ghost predicate FirstUnanswered(items: seq<Item>, multiline: Option<set<nat>>, expected: nat, k: nat)
  {
    1 <= k <= expected && !Answered(items, multiline, k) && forall m :: 1 <= m < k ==> Answered(items, multiline, m)
  }

  lemma {:induction false} CollectRefuses(parsed: map<nat, string>, n: nat)
    ensures Collect(parsed, n).Rejected? ==>
      exists k: nat :: 1 <= k <= n && !(k in parsed && HasContent(Clean(parsed[k])))
        && (forall m :: 1 <= m < k ==> m in parsed && HasContent(Clean(parsed[m])))
        && Collect(parsed, n).why == if k in parsed then Empty(k) else Missing(k)
  {
    hide Clean, Strip;
    if n > 0 {
      CollectRefuses(parsed, n - 1);
      if Collect(parsed, n - 1).Rejected? {
        var k: nat :| 1 <= k <= n - 1 && !(k in parsed && HasContent(Clean(parsed[k])))
          && (forall m :: 1 <= m < k ==> m in parsed && HasContent(Clean(parsed[m])))
          && Collect(parsed, n - 1).why == if k in parsed then Empty(k) else Missing(k);
        assert Collect(parsed, n).why == if k in parsed then Empty(k) else Missing(k);
      } else {
        CollectIff(parsed, n - 1);
      }
    }
  }

  /** What a refused reply is refused for: the first repeated number; with none repeated, any number out of
      range; with all in range, the first cue without a marker or without content. */
  lemma RefusedFor(items: seq<Item>, expected: nat, multiline: Option<set<nat>>)
    requires ReadItems(items, expected, multiline).Rejected?
    ensures var why := ReadItems(items, expected, multiline).why;
            if !DistinctNumbers(items) then exists j: nat :: FirstRepeat(items, j) && why == Duplicate(items[j].n)
            else if !InRange(items, expected) then why == Unexpected
            else exists k: nat :: FirstUnanswered(items, multiline, expected, k)
                                  && why == if exists i :: MarkerOf(items, i, k) then Empty(k) else Missing(k)
  {
    hide Clean, HasContent, Gathered, Collect, ScanAll, Scanned, DistinctNumbers, InRange, Answered, FirstRepeat;
    DuplicateIs(items, multiline);
    if DistinctNumbers(items) {
      ScanIs(items, multiline);
      var s := ScanAll(items, multiline);
      ScannedTexts(items, multiline, s);
      RangeOfKeys(items, multiline, s, expected);
      AnsweredKeys(items, multiline, s, expected);
      MarkedKeys(items, multiline, s);
      CollectRefuses(s.parsed, expected);
      if InRange(items, expected) {
        var k: nat :| 1 <= k <= expected && !(k in s.parsed && HasContent(Clean(s.parsed[k])))
          && (forall m :: 1 <= m < k ==> m in s.parsed && HasContent(Clean(s.parsed[m])))
          && Collect(s.parsed, expected).why == if k in s.parsed then Empty(k) else Missing(k);
        assert FirstUnanswered(items, multiline, expected, k);
      }
    }
  }

  lemma MarkedKeys(items: seq<Item>, multiline: Option<set<nat>>, s: Scan)
    requires Scanned(items, multiline, s)
    ensures forall k: nat :: k in s.parsed <==> exists i :: MarkerOf(items, i, k)
  {
    hide Gathered;
  }

  // ---- refusals of a batch ---------------------------------------------------------------

  lemma {:induction false} FirstLost(texts: seq<string>, maps: seq<seq<Sentinel.Entry>>)
    requires |texts| == |maps|
    ensures ReinsertAll(texts, maps).Bad? ==>
      exists k: nat :: k < |texts| && ReinsertAll(texts, maps).defect == LostToken(k) && !Sentinel.Reinsert(texts[k], maps[k]).1
                       && forall m :: 0 <= m < k ==> Sentinel.Reinsert(texts[m], maps[m]).1
  {
    hide Sentinel.Reinsert;
    if |texts| > 0 {
      var n := |texts| - 1;
      FirstLost(texts[..n], maps[..n]);
      assert forall k :: 0 <= k < n ==> texts[..n][k] == texts[k] && maps[..n][k] == maps[k];
      if ReinsertAll(texts[..n], maps[..n]).Good? {
        BlankReplies.ReinsertedAt(texts[..n], maps[..n]);
      } else {
        var k: nat :| k < n && ReinsertAll(texts[..n], maps[..n]).defect == LostToken(k)
          && !Sentinel.Reinsert(texts[..n][k], maps[..n][k]).1
          && forall m :: 0 <= m < k ==> Sentinel.Reinsert(texts[..n][m], maps[..n][m]).1;
        assert !Sentinel.Reinsert(texts[k], maps[k]).1;
      }
    }
  }

  /** A reply is no valid batch for what the parser refuses it for, or for the first cue whose tags did not
      all come back; and it is one if and only if neither is the case, each cue then carrying its own text
      with its own tags. */
  lemma JudgedFor(p: Prepared, raw: string)
    requires |p.cleaned| == |p.maps|
    ensures var parsed, r := Read(raw, |p.cleaned|, Some(Multiline(p.cleaned))), Judge(p, raw);
            && (r.Good? <==> parsed.Texts? && forall k :: 0 <= k < |p.maps| ==> Sentinel.Reinsert(parsed.texts[k], p.maps[k]).1)
            && (r.Good? ==> forall k :: 0 <= k < |p.maps| ==> r.texts[k] == Sentinel.Reinsert(parsed.texts[k], p.maps[k]).0)
            && (parsed.Rejected? ==> r == Bad(Structure(parsed.why)))
            && (parsed.Texts? && r.Bad? ==>
                  exists k: nat :: k < |p.maps| && r.defect == LostToken(k) && !Sentinel.Reinsert(parsed.texts[k], p.maps[k]).1
                                   && forall m :: 0 <= m < k ==> Sentinel.Reinsert(parsed.texts[m], p.maps[m]).1)
  {
    hide Read, Sentinel.Reinsert, Multiline, ReinsertAll;
    var parsed := Read(raw, |p.cleaned|, Some(Multiline(p.cleaned)));
    if parsed.Texts? {
      BlankReplies.ReinsertedAt(parsed.texts, p.maps);
      FirstLost(parsed.texts, p.maps);
    }
  }

  // ---- a review reply --------------------------------------------------------------------

  /** What a review makes of a batch.  It keeps the batch if the call raised, the reply could not be read or
      a cue would lose a tag; else each cue takes its line of the reply, except that a line of scaffolding
      leaves its cue as it is. */
  lemma ReviewedCues(cues: seq<SubLine>, reply: Conversation.Reply, scaffold: string -> bool, k: nat)
    requires k < |cues| && Reviewed(Prepare(cues), reply, scaffold).Some?
    ensures reply.Said?
    ensures var p := Prepare(cues);
            var parsed := Read(reply.text, |cues|, Some(Multiline(p.cleaned)));
            var r := Reviewed(p, reply, scaffold).value;
            && parsed.Texts? && |r| == |cues|
            && (scaffold(parsed.texts[k]) && !Sentinel.HasToken(cues[k].text) ==> r[k] == cues[k].text)
            && (!scaffold(parsed.texts[k]) ==> (r[k], true) == Sentinel.Reinsert(parsed.texts[k], Sentinel.Keyed(Sentinel.Tags(cues[k].text), 0)))
  {
    var p := Prepare(cues);
    hide Read, Sentinel.Reinsert, Multiline, ReinsertAll, Sentinel.HasToken, Sentinel.Clean, Sentinel.Keyed, Sentinel.Tags;
    var parsed := Read(reply.text, |p.cleaned|, Some(Multiline(p.cleaned)));
    var kept := seq(|p.cleaned|, j requires 0 <= j < |p.cleaned| =>
      if scaffold(parsed.texts[j]) then p.cleaned[j] else parsed.texts[j]);
    BlankReplies.ReinsertedAt(kept, p.maps);
    SentinelLaws.RoundTripIff(cues[k].text);
  }

  /** A cue may take continuation lines of a reply if and only if its own text, without its tags, spans
      lines. */
  lemma MultilineIff(cues: seq<SubLine>, n: nat)
    ensures n in Multiline(Prepare(cues).cleaned) <==> 1 <= n <= |cues| && '\n' in Sentinel.Clean(cues[n - 1].text, 0)
  {
    hide Sentinel.Clean;
    var cleaned := Prepare(cues).cleaned;
    if 1 <= n <= |cues| {
      var i: nat := n - 1;
      assert i + 1 in Multiline(cleaned) <==> '\n' in cleaned[i];
    }
  }
}
