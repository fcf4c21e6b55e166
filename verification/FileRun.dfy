/** A whole run on one file: the merge of its analysis, the attribution of its cues, the
    reconciliation, and the passes that write the sidecar. */
module FileRun {
  import opened Options
  import opened Text
  import opened Subtitles
  import opened BibleStore
  import opened BibleTables
  import opened Attribution
  import opened Batching
  import Analysis
  import AnalysisLaws
  import AnalysisPass
  import Reconcile
  import opened Episodes
  import Gate
  import opened Conversation
  import opened Provenance
  import opened Pipeline

  /** What Pass 1 brings: an analysis, a reply nobody could use, or an exception of the transport. */
  datatype Pass1 = Found(analysis: Analysis.BibleAnalysis) | Unusable | Unreachable

  /** A file of a known series; without one there is no Bible, no hint and no review. */
  datatype Aware = Aware(key: string, pass1: Pass1, settings: Reconcile.Settings, faults: set<Analysis.Call>)

  datatype Ready = Ready(pro: Pronouns) | Stopped | Down

  /** What a run did before the translation: its episode, and the batches and entries of the attribution. */
  datatype Prelude = Prelude(ep: Episode, batches: seq<Batch>, parts: seq<seq<LineAttribution>>)

  /** The Bible the attribution and the hints of an episode see. */
  function Snapshot(begin: Bible, ep: Episode, rules: NameRules): Bible
    requires Valid(begin)
  {
    MergedBy(begin, ep, rules).bible
  }

  /** Every cue's entry in the document-wide list is the one its own attribution batch has for it. */
  ghost predicate EntriesKnown(p: Prelude, pro: Pronouns, begin: Bible, lines: seq<SubLine>, start: nat,
                               calls: seq<seq<Message>>, replies: Oracle, cfg: Config)
    requires Valid(begin)
  {
    if cfg.attribute then
      && Flatten(BatchCues(p.batches)) == NonRaw(lines) && |p.parts| == |p.batches| && pro.flat == Flatten(p.parts)
      && Attributed(p.parts, p.batches, start, calls, replies,
                    Roster(Snapshot(begin, p.ep, pro.rules).characterNames, pro.rules.lower), pro.rules.lower, cfg)
    else pro.flat == []
  }

  /** The hints of a file are looked up in the reconciliation of its own attributions. */
  ghost predicate Resolves(p: Prelude, pro: Pronouns, begin: Bible)
    requires Valid(begin)
  {
    var merged := Snapshot(begin, p.ep, pro.rules);
    && p.ep.attributions == pro.flat
    && pro.index == NameIndex(merged.characterNames, pro.rules.lower)
    && pro.resolved == Reconcile.Resolved(ContextOf(merged, p.ep, pro.rules))
    && (Analysis.FirstLoad !in p.ep.faults ==> UsesStored(begin, pro.resolved))
  }

  /** The attribution went down at a call that raised, every call before it having been answered, or it
      made one call a batch and all were answered; switched off it makes none. */
  ghost predicate AttributionEnds(down: bool, batches: seq<Batch>, start: nat, calls: seq<seq<Message>>, replies: Oracle, cfg: Config)
  {
    if !cfg.attribute then !down && |calls| == start
    else if down then start < |calls| && replies(|calls| - 1).Raises? && AllSaid(replies, start, |calls| - 1)
    else |calls| == start + |batches| && AllSaid(replies, start, |calls|)
  }

  /** Attribution if it is on: a list for the document, or an exception. */
  method AttributeIfOn(lines: seq<SubLine>, known: set<string>, lower: string -> string, cfg: Config, llm: Llm)
    returns (flat: Option<seq<LineAttribution>>, ghost batches: seq<Batch>, ghost parts: seq<seq<LineAttribution>>)
    modifies llm
    ensures old(llm.calls) <= llm.calls && |llm.calls| - |old(llm.calls)| <= |batches|
    ensures forall k :: |old(llm.calls)| <= k < |llm.calls| ==>
              llm.calls[k] == [User(AttributePrompt(batches[k - |old(llm.calls)|], cfg))]
    ensures flat.Some? ==>
      if cfg.attribute then
        && Flatten(BatchCues(batches)) == NonRaw(lines) && |parts| == |batches| && flat.value == Flatten(parts)
        && Attributed(parts, batches, |old(llm.calls)|, llm.calls, llm.replies, known, lower, cfg)
      else flat.value == []
    ensures AttributionEnds(flat.None?, batches, |old(llm.calls)|, llm.calls, llm.replies, cfg)
  {
    hide Flatten, NonRaw, Attributed, AttributePrompt;
    if !cfg.attribute {
      return Some([]), [], [];
    }
    flat, batches, parts := AttributeDocument(lines, known, lower, cfg, llm);
  }

  /** Passes 1 and 2 and the reconciliation, over the live tables.  Whatever fails, the store is left as
      one episode step leaves it. */
  method ResolvePronouns(lines: seq<SubLine>, a: Aware, rules: NameRules, tables: Tables, cfg: Config, llm: Llm)
    returns (r: Ready, ghost p: Prelude)
    requires AnalysisLaws.Good(tables.State()) && a.pass1.Found?
    modifies tables, llm
    ensures p.ep.key == a.key && p.ep.analysis == a.pass1.analysis && p.ep.settings == a.settings && p.ep.faults == a.faults
    ensures tables.State() == RunEpisode(old(tables.State()), p.ep, rules) && AnalysisLaws.Good(tables.State())
    ensures Reconcile.Distinct(p.ep.order)
    ensures old(llm.calls) <= llm.calls && |llm.calls| - |old(llm.calls)| <= |p.batches|
    ensures forall k :: |old(llm.calls)| <= k < |llm.calls| ==>
              llm.calls[k] == [User(AttributePrompt(p.batches[k - |old(llm.calls)|], cfg))]
    ensures r.Stopped? <==> MergedBy(old(tables.State()), p.ep, rules).raised
    ensures r.Stopped? ==> llm.calls == old(llm.calls)
    ensures !r.Stopped? ==> AttributionEnds(r.Down?, p.batches, |old(llm.calls)|, llm.calls, llm.replies, cfg)
    ensures r.Ready? ==>
      && r.pro.rules == rules
      && Resolves(p, r.pro, old(tables.State()))
      && EntriesKnown(p, r.pro, old(tables.State()), lines, |old(llm.calls)|, llm.calls, llm.replies, cfg)
  {
    hide Analysis.MergeAnalysis, Reconcile.Resolved, Reconcile.UpsertAll, AuditSound, Valid, Attributed, AttributePrompt, Flatten,
         NonRaw, UsesStored, RunEpisode, Roster, NameIndex, AttributionEnds;
    ghost var begin := tables.State();
    var ep := Episode(a.key, a.pass1.analysis, [], a.settings, a.faults, []);
    p := Prelude(ep, [], []);
    var raised := AnalysisPass.MergeBibleAnalysis(tables, ep.analysis, ep.key, rules, ep.settings.enableEvents, ep.faults);
    assert Analysis.Outcome(tables.State(), raised) == MergedBy(begin, ep, rules);
    StopsAfterMerge(begin, ep, rules);
    if raised {
      return Stopped, p;
    }
    var known := set i | 0 <= i < |tables.characterNames| :: rules.lower(Strip(tables.characterNames[i]));
    assert known == Roster(tables.characterNames, rules.lower) by { RosterIs(tables.characterNames, rules.lower); }
    var index := NameIndex(tables.characterNames, rules.lower);
    var flat: Option<seq<LineAttribution>>;
    ghost var batches: seq<Batch>, parts: seq<seq<LineAttribution>>;
    flat, batches, parts := AttributeIfOn(lines, known, rules.lower, cfg, llm);
    p := Prelude(ep, batches, parts);
    if flat.None? {
      return Down, p;
    }
    var attributed := ep.(attributions := flat.value);
    var resolved: map<EntityId, Terms>;
    ghost var order: seq<EntityId>;
    resolved, order := ReconcileEpisode(tables, attributed, rules, begin);
    p := Prelude(attributed.(order := order), batches, parts);
    ContextIgnoresOrder(begin, attributed, order, rules);
    r := Ready(Pronouns(flat.value, index, rules, resolved));
  }

  /** An episode that ends after its merge is an episode whose reconciliation writes nothing. */
  lemma StopsAfterMerge(begin: Bible, ep: Episode, rules: NameRules)
    requires AnalysisLaws.Good(begin) && ep.order == []
    ensures RunEpisode(begin, ep, rules) == MergedBy(begin, ep, rules).bible
    ensures AnalysisLaws.Good(MergedBy(begin, ep, rules).bible) && Reconcile.Distinct(ep.order)
  {
    AnalysisLaws.MergeKeepsGood(begin, ep.analysis, ep.key, rules, ep.settings.enableEvents, ep.faults);
    hide Analysis.MergeAnalysis, AuditSound, Valid, Reconcile.Writes;
  }

  lemma RosterIs(names: seq<string>, lower: string -> string)
    ensures Roster(names, lower) == set i | 0 <= i < |names| :: lower(Strip(names[i]))
  {
  }

  lemma ContextIgnoresOrder(begin: Bible, ep: Episode, order: seq<EntityId>, rules: NameRules)
    requires Valid(begin)
    ensures MergedBy(begin, ep.(order := order), rules) == MergedBy(begin, ep, rules)
    ensures forall b :: ContextOf(b, ep.(order := order), rules) == ContextOf(b, ep, rules)
  {
    hide Analysis.MergeAnalysis, Valid;
  }

  // ---- hints -----------------------------------------------------------------------------

  /** The entry the attribution reached for the cue at a place among the translatable ones. */
  ghost function EntryOf(p: Prelude, pro: Pronouns, begin: Bible, start: nat, replies: Oracle, at: nat, cfg: Config): LineAttribution
    requires Valid(begin) && at < |Flatten(BatchCues(p.batches))|
  {
    var r := Locate(BatchCues(p.batches), at);
    LineEntry(replies, start + r.0, r.1, Roster(Snapshot(begin, p.ep, pro.rules).characterNames, pro.rules.lower), pro.rules.lower, cfg)
  }

  /** The hint of line `i` of batch `b` comes from the attribution of that very cue: both batches hold
      the same cue there, and the hint is the resolved pair of its entry. */
  ghost predicate HintIsOwn(p: Prelude, pro: Pronouns, begin: Bible, start: nat, replies: Oracle, cfg: Config, t: Trace,
                            b: nat, i: nat)
    requires Valid(begin) && |t.hints| == |t.batches| && b < |t.batches| && 1 <= i <= |t.batches[b].cues|
  {
    var at := Offset(BatchCues(t.batches), b) + i - 1;
    && at < |Flatten(BatchCues(p.batches))|
    && var r := Locate(BatchCues(p.batches), at);
       p.batches[r.0].cues[r.1] == t.batches[b].cues[i - 1]
       && HintAt(t.hints[b], i) == HintOf(pro.index, pro.rules, pro.resolved, EntryOf(p, pro, begin, start, replies, at, cfg))
  }

  lemma HintFromOwnAttribution(p: Prelude, pro: Pronouns, begin: Bible, lines: seq<SubLine>, start: nat,
                               calls: seq<seq<Message>>, replies: Oracle, cfg: Config, t: Trace, b: nat, i: nat)
    requires Valid(begin) && cfg.attribute && EntriesKnown(p, pro, begin, lines, start, calls, replies, cfg)
    requires Flatten(BatchCues(t.batches)) == NonRaw(lines) && |t.hints| == |t.batches|
    requires b < |t.batches| && 1 <= i <= |t.batches[b].cues|
    requires t.hints[b] == HintsOf(BatchCues(t.batches), pro.flat, pro.index, pro.rules, pro.resolved, b)
    ensures HintIsOwn(p, pro, begin, start, replies, cfg, t, b, i)
  {
    hide Flatten, NonRaw, Locate, Offset, HintOf, HintEntries, OrNone, Window, LineEntry, Roster, Snapshot, Valid;
    PartsShaped(p, pro, begin, lines, start, calls, replies, cfg);
    HintFromSameCue(lines, BatchCues(p.batches), BatchCues(t.batches), p.parts, b, i);
    var at := Offset(BatchCues(t.batches), b) + i - 1;
    WindowHint(pro.flat, Offset(BatchCues(t.batches), b), |t.batches[b].cues|, i, pro.index, pro.rules, pro.resolved);
    var r := Locate(BatchCues(p.batches), at);
    assert AttributedBatch(p.parts[r.0], p.batches[r.0], start + r.0, calls, replies,
                           Roster(Snapshot(begin, p.ep, pro.rules).characterNames, pro.rules.lower), pro.rules.lower, cfg);
  }

  lemma HintsAreOwn(p: Prelude, pro: Pronouns, begin: Bible, lines: seq<SubLine>, start: nat, calls: seq<seq<Message>>,
                    replies: Oracle, cfg: Config, t: Trace)
    requires Valid(begin) && cfg.attribute && EntriesKnown(p, pro, begin, lines, start, calls, replies, cfg)
    requires Flatten(BatchCues(t.batches)) == NonRaw(lines) && |t.hints| == |t.batches|
    requires forall b :: 0 <= b < |t.batches| ==>
               t.hints[b] == HintsOf(BatchCues(t.batches), pro.flat, pro.index, pro.rules, pro.resolved, b)
    ensures forall b: nat, i: nat :: b < |t.batches| && 1 <= i <= |t.batches[b].cues| ==>
              HintIsOwn(p, pro, begin, start, replies, cfg, t, b, i)
  {
    hide *;
    forall b: nat, i: nat | b < |t.batches| && 1 <= i <= |t.batches[b].cues|
      ensures HintIsOwn(p, pro, begin, start, replies, cfg, t, b, i)
    {
      HintFromOwnAttribution(p, pro, begin, lines, start, calls, replies, cfg, t, b, i);
    }
  }

  lemma PartsShaped(p: Prelude, pro: Pronouns, begin: Bible, lines: seq<SubLine>, start: nat, calls: seq<seq<Message>>,
                    replies: Oracle, cfg: Config)
    requires Valid(begin) && cfg.attribute && EntriesKnown(p, pro, begin, lines, start, calls, replies, cfg)
    ensures |p.parts| == |p.batches| && forall k :: 0 <= k < |p.parts| ==> |p.parts[k]| == |p.batches[k].cues|
  {
    hide Flatten, NonRaw, LineEntry, Roster, Snapshot, Valid, AttributePrompt;
    forall k | 0 <= k < |p.parts|
      ensures |p.parts[k]| == |p.batches[k].cues|
    {
      assert AttributedBatch(p.parts[k], p.batches[k], start + k, calls, replies,
                             Roster(Snapshot(begin, p.ep, pro.rules).characterNames, pro.rules.lower), pro.rules.lower, cfg);
    }
  }

  /** A cue whose own attribution names an established pair is prompted with the stored terms. */
  lemma EstablishedHint(p: Prelude, pro: Pronouns, begin: Bible, start: nat, replies: Oracle, cfg: Config, t: Trace,
                        b: nat, i: nat, e: EntityId)
    requires Valid(begin) && |t.hints| == |t.batches| && b < |t.batches| && 1 <= i <= |t.batches[b].cues|
    requires HintIsOwn(p, pro, begin, start, replies, cfg, t, b, i) && UsesStored(begin, pro.resolved)
    requires PairOf(pro.index, pro.rules, EntryOf(p, pro, begin, start, replies, Offset(BatchCues(t.batches), b) + i - 1, cfg)) == Some(e)
    requires e in begin.rows && Established(begin.rows[e])
    ensures HintAt(t.hints[b], i) == Some(Reconcile.TermsOf(begin.rows[e]))
  {
    hide Flatten, Locate, Offset, LineEntry, EntryOf, PairOf, Valid;
  }

  // ---- the whole file --------------------------------------------------------------------

  /** Every raw cue is the source's own; every other cue carries, up to its envelope, the line at its own
      place in the accepted reply its origin names. */
  ghost predicate Explained(doc: seq<SubLine>, src: seq<SubLine>, t: Trace, cfg: Config)
  {
    && Shaped(t, src, cfg.review) && |doc| == |src|
    && forall i :: 0 <= i < |src| ==>
         && doc[i].index == src[i].index && doc[i].startTc == src[i].startTc && doc[i].endTc == src[i].endTc
         && (src[i].raw.Some? ==> doc[i] == src[i])
         && (src[i].raw.None? ==>
               doc[i].raw.None? && doc[i].text == WithEnvelope(src[i], OriginText(t, src, cfg.review, i, |t.repairs|), cfg))
  }

  lemma LastExplained(t: Trace, checked: seq<SubLine>, src: seq<SubLine>, calls: seq<seq<Message>>, replies: Oracle,
                      pro: Pronouns, cfg: Config)
    requires Traced(t, checked, src, calls, replies, pro, cfg)
    ensures |t.shown| > 0 && Explained(t.shown[|t.shown| - 1], src, t, cfg)
  {
    TracedShaped(t, checked, src, calls, replies, pro, cfg);
    TracedGated(t, checked, src, calls, replies, pro, cfg);
    var k := |t.repairs|;
    forall i | 0 <= i < |src| && src[i].raw.None?
      ensures |t.shown[k]| == |src|
      ensures t.shown[k][i].text == WithEnvelope(src[i], OriginText(t, src, cfg.review, i, k), cfg)
    {
      TextOrigin(t, checked, src, calls, replies, pro, cfg, i, k);
    }
    FrameOf(t, src, calls, replies, pro, cfg);
    hide Shaped, OriginText, WithEnvelope, Traced, Gated;
  }

  lemma FrameOf(t: Trace, src: seq<SubLine>, calls: seq<seq<Message>>, replies: Oracle, pro: Pronouns, cfg: Config)
    requires Gated(src, t.shown, t.repairs, calls, replies, pro, cfg)
    ensures |t.shown| == |t.repairs| + 1
    ensures var doc := t.shown[|t.repairs|];
            |doc| == |src| && forall i :: 0 <= i < |src| ==>
              && doc[i].index == src[i].index && doc[i].startTc == src[i].startTc && doc[i].endTc == src[i].endTc
              && (src[i].raw.Some? ==> doc[i] == src[i]) && (src[i].raw.None? ==> doc[i].raw.None?)
  {
    hide RepairStep;
    assert Gate.SameFrame(src, t.shown[|t.repairs|]);
  }

  /** How a file ends.  An analysis nobody could use or a merge that raised quarantines it, an exception of
      the transport in Pass 1 or in the attribution propagates, and neither gets as far as a batch; else it
      ends as its translation does. */
  ghost predicate DocumentEnds(outcome: Pipeline.Outcome, source: SubDoc, aware: Option<Aware>, rules: NameRules, begin: Bible,
                               made: Calls, p: Prelude, pro: Pronouns, t: Trace, start: nat, calls: seq<seq<Message>>,
                               replies: Oracle, settings: Config)
    requires Valid(begin)
  {
    var ready := start + made.attribute;
    if aware.Some? && !aware.value.pass1.Found? then
      && outcome == (if aware.value.pass1.Unusable? then Quarantined(None) else Propagated) && |calls| == start
    else if aware.Some? && MergedBy(begin, p.ep, rules).raised then
      && outcome == Quarantined(None) && |calls| == start
    else if aware.Some? && made.attribute > 0 && replies(ready - 1).Raises? then
      && outcome == Propagated && |calls| == ready && AttributionEnds(true, p.batches, start, calls, replies, settings)
    else
      && ready <= |calls| && (aware.Some? ==> AttributionEnds(false, p.batches, start, calls[..ready], replies, settings))
      && (aware.None? ==> made.attribute == 0)
      && FileEnds(outcome, source, made, t, ready, calls, replies, pro, settings)
  }

  /** One file through the whole engine, for every behaviour of the model, every analysis, every failing
      store call and every exception: it ends written, quarantined or left for the next poll.  `made` counts
      the calls of each pass, `t` what was accepted, `p` what came before, `pro` the hints. */
  method TranslateDocument(source: SubDoc, aware: Option<Aware>, rules: NameRules, tables: Tables, settings: Config, llm: Llm,
                           out: Output)
    returns (outcome: Pipeline.Outcome, ghost made: Calls, ghost p: Prelude, ghost pro: Pronouns, ghost t: Trace,
             ghost checked: seq<SubLine>)
    requires AnalysisLaws.Good(tables.State())
    modifies tables, llm, out
    // The store takes exactly one episode step, or none.
    ensures AnalysisLaws.Good(tables.State())
    ensures if aware.Some? && aware.value.pass1.Found?
            then tables.State() == RunEpisode(old(tables.State()), p.ep, rules) && p.ep.analysis == aware.value.pass1.analysis
                 && p.ep.key == aware.value.key && Reconcile.Distinct(p.ep.order)
            else tables.State() == old(tables.State())
    // Calls: how many, in which order, and how each conversation begins.
    ensures old(llm.calls) <= llm.calls && |t.hints| == |t.batches|
    ensures made.attribute <= |p.batches| && made.translate <= |t.batches| * (settings.retries + 1)
    ensures made.review <= |t.reviews| && made.repair <= settings.repairs * (settings.retries + 1)
    ensures |old(llm.calls)| + made.attribute <= |llm.calls|
    ensures forall k :: |old(llm.calls)| <= k < |old(llm.calls)| + made.attribute ==>
              llm.calls[k] == [User(AttributePrompt(p.batches[k - |old(llm.calls)|], settings))]
    ensures Prompted(llm.calls, |old(llm.calls)| + made.attribute, made, t, source.lines, pro, settings)
    // Hints: from the attribution of the same cue, and the stored terms where the pair is established.
    ensures |t.shown| > 0 && aware.Some? && settings.attribute ==>
      forall b: nat, i: nat :: b < |t.batches| && 1 <= i <= |t.batches[b].cues| ==>
        HintIsOwn(p, pro, old(tables.State()), |old(llm.calls)|, llm.replies, settings, t, b, i)
    ensures |t.shown| > 0 && aware.Some? ==>
      pro.rules == rules && Resolves(p, pro, old(tables.State())) && p.ep.faults == aware.value.faults
    // What the gate sees, and what is written.
    ensures |t.shown| <= settings.repairs + 1
    ensures |t.shown| > 0 ==>
      Traced(t, checked, source.lines, llm.calls, llm.replies, pro, settings.(review := settings.review && aware.Some?))
    ensures outcome.Written? <==> |t.shown| > 0 && Gate.Validate(source.lines, t.shown[|t.shown| - 1], settings.lang) == Gate.Pass
    ensures DocumentEnds(outcome, source, aware, rules, old(tables.State()), made, p, pro, t, |old(llm.calls)|, llm.calls, llm.replies, settings)
    ensures outcome.Written? ==>
      && outcome.doc == source.(lines := t.shown[|t.shown| - 1])
      && Explained(outcome.doc.lines, source.lines, t, settings.(review := settings.review && aware.Some?))
    ensures out.written == old(out.written) + (if outcome.Written? then [outcome.doc] else [])
    ensures outcome.Quarantined? && outcome.check.Some? ==> outcome.check.value !in {1, 4, 5}
  {
    hide *;
    var cfg := settings.(review := settings.review && aware.Some?);
    t, checked, made := Trace([], [], [], [], [], 0, [], [], []), [], Calls(0, 0, 0, 0);
    pro := Pronouns([], map[], rules, map[]);
    p := Prelude(Episode("", Analysis.BibleAnalysis(None, [], [], [], []), [], Reconcile.Settings("", None, false), {}, []), [], []);
    ghost var begin, start := tables.State(), llm.calls;
    var hints := Pronouns([], map[], rules, map[]);
    NothingMade(llm.calls, t, source.lines, pro, settings);
    GoodIsValid(begin);
    if aware.Some? {
      if !aware.value.pass1.Found? {
        EndsUnread(source, aware, rules, begin, made, p, pro, t, llm.calls, llm.replies, settings);
        return (if aware.value.pass1.Unusable? then Quarantined(None) else Propagated), made, p, pro, t, checked;
      }
      var r: Ready;
      r, p := ResolvePronouns(source.lines, aware.value, rules, tables, cfg, llm);
      SameAttributePrompts(p.batches, settings, cfg);
      made := made.(attribute := |llm.calls| - |start|);
      NothingMade(llm.calls, t, source.lines, pro, settings);
      if !r.Ready? {
        EndsEarly(r, source, aware, rules, begin, made, p, pro, t, |start|, llm.calls, llm.replies, settings, cfg);
        return (if r.Stopped? then Quarantined(None) else Propagated), made, p, pro, t, checked;
      }
      hints := r.pro;
      pro := r.pro;
    }
    ghost var ready := llm.calls;
    ghost var after: Calls;
    outcome, after, t, checked := TranslateWith(source, hints, cfg, llm, out);
    made := after.(attribute := |ready| - |start|);
    EndsInFull(outcome, source, aware, rules, begin, after, made, p, pro, t, |start|, ready, llm.calls, llm.replies, settings, cfg);
    SamePrompts(llm.calls, |ready|, after, made, t, source.lines, pro, settings, cfg);
    if |t.shown| > 0 {
      LastExplained(t, checked, source.lines, llm.calls, llm.replies, pro, cfg);
      if aware.Some? && settings.attribute {
        EntriesLater(p, pro, begin, source.lines, |start|, ready, llm.calls, llm.replies, settings, cfg);
        HintsAreOwn(p, pro, begin, source.lines, |start|, llm.calls, llm.replies, settings, t);
      }
    }
  }

  lemma EndsUnread(source: SubDoc, aware: Option<Aware>, rules: NameRules, begin: Bible, made: Calls, p: Prelude, pro: Pronouns,
                   t: Trace, calls: seq<seq<Message>>, replies: Oracle, settings: Config)
    requires Valid(begin) && aware.Some? && !aware.value.pass1.Found?
    ensures DocumentEnds(if aware.value.pass1.Unusable? then Quarantined(None) else Propagated, source, aware, rules, begin, made, p,
                         pro, t, |calls|, calls, replies, settings)
  {
    hide Valid, MergedBy, AttributionEnds, FileEnds;
  }

  lemma EndsEarly(r: Ready, source: SubDoc, aware: Option<Aware>, rules: NameRules, begin: Bible, made: Calls, p: Prelude,
                  pro: Pronouns, t: Trace, start: nat, calls: seq<seq<Message>>, replies: Oracle, settings: Config, cfg: Config)
    requires Valid(begin) && aware.Some? && aware.value.pass1.Found? && !r.Ready? && cfg == settings.(review := cfg.review)
    requires start + made.attribute == |calls| && (r.Stopped? <==> MergedBy(begin, p.ep, rules).raised)
    requires r.Stopped? ==> |calls| == start
    requires r.Down? ==> AttributionEnds(true, p.batches, start, calls, replies, cfg)
    ensures DocumentEnds(if r.Stopped? then Quarantined(None) else Propagated, source, aware, rules, begin, made, p, pro, t, start,
                         calls, replies, settings)
  {
    hide Valid, MergedBy, FileEnds, AllSaid;
  }

  lemma EndsInFull(outcome: Pipeline.Outcome, source: SubDoc, aware: Option<Aware>, rules: NameRules, begin: Bible, after: Calls,
                   made: Calls, p: Prelude, pro: Pronouns, t: Trace, start: nat, ready: seq<seq<Message>>, calls: seq<seq<Message>>,
                   replies: Oracle, settings: Config, cfg: Config)
    requires Valid(begin) && cfg == settings.(review := cfg.review) && ready <= calls && start + made.attribute == |ready|
    requires made == after.(attribute := made.attribute)
    requires aware.Some? ==> aware.value.pass1.Found? && !MergedBy(begin, p.ep, rules).raised
    requires if aware.Some? then AttributionEnds(false, p.batches, start, ready, replies, cfg) else made.attribute == 0
    requires FileEnds(outcome, source, after, t, |ready|, calls, replies, pro, cfg)
    ensures DocumentEnds(outcome, source, aware, rules, begin, made, p, pro, t, start, calls, replies, settings)
  {
    hide Valid, MergedBy, FileEnds, AllSaid;
    SameFileEnds(outcome, source, after, made, t, |ready|, calls, replies, pro, settings, cfg);
    assert calls[..|ready|] == ready;
    if aware.Some? {
      LastSaid(p.batches, start, ready, replies, cfg);
    }
  }

  lemma LastSaid(batches: seq<Batch>, start: nat, calls: seq<seq<Message>>, replies: Oracle, cfg: Config)
    requires start <= |calls| && AttributionEnds(false, batches, start, calls, replies, cfg)
    ensures |calls| > start ==> replies(|calls| - 1).Said?
  {
  }

  /** Whether the review runs changes no way of ending. */
  lemma SameFileEnds(outcome: Pipeline.Outcome, source: SubDoc, after: Calls, made: Calls, t: Trace, start: nat,
                     calls: seq<seq<Message>>, replies: Oracle, pro: Pronouns, settings: Config, cfg: Config)
    requires cfg == settings.(review := cfg.review) && made == after.(attribute := made.attribute)
    requires FileEnds(outcome, source, after, t, start, calls, replies, pro, cfg)
    ensures FileEnds(outcome, source, made, t, start, calls, replies, pro, settings)
  {
    hide StuckAt, GateEnds;
    if |t.shown| == 0 {
      SameStuck(if outcome.Propagated? then Broken else Failed, t.won, t.batches, t.hints, start, calls, replies, settings, cfg);
    } else {
      SameGateEnds(outcome, source, t.shown, t.repairs, start + made.translate + made.review, calls, replies, pro, settings, cfg);
    }
  }

  lemma SameStuck(r: Pass3, won: seq<Won>, batches: seq<Batch>, hints: seq<Option<map<nat, Terms>>>, start: nat,
                  calls: seq<seq<Message>>, replies: Oracle, settings: Config, cfg: Config)
    requires cfg == settings.(review := cfg.review) && StuckAt(r, won, batches, hints, start, calls, replies, cfg)
    ensures StuckAt(r, won, batches, hints, start, calls, replies, settings)
  {
    hide Exhausted, Interrupted, Accepted;
    forall b | 0 <= b < |batches|
      ensures PromptOf(batches[b], hints[b], None, cfg) == PromptOf(batches[b], hints[b], None, settings)
    {
    }
  }

  lemma SameGateEnds(outcome: Pipeline.Outcome, source: SubDoc, shown: seq<seq<SubLine>>, repairs: seq<Repair>, start: nat,
                     calls: seq<seq<Message>>, replies: Oracle, pro: Pronouns, settings: Config, cfg: Config)
    requires cfg == settings.(review := cfg.review)
    requires GateEnds(outcome, source, shown, repairs, start, calls, replies, pro, cfg)
    ensures GateEnds(outcome, source, shown, repairs, start, calls, replies, pro, settings)
  {
    hide Gate.Validate, Exhausted, Interrupted, RepairWords, Gate.Ascending;
    var lines := shown[|repairs|];
    var v := Gate.Validate(source.lines, lines, cfg.lang);
    if v.Fail? && |source.lines| == |lines| && Gate.Ascending(v.failing, |lines|) {
      SameWords(source.lines, lines, v.failing, v.check, pro, settings, cfg);
    }
  }

  lemma GoodIsValid(b: Bible)
    requires AnalysisLaws.Good(b)
    ensures Valid(b)
  {
  }

  lemma NothingMade(calls: seq<seq<Message>>, t: Trace, src: seq<SubLine>, pro: Pronouns, cfg: Config)
    requires |t.hints| == |t.batches|
    ensures forall made: Calls :: made.translate == 0 && made.review == 0 && made.repair == 0 ==>
              Prompted(calls, |calls|, made, t, src, pro, cfg)
  {
    hide PromptSet, ReviewPrompts, RepairPrompts;
  }

  /** Whether the review runs changes no prompt. */
  lemma SameAttributePrompts(batches: seq<Batch>, settings: Config, cfg: Config)
    requires cfg == settings.(review := cfg.review)
    ensures forall b :: AttributePrompt(b, cfg) == AttributePrompt(b, settings)
  {
  }

  lemma {:induction false} SamePromptSet(batches: seq<Batch>, hints: seq<Option<map<nat, Terms>>>, settings: Config, cfg: Config, n: nat)
    requires cfg == settings.(review := cfg.review) && n <= |batches| == |hints|
    ensures PromptSet(batches, hints, cfg, n) == PromptSet(batches, hints, settings, n)
  {
    if n > 0 {
      SamePromptSet(batches, hints, settings, cfg, n - 1);
      assert PromptOf(batches[n - 1], hints[n - 1], None, cfg) == PromptOf(batches[n - 1], hints[n - 1], None, settings);
    }
  }

  lemma {:induction false} SameRepairPrompts(src: seq<SubLine>, shown: seq<seq<SubLine>>, pro: Pronouns, settings: Config,
                                             cfg: Config, n: nat)
    requires cfg == settings.(review := cfg.review) && n <= |shown|
    ensures RepairPrompts(src, shown, pro, cfg, n) == RepairPrompts(src, shown, pro, settings, n)
  {
    hide Gate.Validate, RepairWords, Gate.Ascending;
    if n > 0 {
      SameRepairPrompts(src, shown, pro, settings, cfg, n - 1);
      var v := Gate.Validate(src, shown[n - 1], cfg.lang);
      if v.Fail? && |src| == |shown[n - 1]| && Gate.Ascending(v.failing, |shown[n - 1]|) {
        SameWords(src, shown[n - 1], v.failing, v.check, pro, settings, cfg);
      }
    }
  }

  lemma SameWords(src: seq<SubLine>, lines: seq<SubLine>, failing: seq<nat>, check: nat, pro: Pronouns, settings: Config, cfg: Config)
    requires cfg == settings.(review := cfg.review) && |src| == |lines| && Gate.Ascending(failing, |lines|)
    ensures RepairWords(src, lines, failing, check, pro, cfg) == RepairWords(src, lines, failing, check, pro, settings)
  {
    hide Gate.Ascending, Prepare, ChosenHints, OrNone;
  }

  lemma SameReviewPrompts(batches: seq<Batch>, settings: Config, cfg: Config)
    requires cfg == settings.(review := cfg.review)
    ensures ReviewPrompts(batches, cfg) == ReviewPrompts(batches, settings)
  {
    assert forall b :: ReviewPrompt(b, cfg) == ReviewPrompt(b, settings);
  }

  lemma SamePrompts(calls: seq<seq<Message>>, start: nat, after: Calls, made: Calls, t: Trace, src: seq<SubLine>, pro: Pronouns,
                    settings: Config, cfg: Config)
    requires cfg == settings.(review := cfg.review) && |t.hints| == |t.batches|
    requires made == after.(attribute := made.attribute) && Prompted(calls, start, after, t, src, pro, cfg)
    ensures Prompted(calls, start, made, t, src, pro, settings)
  {
    hide PromptedBy, PromptSet, ReviewPrompts, RepairPrompts;
    SamePromptSet(t.batches, t.hints, settings, cfg, |t.batches|);
    SameReviewPrompts(t.reviews, settings, cfg);
    SameRepairPrompts(src, t.shown, pro, settings, cfg, |t.shown|);
  }

  lemma EntriesLater(p: Prelude, pro: Pronouns, begin: Bible, lines: seq<SubLine>, start: nat, calls: seq<seq<Message>>,
                     more: seq<seq<Message>>, replies: Oracle, settings: Config, cfg: Config)
    requires Valid(begin) && cfg.attribute && cfg == settings.(review := cfg.review) && calls <= more
    requires EntriesKnown(p, pro, begin, lines, start, calls, replies, cfg)
    ensures EntriesKnown(p, pro, begin, lines, start, more, replies, settings)
  {
    hide Flatten, NonRaw, Roster, Snapshot, Valid, AttributedBatch;
    var known := Roster(Snapshot(begin, p.ep, pro.rules).characterNames, pro.rules.lower);
    forall b | 0 <= b < |p.parts|
      ensures AttributedBatch(p.parts[b], p.batches[b], start + b, more, replies, known, pro.rules.lower, settings)
    {
      AttributedLater(p.parts[b], p.batches[b], start + b, calls, more, replies, known, pro.rules.lower, cfg);
      SameEntries(p.parts[b], p.batches[b], start + b, more, replies, known, pro.rules.lower, settings, cfg);
    }
  }

  lemma SameEntries(part: seq<LineAttribution>, b: Batch, k: nat, calls: seq<seq<Message>>, replies: Oracle, known: set<string>,
                    lower: string -> string, settings: Config, cfg: Config)
    requires cfg == settings.(review := cfg.review) && AttributedBatch(part, b, k, calls, replies, known, lower, cfg)
    ensures AttributedBatch(part, b, k, calls, replies, known, lower, settings)
  {
    hide Settled;
  }
}
