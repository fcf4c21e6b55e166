/** The dictionary over whole runs: a rendering that is not blank stays until a person, an import or an
    upsert that is no inference replaces it. */
module Renderings {
  import opened Options
  import opened Text
  import opened BibleStore
  import opened Analysis
  import opened AnalysisLaws
  import opened Reconcile
  import opened ReconcileLaws
  import opened Episodes

  /** Terms keep their places, and every stored term whose rendering is not blank keeps that. */
  ghost predicate RenderingsKept(b: Bible, c: Bible)
  {
    && b.termSources <= c.termSources
    && forall e: EntityId :: e.Term? && e in b.rows && Rendered(b.rows[e]) ==>
      e in c.rows && c.rows[e].Get(Rendering) == b.rows[e].Get(Rendering)
  }

  ghost predicate TermsKept(b: Bible, c: Bible)
  {
    && b.termSources <= c.termSources
    && forall e: EntityId :: e.Term? && e in b.rows ==> e in c.rows && c.rows[e] == b.rows[e]
  }

  lemma KeptTransitive(b: Bible, c: Bible, d: Bible)
    requires RenderingsKept(b, c) && RenderingsKept(c, d)
    ensures RenderingsKept(b, d)
  {
    forall e: EntityId | e.Term? && e in b.rows && Rendered(b.rows[e])
      ensures e in d.rows && d.rows[e].Get(Rendering) == b.rows[e].Get(Rendering)
    {
      assert Rendered(c.rows[e]);
    }
  }

  lemma TermsKeptRenderings(b: Bible, c: Bible)
    requires TermsKept(b, c)
    ensures RenderingsKept(b, c)
  {
    hide Rendered;
  }

  // ---- the merge of an episode -----------------------------------------------------------

  lemma InferredTermKeeps(b: Bible, rules: NameRules, sourceTerm: string, rendering: Option<string>,
                          category: Option<string>, episode: Option<string>)
    requires Valid(b)
    ensures RenderingsKept(b, UpsertTerm(b, rules, sourceTerm, rendering, category, Inference, episode))
  {
    hide UpsertTerm, TermTouched, Rendered, Valid;
    UpsertTermEffect(b, rules, sourceTerm, rendering, category, Inference, episode);
  }

  lemma {:induction false} MergeTermsKeeps(b: Bible, terms: seq<TermInference>, rules: NameRules, episode: string, faults: set<Call>)
    requires Valid(b)
    ensures RenderingsKept(b, MergeTerms(b, terms, rules, episode, faults))
  {
    hide UpsertTerm, RenderingsKept, Valid;
    if |terms| == 0 {
      assert RenderingsKept(b, b) by { TermsKeptRenderings(b, b); }
    } else {
      var n := |terms| - 1;
      MergeTermsKeeps(b, terms[..n], rules, episode, faults);
      var front := MergeTerms(b, terms[..n], rules, episode, faults);
      if TermCall(n) !in faults {
        InferredTermKeeps(front, rules, terms[n].source, Some(terms[n].rendering), terms[n].category, Some(episode));
        KeptTransitive(b, front, MergeTerms(b, terms, rules, episode, faults));
      }
    }
  }

  lemma UpsertCharacterKeeps(b: Bible, rules: NameRules, name: string, props: seq<Proposal>, source: Source, episode: Option<string>)
    requires Valid(b)
    ensures TermsKept(b, UpsertCharacter(b, rules, name, props, source, episode).0)
  {
    hide Matches, Propose, Provided, Valid, Strip;
  }

  lemma TermsKeptSelf(b: Bible)
    ensures TermsKept(b, b)
  {
  }

  lemma MergeCharacterKeeps(st: CharacterFold, i: nat, c: CharacterInference, rules: NameRules, episode: string, faults: set<Call>)
    requires Valid(st.bible)
    ensures TermsKept(st.bible, MergeCharacter(st, i, c, rules, episode, faults).bible)
  {
    hide TermsKept, UpsertCharacter, CharacterProposals, Strip, Valid;
    UpsertCharacterKeeps(st.bible, rules, c.latin, CharacterProposals(c), Inference, Some(episode));
    TermsKeptSelf(st.bible);
  }

  lemma {:induction false} MergeCharactersKeeps(start: CharacterFold, chars: seq<CharacterInference>, rules: NameRules,
                                                episode: string, faults: set<Call>)
    requires Valid(start.bible)
    ensures TermsKept(start.bible, MergeCharacters(start, chars, rules, episode, faults).bible)
  {
    hide MergeCharacter, Valid;
    if |chars| > 0 {
      var n := |chars| - 1;
      MergeCharactersKeeps(start, chars[..n], rules, episode, faults);
      MergeCharacterKeeps(MergeCharacters(start, chars[..n], rules, episode, faults), n, chars[n], rules, episode, faults);
    }
  }

  lemma {:induction false} MergePairsKeeps(b: Bible, pairs: seq<PairInference>, nameToId: map<string, nat>, known: set<EntityId>,
                                           rules: NameRules, episode: string, faults: set<Call>)
    ensures TermsKept(b, MergePairs(b, pairs, nameToId, known, rules, episode, faults).bible)
  {
    hide PairKey, PairOffer, Propose, Provided;
    if |pairs| > 0 {
      MergePairsKeeps(b, pairs[..|pairs| - 1], nameToId, known, rules, episode, faults);
    }
  }

  lemma MergeRegisterKeeps(b: Bible, register: Option<string>, episode: string, faults: set<Call>)
    ensures TermsKept(b, MergeRegister(b, register, episode, faults))
  {
    hide Propose;
  }

  lemma {:induction false} MergeEventsKeeps(b: Bible, events: seq<EventInference>, nameToId: map<string, nat>, rules: NameRules,
                                            episode: string, faults: set<Call>)
    ensures TermsKept(b, MergeEvents(b, events, nameToId, rules, episode, faults))
  {
    hide Lookup;
    if |events| > 0 {
      MergeEventsKeeps(b, events[..|events| - 1], nameToId, rules, episode, faults);
    }
  }

  lemma {:induction false} LockNamesGrow(b: Bible, specs: seq<NameSpec>, faults: set<Call>)
    requires Valid(b)
    ensures b.termSources <= LockNames(b, specs, faults).termSources
  {
    hide EditTermBySource, Valid;
    if |specs| > 0 {
      var n := |specs| - 1;
      LockNamesGrow(b, specs[..n], faults);
      EditTermBySourceEffect(LockNames(b, specs[..n], faults), specs[n].source, specs[n].rendering, true);
    }
  }

  lemma LockStepKeeps(b: Bible, chars: seq<CharacterInference>, rules: NameRules, faults: set<Call>)
    requires Valid(b) && SecondLoad !in faults
    ensures TermsKept(b, LockStep(b, chars, rules, faults))
  {
    LockNamesGrow(b, PlanNames(chars, TermViews(b), rules.lower), faults);
    LockStepOnlyCreates(b, chars, rules, faults);
    hide LockNames, Valid, PlanNames, TermViews;
  }

  /** With the dictionary read, no merge of an analysis changes a rendering that is not blank, locked or
      not. */
  lemma MergeKeepsRenderings(b: Bible, a: BibleAnalysis, episode: string, rules: NameRules, enableEvents: bool, faults: set<Call>)
    requires Valid(b) && SecondLoad !in faults
    ensures RenderingsKept(b, MergeAnalysis(b, a, episode, rules, enableEvents, faults).bible)
  {
    hide Valid, MergeRegister, MergeCharacters, MergeTerms, LockStep, MergePairs, MergeEvents, RenderingsKept, TermsKept,
         LocksHold, SamePairs, AuditSound;
    var registered := MergeRegister(b, a.register, episode, faults);
    MergeRegisterSafe(b, a.register, episode, faults);
    MergeRegisterKeeps(b, a.register, episode, faults);
    TermsKeptRenderings(b, registered);
    var start := CharacterFold(registered, SeedNames(registered, rules, faults), 0);
    var chars := MergeCharacters(start, a.characters, rules, episode, faults);
    MergeCharactersKeeps(start, a.characters, rules, episode, faults);
    Then(b, registered, chars.bible);
    var terms := MergeTerms(chars.bible, a.terms, rules, episode, faults);
    MergeTermsKeeps(chars.bible, a.terms, rules, episode, faults);
    KeptTransitive(b, chars.bible, terms);
    var locked := LockStep(terms, a.characters, rules, faults);
    LockStepKeeps(terms, a.characters, rules, faults);
    Then(b, terms, locked);
    var pairs := MergePairs(locked, a.pairs, chars.nameToId, KnownPairs(registered, faults), rules, episode, faults);
    MergePairsKeeps(locked, a.pairs, chars.nameToId, KnownPairs(registered, faults), rules, episode, faults);
    Then(b, locked, pairs.bible);
    MergeEventsKeeps(pairs.bible, a.events, chars.nameToId, rules, episode, faults);
    Then(b, pairs.bible, MergeEvents(pairs.bible, a.events, chars.nameToId, rules, episode, faults));
  }

  lemma Then(b: Bible, c: Bible, d: Bible)
    requires RenderingsKept(b, c) && TermsKept(c, d)
    ensures RenderingsKept(b, d)
  {
    TermsKeptRenderings(c, d);
    KeptTransitive(b, c, d);
  }

  // ---- whole runs ------------------------------------------------------------------------

  lemma {:induction false} UpsertAllKeeps(b: Bible, writes: map<EntityId, seq<Proposal>>, order: seq<EntityId>, episode: string)
    ensures TermsKept(b, UpsertAll(b, writes, order, episode))
  {
    hide Propose, Provided;
    if |order| > 0 {
      UpsertAllKeeps(b, writes, order[..|order| - 1], episode);
    }
  }

  /** An op that may replace the rendering of term `e` with this source text: a merge or an edit of that
      row, an edit by that source text, or an upsert of it that is no inference. */
  predicate Rewrites(op: Op, e: EntityId, source: string, rules: NameRules)
  {
    match op
    case ApiTerm(t, _, _, s) => s != Inference && rules.sqlLower(source) == rules.lower(Strip(t))
    case ApiMerge(d, _, _) => d == e
    case HumanEdit(d, f, _, _) => d == e && f == Rendering
    case HumanTerm(t, _, _) => t == source
    case _ => false
  }

  lemma OtherTermEdited(b: Bible, t: string, r: string, lock: bool, e: EntityId)
    requires Valid(b) && e.Term? && e in b.rows && 1 <= e.id <= |b.termSources| && b.termSources[e.id - 1] != t
    ensures var c := EditTermBySource(b, t, r, lock);
            c.Some? ==> b.termSources <= c.value.termSources && e in c.value.rows && c.value.rows[e] == b.rows[e]
  {
    EditTermBySourceEffect(b, t, r, lock);
    hide Valid, Matches;
  }

  lemma InferenceMerged(row: Row, after: Row, rendering: Option<string>, category: Option<string>)
    requires TermMerged(row, after, rendering, category, Inference) && Rendered(row)
    ensures after.Get(Rendering) == row.Get(Rendering)
  {
    hide Rendered;
  }

  lemma OtherTermUpserted(b: Bible, rules: NameRules, op: Op, e: EntityId)
    requires Valid(b) && e.Term? && e in b.rows && 1 <= e.id <= |b.termSources| && op.ApiTerm?
    requires Rendered(b.rows[e]) && !Rewrites(op, e, b.termSources[e.id - 1], rules)
    ensures var c := UpsertTerm(b, rules, op.term, op.rendering, op.category, op.source, None);
            b.termSources <= c.termSources && e in c.rows && c.rows[e].Get(Rendering) == b.rows[e].Get(Rendering)
  {
    hide UpsertTerm, TermTouched, Rendered, Valid, Strip, TermMerged, TermInserted;
    var c, t := UpsertTerm(b, rules, op.term, op.rendering, op.category, op.source, None), TermTouched(b, rules, op.term);
    UpsertTermEffect(b, rules, op.term, op.rendering, op.category, op.source, None);
    if t == e {
      TermFound(b, rules, op.term);
      InferenceMerged(b.rows[e], c.rows[e], op.rendering, op.category);
    }
  }

  lemma StepKeepsRendering(b: Bible, op: Op, rules: NameRules, e: EntityId)
    requires Good(b) && WellFormed(op) && ReadsDictionary(op)
    requires e.Term? && e in b.rows && Rendered(b.rows[e]) && 1 <= e.id <= |b.termSources|
    requires !Rewrites(op, e, b.termSources[e.id - 1], rules)
    ensures b.termSources <= Step(b, op, rules).termSources
    ensures e in Step(b, op, rules).rows && Step(b, op, rules).rows[e].Get(Rendering) == b.rows[e].Get(Rendering)
  {
    hide Valid, AuditSound, MergeAnalysis, UpsertTerm, UpsertAll, Rendered, Matches, Propose, Provided, Writes, Strip;
    match op
    case Translate(ep) =>
      var merged := MergeAnalysis(b, ep.analysis, ep.key, rules, ep.settings.enableEvents, ep.faults);
      MergeKeepsRenderings(b, ep.analysis, ep.key, rules, ep.settings.enableEvents, ep.faults);
      if !merged.raised {
        UpsertAllKeeps(merged.bible, Writes(ContextOf(merged.bible, ep, rules)), ep.order, ep.key);
      }
    case ApiCharacter(n, props, s) =>
    case ApiTerm(t, r, c, s) => OtherTermUpserted(b, rules, op, e);
    case ApiPair(p, props, s) =>
    case ApiMerge(d, props, s) =>
    case HumanEdit(d, f, v, lock) =>
    case HumanTerm(t, r, lock) => OtherTermEdited(b, t, r, lock, e);
    case HumanPair(p, s, a, lock) => if p in b.rows { EditPairEffect(b, p, s, a, lock); }
  }

  /** The dictionary's promise.  Over any run, of any episodes with any analyses, whose merges could read
      the dictionary, and any other traffic that does not set it, a rendering that is not blank stays what
      it is, whether or not it is locked. */
  lemma {:induction false} RenderingsNeverDrift(b: Bible, ops: seq<Op>, rules: NameRules, e: EntityId)
    requires Good(b) && e.Term? && e in b.rows && Rendered(b.rows[e]) && 1 <= e.id <= |b.termSources|
    requires forall op :: op in ops ==> WellFormed(op) && ReadsDictionary(op) && !Rewrites(op, e, b.termSources[e.id - 1], rules)
    ensures b.termSources <= Run(b, ops, rules).termSources
    ensures e in Run(b, ops, rules).rows && Run(b, ops, rules).rows[e].Get(Rendering) == b.rows[e].Get(Rendering)
  {
    hide Step, Rewrites;
    if |ops| > 0 {
      var front := Run(b, ops[..|ops| - 1], rules);
      RenderingsNeverDrift(b, ops[..|ops| - 1], rules, e);
      assert front.termSources[e.id - 1] == b.termSources[e.id - 1];
      StepKeepsRendering(front, ops[|ops| - 1], rules, e);
    }
  }
}
