/** Whole runs: any sequence of episodes, API writes and human edits over one series' Bible. */
module Episodes {
  import opened Options
  import opened BibleStore
  import opened BibleTables
  import opened Attribution
  import opened Analysis
  import opened AnalysisLaws
  import opened AnalysisPass
  import opened Reconcile
  import opened ReconcileLaws

  /** Everything the outside decides about one episode: the analysis, the attributions, the calls
      that fail, and how many of the reconciliation's writes happen, in which order. */
  datatype Episode = Episode(
    key: string,
    analysis: BibleAnalysis,
    attributions: seq<LineAttribution>,
    settings: Settings,
    faults: set<Call>,
    order: seq<EntityId>)

  /** Stored events carry no suggested terms. */
  function StoredTransitions(events: seq<RelationshipEvent>): (r: seq<Transition>)
    ensures forall t :: t in r ==> !Suggests(t)
  {
    seq(|events|, i requires 0 <= i < |events| => Transition(events[i].a, events[i].b, events[i].marker, None, None))
  }

  /** What the reconciliation of an episode reads: the Bible as the merge left it. */
  function ContextOf(b: Bible, ep: Episode, rules: NameRules): Context
  {
    Context(b.rows, b.characterNames, StoredTransitions(b.events), ep.attributions, ep.key, ep.settings, rules)
  }

  function RunEpisode(b: Bible, ep: Episode, rules: NameRules): Bible
    requires Valid(b)
  {
    var merged := MergeAnalysis(b, ep.analysis, ep.key, rules, ep.settings.enableEvents, ep.faults);
    if merged.raised then merged.bible
    else UpsertAll(merged.bible, Writes(ContextOf(merged.bible, ep, rules)), ep.order, ep.key)
  }

  datatype Op =
    | Translate(episode: Episode)
    | ApiCharacter(name: string, props: seq<Proposal>, source: Source)
    | ApiTerm(term: string, rendering: Option<string>, category: Option<string>, source: Source)
    | ApiPair(pair: EntityId, props: seq<Proposal>, source: Source)
    | ApiMerge(entity: EntityId, props: seq<Proposal>, source: Source)
    | HumanEdit(entity: EntityId, field: Field, value: Option<string>, lock: bool)
    | HumanTerm(term: string, newRendering: string, lock: bool)
    | HumanPair(pair: EntityId, selfTerm: Option<string>, addressTerm: Option<string>, lock: bool)

  /** Requests the program itself would not make. */
  predicate WellFormed(op: Op)
  {
    match op
    case ApiPair(p, _, _) => p.Pair?
    case HumanPair(p, _, _, _) => p.Pair?
    case _ => true
  }

  predicate IsHumanEdit(op: Op)
  {
    op.HumanEdit? || op.HumanTerm? || op.HumanPair?
  }

  function Step(b: Bible, op: Op, rules: NameRules): Bible
    requires Valid(b) && WellFormed(op)
  {
    match op
    case Translate(ep) => RunEpisode(b, ep, rules)
    case ApiCharacter(n, props, s) => UpsertCharacter(b, rules, n, props, s, None).0
    case ApiTerm(t, r, c, s) => UpsertTerm(b, rules, t, r, c, s, None)
    case ApiPair(p, props, s) => UpsertPair(b, p, props, s, None)
    case ApiMerge(e, props, s) => MergeInferred(b, e, props, s, None)
    case HumanEdit(e, f, v, lock) => EditField(b, e, f, v, lock)
    case HumanTerm(t, r, lock) =>
      var c := EditTermBySource(b, t, r, lock);
      if c.Some? then c.value else b
    case HumanPair(p, s, a, lock) => EditPair(b, p, s, a, lock)
  }

  lemma StepKeepsGood(b: Bible, op: Op, rules: NameRules)
    requires Good(b) && WellFormed(op)
    ensures Good(Step(b, op, rules))
  {
    hide Valid, AuditSound, UpsertCharacter, UpsertTerm, UpsertPair, MergeInferred, EditField, EditTermBySource, EditPair, MergeAnalysis;
    match op
    case Translate(ep) =>
      var merged := MergeAnalysis(b, ep.analysis, ep.key, rules, ep.settings.enableEvents, ep.faults);
      MergeKeepsGood(b, ep.analysis, ep.key, rules, ep.settings.enableEvents, ep.faults);
      UpsertAllSafe(merged.bible, Writes(ContextOf(merged.bible, ep, rules)), ep.order, ep.key);
    case ApiCharacter(n, props, s) => UpsertCharacterSafe(b, rules, n, props, s, None);
    case ApiTerm(t, r, c, s) =>
      UpsertTermSafe(b, rules, t, r, c, s, None);
      UpsertTermKeepsAudit(b, rules, t, r, c, s, None);
    case ApiPair(p, props, s) => UpsertPairSafe(b, p, props, s, None);
    case ApiMerge(e, props, s) => MergeInferredSafe(b, e, props, s, None);
    case HumanEdit(e, f, v, lock) =>
      EditFieldKeepsAudit(b, e, f, v, lock);
      EditFieldKeepsValid(b, e, f, v, lock);
    case HumanTerm(t, r, lock) =>
      EditTermBySourceEffect(b, t, r, lock);
      EditTermBySourceKeepsAudit(b, t, r, lock);
    case HumanPair(p, s, a, lock) =>
      EditPairKeepsAudit(b, p, s, a, lock);
      EditPairKeepsValid(b, p, s, a, lock);
  }

  lemma EditFieldKeepsValid(b: Bible, e: EntityId, f: Field, v: Option<string>, lock: bool)
    requires Valid(b)
    ensures Valid(EditField(b, e, f, v, lock))
  {
    if e in b.rows && f in Mergeable(e) { EditFieldEffect(b, e, f, v, lock); }
  }

  lemma EditPairKeepsValid(b: Bible, e: EntityId, selfTerm: Option<string>, addressTerm: Option<string>, lock: bool)
    requires Valid(b) && e.Pair?
    ensures Valid(EditPair(b, e, selfTerm, addressTerm, lock))
  {
    if e in b.rows { EditPairEffect(b, e, selfTerm, addressTerm, lock); }
  }

  function Run(b: Bible, ops: seq<Op>, rules: NameRules): (r: Bible)
    requires Good(b) && forall op :: op in ops ==> WellFormed(op)
    ensures Good(r)
    decreases |ops|
  {
    if |ops| == 0 then b else
      var front := Run(b, ops[..|ops| - 1], rules);
      StepKeepsGood(front, ops[|ops| - 1], rules);
      Step(front, ops[|ops| - 1], rules)
  }

  // ---- the three promises over whole runs ------------------------------------------------

  /** For every audited column (all but the rendering of terms), after any run at all, the log is a
      chain from NULL and replaying it gives the stored value. */
  lemma AuditReplays(b: Bible, ops: seq<Op>, rules: NameRules, e: EntityId, f: Field)
    requires Good(b) && forall op :: op in ops ==> WellFormed(op)
    requires Audited(e, f)
    ensures Replay(Run(b, ops, rules).audit, e, f) == Some(Value(Run(b, ops, rules), e, f))
  {
    assert Chained(Run(b, ops, rules), e, f);
  }

  /** A merge whose dictionary read succeeded. */
  predicate ReadsDictionary(op: Op)
  {
    op.Translate? ==> SecondLoad !in op.episode.faults
  }

  predicate ReadsBible(op: Op)
  {
    op.Translate? ==> FirstLoad !in op.episode.faults
  }

  lemma StepHoldsLocks(b: Bible, op: Op, rules: NameRules)
    requires Good(b) && WellFormed(op) && !IsHumanEdit(op) && ReadsDictionary(op)
    ensures LocksHold(b, Step(b, op, rules))
  {
    hide Valid, AuditSound, UpsertCharacter, UpsertTerm, UpsertPair, MergeInferred, MergeAnalysis, LocksHold;
    match op
    case Translate(ep) =>
      var merged := MergeAnalysis(b, ep.analysis, ep.key, rules, ep.settings.enableEvents, ep.faults);
      MergeHoldsLocks(b, ep.analysis, ep.key, rules, ep.settings.enableEvents, ep.faults);
      if !merged.raised {
        UpsertAllSafe(merged.bible, Writes(ContextOf(merged.bible, ep, rules)), ep.order, ep.key);
        LocksHoldTransitive(b, merged.bible, Step(b, op, rules));
      }
    case ApiCharacter(n, props, s) => UpsertCharacterSafe(b, rules, n, props, s, None);
    case ApiTerm(t, r, c, s) => UpsertTermSafe(b, rules, t, r, c, s, None);
    case ApiPair(p, props, s) => UpsertPairSafe(b, p, props, s, None);
    case ApiMerge(e, props, s) => MergeInferredSafe(b, e, props, s, None);
  }

  /** No run of upserts, merges, whole-analysis merges and reconciliations changes a locked field or
      a lock; only a human edit does. */
  lemma {:induction false} LocksSurviveRuns(b: Bible, ops: seq<Op>, rules: NameRules)
    requires Good(b)
    requires forall op :: op in ops ==> WellFormed(op) && !IsHumanEdit(op) && ReadsDictionary(op)
    ensures LocksHold(b, Run(b, ops, rules))
  {
    hide LocksHold, Step;
    if |ops| == 0 {
      LocksReflexive(b);
    } else {
      var front := Run(b, ops[..|ops| - 1], rules);
      LocksSurviveRuns(b, ops[..|ops| - 1], rules);
      StepHoldsLocks(front, ops[|ops| - 1], rules);
      LocksHoldTransitive(b, front, Run(b, ops, rules));
    }
  }

  lemma LocksReflexive(b: Bible)
    ensures LocksHold(b, b)
  {
  }

  /** An op that addresses pair `e` directly: an API upsert or a human edit of it. */
  predicate Targets(op: Op, e: EntityId)
  {
    (op.ApiPair? && op.pair == e) || (op.HumanPair? && op.pair == e)
  }

  /** One step leaves an established pair's whole row alone unless it addresses that pair. */
  lemma StepKeepsPair(b: Bible, op: Op, rules: NameRules, e: EntityId)
    requires Good(b) && WellFormed(op) && ReadsBible(op) && !Targets(op, e)
    requires op.Translate? ==> Distinct(op.episode.order)
    requires e.Pair? && e in b.rows && Established(b.rows[e])
    ensures e in Step(b, op, rules).rows && Step(b, op, rules).rows[e] == b.rows[e]
  {
    hide Valid, AuditSound, MergeAnalysis, UpsertCharacter, UpsertTerm, EditTermBySource;
    match op
    case Translate(ep) =>
      var merged := MergeAnalysis(b, ep.analysis, ep.key, rules, ep.settings.enableEvents, ep.faults);
      MergeKeepsPairs(b, ep.analysis, ep.key, rules, ep.settings.enableEvents, ep.faults);
      MergeKeepsGood(b, ep.analysis, ep.key, rules, ep.settings.enableEvents, ep.faults);
      assert e in merged.bible.rows && merged.bible.rows[e] == b.rows[e];
      if !merged.raised {
        ReconcileKeepsPair(merged.bible, ep, rules, e);
      }
    case ApiCharacter(n, props, s) => UpsertCharacterSafe(b, rules, n, props, s, None);
    case ApiTerm(t, r, c, s) => UpsertTermSafe(b, rules, t, r, c, s, None);
    case ApiPair(p, props, s) => UpsertPairRow(b, p, props, s, None);
    case ApiMerge(d, props, s) =>
    case HumanEdit(d, f, v, lock) =>
    case HumanTerm(t, r, lock) => EditTermBySourceEffect(b, t, r, lock);
    case HumanPair(p, s, a, lock) => if p in b.rows { EditPairEffect(b, p, s, a, lock); }
  }

  lemma ReconcileKeepsPair(b: Bible, ep: Episode, rules: NameRules, e: EntityId)
    requires e.Pair? && e in b.rows && Established(b.rows[e]) && Distinct(ep.order)
    ensures var c := UpsertAll(b, Writes(ContextOf(b, ep, rules)), ep.order, ep.key);
            e in c.rows && c.rows[e] == b.rows[e]
  {
    hide UpsertAll, Merged, Provided, Resolve, Kinship;
    var ctx := ContextOf(b, ep, rules);
    UpsertAllRow(b, Writes(ctx), ep.order, ep.key, e);
    EstablishedIsCarried(ctx, e);
    assert e in AllPairs(ctx);
    assert e !in Mirrors(Base(ctx));
    if e in Writes(ctx) {
      assert Writes(ctx)[e] == Resolve(ctx, e).write.value;
      SameRow(b.rows[e], RowAfter(ctx, e));
    }
  }

  /** The product's promise.  Over any run (any episodes with any analyses and attributions and any
      failing calls, any API traffic, any human edits of other rows) a pair whose two terms were
      non-empty keeps its terms, its valid-from marker and its locks, as long as nobody addresses
      that pair and each merge could read the Bible it starts from. */
  lemma {:induction false} PronounsNeverDrift(b: Bible, ops: seq<Op>, rules: NameRules, e: EntityId)
    requires Good(b)
    requires forall op :: op in ops ==> WellFormed(op) && ReadsBible(op) && !Targets(op, e)
    requires forall op :: op in ops && op.Translate? ==> Distinct(op.episode.order)
    requires e.Pair? && e in b.rows && Established(b.rows[e])
    ensures e in Run(b, ops, rules).rows && Run(b, ops, rules).rows[e] == b.rows[e]
  {
    hide Step;
    if |ops| > 0 {
      PronounsNeverDrift(b, ops[..|ops| - 1], rules, e);
      StepKeepsPair(Run(b, ops[..|ops| - 1], rules), ops[|ops| - 1], rules, e);
    }
  }

  /** And in every such episode the translation uses exactly the stored terms of that pair. */
  lemma TranslationUsesStoredTerms(b: Bible, ep: Episode, rules: NameRules, e: EntityId)
    requires e.Pair? && e in b.rows && Established(b.rows[e])
    ensures Resolved(ContextOf(b, ep, rules))[e] == TermsOf(b.rows[e])
  {
    EstablishedIsCarried(ContextOf(b, ep, rules), e);
  }

  // ---- rows that are not established -----------------------------------------------------

  /** What an episode leaves of a stored pair is what its reconciliation leaves. */
  lemma EpisodeRow(b: Bible, ep: Episode, rules: NameRules, p: EntityId)
    requires Good(b) && p.Pair? && p in b.rows && FirstLoad !in ep.faults && Distinct(ep.order)
    requires !MergeAnalysis(b, ep.analysis, ep.key, rules, ep.settings.enableEvents, ep.faults).raised
    requires var ctx := ContextOf(MergeAnalysis(b, ep.analysis, ep.key, rules, ep.settings.enableEvents, ep.faults).bible, ep, rules);
             p in Writes(ctx) ==> p in ep.order
    ensures var merged := MergeAnalysis(b, ep.analysis, ep.key, rules, ep.settings.enableEvents, ep.faults).bible;
            var after := RunEpisode(b, ep, rules);
            && p in merged.rows && merged.rows[p] == b.rows[p]
            && p in after.rows && after.rows[p] == RowAfter(ContextOf(merged, ep, rules), p)
  {
    hide Valid, AuditSound, MergeAnalysis, UpsertAll, Merged, Provided, Resolve, Kinship;
    var merged := MergeAnalysis(b, ep.analysis, ep.key, rules, ep.settings.enableEvents, ep.faults).bible;
    MergeKeepsPairs(b, ep.analysis, ep.key, rules, ep.settings.enableEvents, ep.faults);
    assert p in merged.rows && merged.rows[p] == b.rows[p];
    var ctx := ContextOf(merged, ep, rules);
    UpsertAllRow(merged, Writes(ctx), ep.order, ep.key, p);
    assert p in AllPairs(ctx) && p !in Mirrors(Base(ctx));
    assert p in Writes(ctx) <==> Resolve(ctx, p).write.Some?;
    if p in Writes(ctx) {
      assert Writes(ctx)[p] == Resolve(ctx, p).write.value;
    }
  }

  /** Events are on, the episode is known, and the store holds an event of it between the two. */
  ghost predicate EventStored(b: Bible, ep: Episode, p: EntityId)
    requires p.Pair?
  {
    ep.settings.enableEvents && ep.key != "S00E00"
    && exists i :: 0 <= i < |b.events| && b.events[i].marker == ep.key
         && ((b.events[i].a == p.speaker && b.events[i].b == p.addressee) || (b.events[i].a == p.addressee && b.events[i].b == p.speaker))
  }

  lemma EventStoredIff(b: Bible, ep: Episode, rules: NameRules, p: EntityId)
    requires p.Pair?
    ensures EventStored(b, ep, p) <==> SomeEvent(ContextOf(b, ep, rules), p)
    ensures forall k: nat :: FirstEvent(ContextOf(b, ep, rules), p, k) ==> !Suggests(ContextOf(b, ep, rules).transitions[k])
  {
    var ctx := ContextOf(b, ep, rules);
    FirstEventFound(ctx, p);
    FindsFirst(ctx.transitions, p, ep.key);
    hide Suggests, FindTransition;
    if EventStored(b, ep, p) {
      var i :| 0 <= i < |b.events| && b.events[i].marker == ep.key
        && ((b.events[i].a == p.speaker && b.events[i].b == p.addressee) || (b.events[i].a == p.addressee && b.events[i].b == p.speaker));
      assert Concerns(ctx.transitions[i], p, ep.key);
    }
  }

  /** When a stored, unlocked pair survives a completed episode with its two terms, whatever they are:
      exactly unless an event of the episode finds one of them NULL or empty and the default is another
      pair, or, without an event, a confident line finds one NULL. */
  lemma StoredPairSurvivesIff(b: Bible, ep: Episode, rules: NameRules, p: EntityId)
    requires Good(b) && p.Pair? && p in b.rows && b.rows[p].locked == {} && FirstLoad !in ep.faults && Distinct(ep.order)
    requires !MergeAnalysis(b, ep.analysis, ep.key, rules, ep.settings.enableEvents, ep.faults).raised
    requires var ctx := ContextOf(MergeAnalysis(b, ep.analysis, ep.key, rules, ep.settings.enableEvents, ep.faults).bible, ep, rules);
             p in Writes(ctx) ==> p in ep.order
    ensures var merged := MergeAnalysis(b, ep.analysis, ep.key, rules, ep.settings.enableEvents, ep.faults).bible;
            var ctx, row, after := ContextOf(merged, ep, rules), b.rows[p], RunEpisode(b, ep, rules);
            p in after.rows
            && ((after.rows[p].Get(SelfTerm) == row.Get(SelfTerm) && after.rows[p].Get(AddressTerm) == row.Get(AddressTerm))
                <==> !(EventStored(merged, ep, p) && !Established(row) && !HoldsTerms(row, DefaultFor(ctx, p)))
                     && !(!EventStored(merged, ep, p) && !HasTerms(row) && SpokenSurely(ctx, p)))
  {
    EpisodeRow(b, ep, rules, p);
    hide Good, MergeAnalysis, RunEpisode, RowAfter, Writes, DefaultFor, SpokenSurely, Distinct, FirstEvent, EventStored, Suggests;
    var merged := MergeAnalysis(b, ep.analysis, ep.key, rules, ep.settings.enableEvents, ep.faults).bible;
    StoredPairMovesIff(ContextOf(merged, ep, rules), p);
    EventStoredIff(merged, ep, rules, p);
  }

  /** An analysis that found one relationship event and nothing else. */
  function EventOnly(ev: EventInference): BibleAnalysis
  {
    BibleAnalysis(None, [], [], [], [ev])
  }

  lemma EventOnlyMerge(b: Bible, ev: EventInference, speaker: nat, addressee: nat, key: string, rules: NameRules)
    requires Valid(b)
    requires Lookup(SeedNames(b, rules, {}), rules, ev.a) == Some(speaker)
    requires Lookup(SeedNames(b, rules, {}), rules, ev.b) == Some(addressee)
    ensures MergeAnalysis(b, EventOnly(ev), key, rules, true, {})
         == Outcome(RecordEvent(b, RelationshipEvent(speaker, addressee, key)), false)
  {
    hide Valid, Lookup, SeedNames, TermViews;
    StripNothing();
    var nameToId := SeedNames(b, rules, {});
    assert MergeRegister(b, None, key, {}) == b;
    assert MergeCharacters(CharacterFold(b, nameToId, 0), [], rules, key, {}) == CharacterFold(b, nameToId, 0);
    assert MergeTerms(b, [], rules, key, {}) == b;
    NothingPlanned(b, rules);
    assert MergePairs(b, [], nameToId, KnownPairs(b, {}), rules, key, {}) == PairFold(b, 0, 0);
    assert [ev][..0] == [];
    assert MergeEvents(b, [], nameToId, rules, key, {}) == b;
  }

  lemma NothingPlanned(b: Bible, rules: NameRules)
    requires Valid(b)
    ensures LockStep(b, [], rules, {}) == b
  {
    hide Valid, TermViews;
  }

  lemma {:induction false} MatchIsFound(transitions: seq<Transition>, p: EntityId, key: string, k: nat)
    requires p.Pair? && k < |transitions| && transitions[k].marker == key
    requires transitions[k].a == p.speaker && transitions[k].b == p.addressee
    ensures FindTransition(transitions, p, key).Some?
  {
    if k > 0 {
      MatchIsFound(transitions[1..], p, key, k - 1);
    }
  }

  lemma RecordedIsFound(b: Bible, p: EntityId, key: string)
    requires p.Pair?
    ensures FindTransition(StoredTransitions(RecordEvent(b, RelationshipEvent(p.speaker, p.addressee, key)).events), p, key).Some?
  {
    hide FindTransition;
    var ev := RelationshipEvent(p.speaker, p.addressee, key);
    var events := RecordEvent(b, ev).events;
    assert events == b.events || events[|b.events|] == ev;
    var k :| 0 <= k < |events| && events[k] == ev;
    MatchIsFound(StoredTransitions(events), p, key, k);
  }

  lemma BlankEdit(b: Bible, p: EntityId)
    requires p.Pair? && p in b.rows
    ensures var c := EditPair(b, p, Some(""), Some(""), false);
            && p in c.rows && c.rows[p].Get(SelfTerm) == Some("") && c.rows[p].Get(AddressTerm) == Some("")
            && SelfTerm !in c.rows[p].locked && AddressTerm !in c.rows[p].locked
            && c.characterNames == b.characterNames
  {
    StripNothing();
  }

  /** An unlocked pair with two empty terms, and an episode that finds an event between the two. */
  lemma EmptyPairLost(b: Bible, p: EntityId, ev: EventInference, ep: Episode, rules: NameRules)
    requires Good(b) && p.Pair? && p in b.rows && b.rows[p].Get(SelfTerm) == Some("") && b.rows[p].Get(AddressTerm) == Some("")
    requires SelfTerm !in b.rows[p].locked && AddressTerm !in b.rows[p].locked
    requires ep.key != "S00E00" && ep.settings.enableEvents && ep.faults == {} && ep.analysis == EventOnly(ev)
    requires Lookup(SeedNames(b, rules, {}), rules, ev.a) == Some(p.speaker)
    requires Lookup(SeedNames(b, rules, {}), rules, ev.b) == Some(p.addressee)
    requires Distinct(ep.order) && p in ep.order
    ensures var merged := RecordEvent(b, RelationshipEvent(p.speaker, p.addressee, ep.key));
            && p in RunEpisode(b, ep, rules).rows
            && HoldsTerms(RunEpisode(b, ep, rules).rows[p], DefaultFor(ContextOf(merged, ep, rules), p))
  {
    EventOnlyMerge(b, ev, p.speaker, p.addressee, ep.key, rules);
    var merged := RecordEvent(b, RelationshipEvent(p.speaker, p.addressee, ep.key));
    var ctx := ContextOf(merged, ep, rules);
    hide MergeAnalysis, RunEpisode, RowAfter, DefaultFor, FindTransition, Writes, Lookup, SeedNames, RecordEvent, Good;
    EpisodeRow(b, ep, rules, p);
    RecordedIsFound(b, p, ep.key);
    FoundIsThere(ctx.transitions, p, ep.key);
    StoredRowAfter(ctx, p);
  }

  /** A person blanks the two terms of a pair and leaves it unlocked; then an episode runs. */
  function BlankAndTranslate(p: EntityId, ep: Episode): (run: seq<Op>)
    requires p.Pair?
    ensures forall op :: op in run ==> WellFormed(op)
  {
    [HumanPair(p, Some(""), Some(""), false), Translate(ep)]
  }

  /** A run that loses a pair without any event naming new terms: a person blanks the two terms of a
      stored pair and leaves it unlocked, and the next episode's analysis finds an event between the
      two characters.  In any Bible, the pair then holds the safe default. */
  lemma BlankedPairRun(b: Bible, p: EntityId, ev: EventInference, key: string, settings: Settings, order: seq<EntityId>,
                       rules: NameRules)
    requires Good(b) && p.Pair? && p in b.rows && key != "S00E00" && settings.enableEvents
    requires Lookup(SeedNames(b, rules, {}), rules, ev.a) == Some(p.speaker)
    requires Lookup(SeedNames(b, rules, {}), rules, ev.b) == Some(p.addressee)
    requires Distinct(order) && p in order
    ensures var ep := Episode(key, EventOnly(ev), [], settings, {}, order);
            var blanked := EditPair(b, p, Some(""), Some(""), false);
            var run := BlankAndTranslate(p, ep);
            var merged := RecordEvent(blanked, RelationshipEvent(p.speaker, p.addressee, key));
            && p in Run(b, run, rules).rows
            && HoldsTerms(Run(b, run, rules).rows[p], DefaultFor(ContextOf(merged, ep, rules), p))
  {
    hide EditPair, RunEpisode, DefaultFor, Lookup, NameIndex, Run, HoldsTerms, RecordEvent, ContextOf, Distinct, Good;
    var ep := Episode(key, EventOnly(ev), [], settings, {}, order);
    var edit := HumanPair(p, Some(""), Some(""), false);
    BlankEdit(b, p);
    RunOfTwo(b, edit, Translate(ep), rules);
    EmptyPairLost(EditPair(b, p, Some(""), Some(""), false), p, ev, ep, rules);
  }

  lemma RunOfTwo(b: Bible, first: Op, second: Op, rules: NameRules)
    requires Good(b) && WellFormed(first) && WellFormed(second)
    ensures Good(Step(b, first, rules))
    ensures Run(b, [first, second], rules) == Step(Step(b, first, rules), second, rules)
  {
    hide Valid, AuditSound, Step;
    StepKeepsGood(b, first, rules);
    assert [first, second][..1] == [first] && [first][..0] == [];
    assert Run(b, [], rules) == b;
    assert Run(b, [first], rules) == Step(b, first, rules);
  }

  /** Every established pair is looked up with its stored terms. */
  ghost predicate UsesStored(b: Bible, resolved: map<EntityId, Terms>)
  {
    forall e: EntityId :: e.Pair? && e in b.rows && Established(b.rows[e]) ==>
      e in resolved && resolved[e] == TermsOf(b.rows[e])
  }

  /** The store as the merge of an episode leaves it. */
  function MergedBy(b: Bible, ep: Episode, rules: NameRules): Analysis.Outcome
    requires Valid(b)
  {
    MergeAnalysis(b, ep.analysis, ep.key, rules, ep.settings.enableEvents, ep.faults)
  }

  /** The second half of an episode: the reconciliation against what the merge left. */
  method ReconcileEpisode(tables: Tables, ep: Episode, rules: NameRules, ghost begin: Bible)
    returns (resolved: map<EntityId, Terms>, ghost order: seq<EntityId>)
    requires Good(begin) && !MergedBy(begin, ep, rules).raised && tables.State() == MergedBy(begin, ep, rules).bible
    modifies tables
    ensures tables.State() == RunEpisode(begin, ep.(order := order), rules) && Good(tables.State())
    ensures resolved == Resolved(ContextOf(MergedBy(begin, ep, rules).bible, ep, rules))
    ensures Distinct(order) && forall p :: p in order <==> p in Writes(ContextOf(MergedBy(begin, ep, rules).bible, ep, rules))
    ensures FirstLoad !in ep.faults ==> UsesStored(begin, resolved)
  {
    hide MergeAnalysis, Resolved, Writes, UpsertAll, AuditSound, Valid;
    ghost var merged := tables.State();
    var ctx := Context(tables.rows, tables.characterNames, StoredTransitions(tables.events), ep.attributions, ep.key,
                       ep.settings, rules);
    resolved, order := ReconcileAttributions(ctx, tables);
    StepKeepsGood(begin, Translate(ep.(order := order)), rules);
    forall e: EntityId | FirstLoad !in ep.faults && e.Pair? && e in begin.rows && Established(begin.rows[e])
      ensures e in resolved && resolved[e] == TermsOf(begin.rows[e])
    {
      MergeKeepsPairs(begin, ep.analysis, ep.key, rules, ep.settings.enableEvents, ep.faults);
      CoversEveryDyad(ctx, e);
      TranslationUsesStoredTerms(merged, ep, rules, e);
    }
  }

  /** One episode as the program runs it: merge, then reconcile against what the merge left. */
  method TranslateEpisode(tables: Tables, ep: Episode, rules: NameRules)
    returns (resolved: map<EntityId, Terms>, raised: bool, ghost order: seq<EntityId>)
    requires Good(tables.State())
    modifies tables
    ensures tables.State() == RunEpisode(old(tables.State()), ep.(order := order), rules)
    ensures Good(tables.State()) && Distinct(order)
    ensures !raised && FirstLoad !in ep.faults ==> UsesStored(old(tables.State()), resolved)
  {
    hide MergeAnalysis, Resolved, Writes, UpsertAll, AuditSound, Valid;
    ghost var begin := tables.State();
    resolved, order := map[], [];
    MergeKeepsGood(begin, ep.analysis, ep.key, rules, ep.settings.enableEvents, ep.faults);
    raised := MergeBibleAnalysis(tables, ep.analysis, ep.key, rules, ep.settings.enableEvents, ep.faults);
    if !raised {
      resolved, order := ReconcileEpisode(tables, ep, rules, begin);
    }
  }
}
