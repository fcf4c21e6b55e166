/** `merge_bible_analysis` as it runs over the tables, proved to be the MergeAnalysis step. */
module AnalysisPass {
  import opened Options
  import opened Text
  import opened BibleStore
  import opened BibleTables
  import opened Attribution
  import opened Analysis

  method SeedIndex(names: seq<string>, lower: string -> string) returns (index: map<string, nat>)
    ensures index == NameIndex(names, lower)
  {
    index := map[];
    for i := 0 to |names|
      invariant index == NameIndex(names[..i], lower)
    {
      assert names[..i + 1][..i] == names[..i];
      index := index[lower(Strip(names[i])) := i + 1];
    }
    assert names[..|names|] == names;
  }

  method StepCharacter(tables: Tables, nameToId: map<string, nat>, i: nat, c: CharacterInference, rules: NameRules,
                       episode: string, faults: set<Call>)
    returns (named: map<string, nat>, failed: bool)
    requires Valid(tables.State())
    modifies tables
    ensures var r := MergeCharacter(CharacterFold(old(tables.State()), nameToId, 0), i, c, rules, episode, faults);
            tables.State() == r.bible && named == r.nameToId && r.failures == (if failed then 1 else 0)
  {
    named, failed := nameToId, true;
    if CharacterCall(i) in faults {
      return;
    }
    var props := CharacterProposals(c);
    var id := tables.UpsertCharacterRow(rules, c.latin, props, Inference, Some(episode));
    if id.None? {
      return;
    }
    failed := false;
    named := named[rules.lower(Strip(c.latin)) := id.value];
    if c.script.Some? && Strip(c.script.value) != [] {
      named := named[rules.lower(Strip(c.script.value)) := id.value];
    }
  }

  method StepCharacters(tables: Tables, seeded: map<string, nat>, chars: seq<CharacterInference>, rules: NameRules,
                        episode: string, faults: set<Call>)
    returns (nameToId: map<string, nat>, failures: nat)
    requires Valid(tables.State())
    modifies tables
    ensures CharacterFold(tables.State(), nameToId, failures)
         == MergeCharacters(CharacterFold(old(tables.State()), seeded, 0), chars, rules, episode, faults)
  {
    hide Valid, MergeCharacter;
    nameToId, failures := seeded, 0;
    ghost var start := CharacterFold(tables.State(), seeded, 0);
    for i := 0 to |chars|
      invariant CharacterFold(tables.State(), nameToId, failures) == MergeCharacters(start, chars[..i], rules, episode, faults)
    {
      assert chars[..i + 1][..i] == chars[..i];
      ghost var before := tables.State();
      ghost var names := nameToId;
      var failed;
      nameToId, failed := StepCharacter(tables, nameToId, i, chars[i], rules, episode, faults);
      FailuresAdd(before, names, failures, i, chars[i], rules, episode, faults);
      if failed {
        failures := failures + 1;
      }
    }
    assert chars[..|chars|] == chars;
  }

  lemma FailuresAdd(b: Bible, names: map<string, nat>, failures: nat, i: nat, c: CharacterInference, rules: NameRules,
                    episode: string, faults: set<Call>)
    requires Valid(b)
    ensures var one := MergeCharacter(CharacterFold(b, names, 0), i, c, rules, episode, faults);
            MergeCharacter(CharacterFold(b, names, failures), i, c, rules, episode, faults)
            == one.(failures := failures + one.failures)
  {
  }

  method StepTerms(tables: Tables, terms: seq<TermInference>, rules: NameRules, episode: string, faults: set<Call>)
    returns (failures: nat)
    requires Valid(tables.State())
    modifies tables
    ensures tables.State() == MergeTerms(old(tables.State()), terms, rules, episode, faults)
    ensures failures == TermFailures(|terms|, faults)
  {
    hide Valid, UpsertTerm;
    failures := 0;
    ghost var start := tables.State();
    for i := 0 to |terms|
      invariant tables.State() == MergeTerms(start, terms[..i], rules, episode, faults)
      invariant failures == TermFailures(i, faults)
    {
      assert terms[..i + 1][..i] == terms[..i];
      var t := terms[i];
      if TermCall(i) in faults {
        failures := failures + 1;
        continue;
      }
      tables.UpsertTermRow(rules, t.source, Some(t.rendering), t.category, Inference, Some(episode));
    }
    assert terms[..|terms|] == terms;
  }

  method LoadTerms(tables: Tables) returns (views: seq<TermView>)
    requires Valid(tables.State())
    ensures views == TermViews(tables.State())
  {
    views := [];
    for i := 0 to |tables.termSources|
      invariant views == TermViews(tables.State())[..i]
    {
      var row := tables.rows[Term(i + 1)];
      views := views + [TermView(tables.termSources[i], OrEmpty(row.Get(Rendering)), Rendering in row.locked)];
    }
  }

  /** Auto-locks go through the human edit, one transaction per name. */
  method StepNameLocks(tables: Tables, specs: seq<NameSpec>, faults: set<Call>)
    requires Valid(tables.State())
    modifies tables
    ensures tables.State() == LockNames(old(tables.State()), specs, faults)
  {
    hide Valid, EditTermBySource;
    ghost var start := tables.State();
    for i := 0 to |specs|
      invariant tables.State() == LockNames(start, specs[..i], faults)
    {
      assert specs[..i + 1][..i] == specs[..i];
      if NameLockCall(i) in faults {
        continue;
      }
      var _ := tables.HumanEditTermBySource(specs[i].source, specs[i].rendering, true);
    }
    assert specs[..|specs|] == specs;
  }

  method StepPairs(tables: Tables, pairs: seq<PairInference>, nameToId: map<string, nat>, known: set<EntityId>,
                   rules: NameRules, episode: string, faults: set<Call>)
    returns (attempts: nat, failures: nat)
    modifies tables
    ensures PairFold(tables.State(), attempts, failures)
         == MergePairs(old(tables.State()), pairs, nameToId, known, rules, episode, faults)
  {
    hide UpsertPair, Lookup;
    attempts, failures := 0, 0;
    ghost var start := tables.State();
    for i := 0 to |pairs|
      invariant PairFold(tables.State(), attempts, failures)
             == MergePairs(start, pairs[..i], nameToId, known, rules, episode, faults)
    {
      assert pairs[..i + 1][..i] == pairs[..i];
      var p := pairs[i];
      var speaker, addressee := Lookup(nameToId, rules, p.speaker), Lookup(nameToId, rules, p.addressee);
      if speaker.None? || addressee.None? {
        continue;
      }
      attempts := attempts + 1;
      if PairCall(i) in faults {
        failures := failures + 1;
        continue;
      }
      var key := Pair(speaker.value, addressee.value);
      tables.UpsertAddressPair(key, PairOffer(p, key in known, episode), Inference, Some(episode));
    }
    assert pairs[..|pairs|] == pairs;
  }

  method StepEvents(tables: Tables, events: seq<EventInference>, nameToId: map<string, nat>, rules: NameRules,
                    episode: string, faults: set<Call>)
    modifies tables
    ensures tables.State() == MergeEvents(old(tables.State()), events, nameToId, rules, episode, faults)
  {
    hide Lookup;
    ghost var start := tables.State();
    for i := 0 to |events|
      invariant tables.State() == MergeEvents(start, events[..i], nameToId, rules, episode, faults)
    {
      assert events[..i + 1][..i] == events[..i];
      var a, c := Lookup(nameToId, rules, events[i].a), Lookup(nameToId, rules, events[i].b);
      if a.None? || c.None? || EventCall(i) in faults {
        continue;
      }
      tables.RecordRelationshipEvent(RelationshipEvent(a.value, c.value, episode));
    }
    assert events[..|events|] == events;
  }

  method StepRegister(tables: Tables, register: Option<string>, episode: string, faults: set<Call>)
    modifies tables
    ensures tables.State() == MergeRegister(old(tables.State()), register, episode, faults)
  {
    var text := Strip(OrEmpty(register));
    if text != [] && RegisterCall !in faults {
      var _ := tables.MergeInferredInto(Series, [Proposal(Register, Some(text))], Inference, Some(episode));
    }
  }

  /** The two reads at the start of the merge, or nothing if they failed. */
  method ReadBible(tables: Tables, rules: NameRules, faults: set<Call>) returns (seeded: map<string, nat>, known: set<EntityId>)
    ensures seeded == SeedNames(tables.State(), rules, faults) && known == KnownPairs(tables.State(), faults)
  {
    seeded, known := map[], {};
    if FirstLoad !in faults {
      seeded := SeedIndex(tables.characterNames, rules.lower);
      known := set p | p in tables.rows && p.Pair?;
    }
  }

  method StepLocks(tables: Tables, chars: seq<CharacterInference>, rules: NameRules, faults: set<Call>)
    requires Valid(tables.State())
    modifies tables
    ensures tables.State() == LockStep(old(tables.State()), chars, rules, faults)
  {
    hide Valid, LockNames, PlanNames;
    var existing: seq<TermView> := [];
    if SecondLoad !in faults {
      existing := LoadTerms(tables);
    }
    var specs := PlanCharacterNameTerms(chars, existing, rules.lower);
    StepNameLocks(tables, specs, faults);
  }

  /** The merge in order; true is the total-failure error that quarantines the episode. */
  method MergeBibleAnalysis(tables: Tables, a: BibleAnalysis, episode: string, rules: NameRules, enableEvents: bool,
                            faults: set<Call>)
    returns (raised: bool)
    requires Valid(tables.State())
    modifies tables
    ensures Outcome(tables.State(), raised) == MergeAnalysis(old(tables.State()), a, episode, rules, enableEvents, faults)
  {
    hide Valid, MergeRegister, MergeCharacters, MergeTerms, LockStep, MergePairs, MergeEvents, TermFailures, SeedNames, KnownPairs, Merged, Provided;
    StepRegister(tables, a.register, episode, faults);
    MergeInferredSafe(old(tables.State()), Series, [Proposal(Register, Some(Strip(OrEmpty(a.register))))], Inference, Some(episode));
    assert Valid(tables.State()) by { RegisterValid(old(tables.State()), a.register, episode, faults); }
    var seeded, known := ReadBible(tables, rules, faults);
    var nameToId, charFailures := StepCharacters(tables, seeded, a.characters, rules, episode, faults);
    if |a.characters| > 0 && charFailures == |a.characters| {
      return true;
    }
    var termFailures := StepTerms(tables, a.terms, rules, episode, faults);
    if |a.terms| > 0 && termFailures == |a.terms| {
      return true;
    }
    StepLocks(tables, a.characters, rules, faults);
    var attempts, pairFailures := StepPairs(tables, a.pairs, nameToId, known, rules, episode, faults);
    if attempts > 0 && pairFailures == attempts {
      return true;
    }
    if enableEvents {
      StepEvents(tables, a.events, nameToId, rules, episode, faults);
    }
    return false;
  }

  lemma RegisterValid(b: Bible, register: Option<string>, episode: string, faults: set<Call>)
    requires Valid(b)
    ensures Valid(MergeRegister(b, register, episode, faults))
  {
    MergeInferredSafe(b, Series, [Proposal(Register, Some(Strip(OrEmpty(register))))], Inference, Some(episode));
  }
}
