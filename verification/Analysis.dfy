/** Pass 1: merging one episode's inferred analysis into the Bible, step by step, where any single
    store call may fail. */
module Analysis {
  import opened Options
  import opened Text
  import opened BibleStore
  import opened BibleTables
  import opened Attribution

  datatype CharacterInference = CharacterInference(
    latin: string, gender: Option<string>, age: Option<string>, role: Option<string>,
    script: Option<string>, rendering: Option<string>)
  datatype TermInference = TermInference(source: string, rendering: string, category: Option<string>)
  datatype PairInference = PairInference(speaker: string, addressee: string, selfTerm: string, addressTerm: string)
  datatype EventInference = EventInference(a: string, b: string)

  datatype BibleAnalysis = BibleAnalysis(
    register: Option<string>,
    characters: seq<CharacterInference>,
    terms: seq<TermInference>,
    pairs: seq<PairInference>,
    events: seq<EventInference>)

  /** The calls that may raise; each failing write leaves the store as it was. */
  datatype Call =
    | RegisterCall | FirstLoad | CharacterCall(i: nat) | TermCall(i: nat) | SecondLoad | NameLockCall(i: nat)
    | PairCall(i: nat) | EventCall(i: nat)

  function OrEmpty(o: Option<string>): string
  {
    if o.Some? then o.value else ""
  }

  // ---- planning locked name terms --------------------------------------------------------

  /** A term row as the planner reads it. */
  datatype TermView = TermView(source: string, rendering: string, locked: bool)

  /** A name term to create and lock; `latinKey` is the character it stands for. */
  datatype NameSpec = NameSpec(source: string, rendering: string, latinKey: string)

  predicate IsCjk(c: char)
  {
    '\U{3040}' <= c <= '\U{9FFF}' || '\U{3400}' <= c <= '\U{4DBF}'
  }

  predicate HasCjk(s: string)
  {
    exists k :: 0 <= k < |s| && IsCjk(s[k])
  }

  datatype TermIndex = TermIndex(sources: set<string>, renderings: map<string, string>, locked: set<string>)

  function IndexTerm(ix: TermIndex, t: TermView, lower: string -> string): TermIndex
  {
    var src := Strip(t.source);
    if src == [] then ix else
      var key := lower(src);
      TermIndex(ix.sources + {key},
                if Strip(t.rendering) != [] then ix.renderings[key := Strip(t.rendering)] else ix.renderings,
                if t.locked then ix.locked + {key} else ix.locked)
  }

  function IndexTerms(terms: seq<TermView>, lower: string -> string): TermIndex
  {
    if |terms| == 0 then TermIndex({}, map[], {})
    else IndexTerm(IndexTerms(terms[..|terms| - 1], lower), terms[|terms| - 1], lower)
  }

  /** Renderings locked under a script (CJK) source. */
  function LockedScriptRenderings(terms: seq<TermView>, locked: set<string>, lower: string -> string): set<string>
  {
    if |terms| == 0 then {} else
      var front := LockedScriptRenderings(terms[..|terms| - 1], locked, lower);
      var t := terms[|terms| - 1];
      var src := Strip(t.source);
      if t.locked && lower(src) in locked && HasCjk(src) && Strip(t.rendering) != []
      then front + {lower(Strip(t.rendering))} else front
  }

  /** A character whose script form, or whose rendering, is already locked counts as locked. */
  function LinkLocks(chars: seq<CharacterInference>, locked: set<string>, scripts: set<string>, lower: string -> string): (r: set<string>)
    ensures locked <= r
  {
    if |chars| == 0 then locked else
      var front := LinkLocks(chars[..|chars| - 1], locked, scripts, lower);
      var c := chars[|chars| - 1];
      var latin, script, rendering := Strip(c.latin), Strip(OrEmpty(c.script)), Strip(OrEmpty(c.rendering));
      if latin != [] && ((script != [] && lower(script) in front) || (rendering != [] && lower(rendering) in scripts))
      then front + {lower(latin)} else front
  }

  datatype Plan = Plan(specs: seq<NameSpec>, seen: set<string>, locked: set<string>)

  function PlanOne(p: Plan, c: CharacterInference, ix: TermIndex, lower: string -> string): Plan
  {
    var latin := Strip(c.latin);
    if latin == [] || lower(latin) in p.locked then p else
      var script, rendering := Strip(OrEmpty(c.script)), Strip(OrEmpty(c.rendering));
      var canonical := if lower(latin) in ix.renderings && ix.renderings[lower(latin)] != [] then ix.renderings[lower(latin)]
                       else if rendering != [] then rendering else latin;
      var source := if script != [] then script else latin;
      var key := lower(source);
      if key in ix.sources || key in p.seen then p
      else Plan(p.specs + [NameSpec(source, canonical, lower(latin))], p.seen + {key}, p.locked + {lower(latin)})
  }

  function PlanFrom(chars: seq<CharacterInference>, start: Plan, ix: TermIndex, lower: string -> string): Plan
  {
    if |chars| == 0 then start
    else PlanOne(PlanFrom(chars[..|chars| - 1], start, ix, lower), chars[|chars| - 1], ix, lower)
  }

  function PlanNames(chars: seq<CharacterInference>, terms: seq<TermView>, lower: string -> string): seq<NameSpec>
  {
    var ix := IndexTerms(terms, lower);
    var locked := LinkLocks(chars, ix.locked, LockedScriptRenderings(terms, ix.locked, lower), lower);
    PlanFrom(chars, Plan([], {}, locked), ix, lower).specs
  }

  lemma {:induction false} IndexedTerm(terms: seq<TermView>, k: nat, lower: string -> string)
    requires k < |terms| && Strip(terms[k].source) != []
    ensures lower(Strip(terms[k].source)) in IndexTerms(terms, lower).sources
    ensures terms[k].locked ==> lower(Strip(terms[k].source)) in IndexTerms(terms, lower).locked
  {
    hide Strip;
    if k < |terms| - 1 {
      IndexedTerm(terms[..|terms| - 1], k, lower);
    }
  }

  method IndexExisting(terms: seq<TermView>, lower: string -> string) returns (ix: TermIndex)
    ensures ix == IndexTerms(terms, lower)
  {
    hide Strip;
    var sources: set<string>, renderings: map<string, string>, locked: set<string> := {}, map[], {};
    for i := 0 to |terms|
      invariant TermIndex(sources, renderings, locked) == IndexTerms(terms[..i], lower)
    {
      assert terms[..i + 1][..i] == terms[..i];
      var src := Strip(terms[i].source);
      if src == [] {
        continue;
      }
      sources := sources + {lower(src)};
      if Strip(terms[i].rendering) != [] {
        renderings := renderings[lower(src) := Strip(terms[i].rendering)];
      }
      if terms[i].locked {
        locked := locked + {lower(src)};
      }
    }
    assert terms[..|terms|] == terms;
    ix := TermIndex(sources, renderings, locked);
  }

  method ScriptRenderings(terms: seq<TermView>, locked: set<string>, lower: string -> string) returns (scripts: set<string>)
    ensures scripts == LockedScriptRenderings(terms, locked, lower)
  {
    hide Strip, HasCjk;
    scripts := {};
    for i := 0 to |terms|
      invariant scripts == LockedScriptRenderings(terms[..i], locked, lower)
    {
      assert terms[..i + 1][..i] == terms[..i];
      var src := Strip(terms[i].source);
      if terms[i].locked && lower(src) in locked && HasCjk(src) && Strip(terms[i].rendering) != [] {
        scripts := scripts + {lower(Strip(terms[i].rendering))};
      }
    }
    assert terms[..|terms|] == terms;
  }

  method LinkedLocks(chars: seq<CharacterInference>, known: set<string>, scripts: set<string>, lower: string -> string)
    returns (locked: set<string>)
    ensures locked == LinkLocks(chars, known, scripts, lower)
  {
    hide Strip;
    locked := known;
    for i := 0 to |chars|
      invariant locked == LinkLocks(chars[..i], known, scripts, lower)
    {
      assert chars[..i + 1][..i] == chars[..i];
      var latin := Strip(chars[i].latin);
      if latin == [] {
        continue;
      }
      var script, rendering := Strip(OrEmpty(chars[i].script)), Strip(OrEmpty(chars[i].rendering));
      if script != [] && lower(script) in locked {
        locked := locked + {lower(latin)};
      } else if rendering != [] && lower(rendering) in scripts {
        locked := locked + {lower(latin)};
      }
    }
    assert chars[..|chars|] == chars;
  }

  method PlanCharacterNameTerms(chars: seq<CharacterInference>, terms: seq<TermView>, lower: string -> string)
    returns (specs: seq<NameSpec>)
    ensures specs == PlanNames(chars, terms, lower)
  {
    hide Strip, IndexTerms, LinkLocks, LockedScriptRenderings;
    var ix := IndexExisting(terms, lower);
    var scripts := ScriptRenderings(terms, ix.locked, lower);
    var locked := LinkedLocks(chars, ix.locked, scripts, lower);
    ghost var start := Plan([], {}, locked);
    specs := [];
    var seen: set<string> := {};
    for i := 0 to |chars|
      invariant Plan(specs, seen, locked) == PlanFrom(chars[..i], start, ix, lower)
    {
      assert chars[..i + 1][..i] == chars[..i];
      var latin := Strip(chars[i].latin);
      if latin == [] || lower(latin) in locked {
        continue;
      }
      var script, rendering := Strip(OrEmpty(chars[i].script)), Strip(OrEmpty(chars[i].rendering));
      var canonical := latin;
      if lower(latin) in ix.renderings && ix.renderings[lower(latin)] != [] {
        canonical := ix.renderings[lower(latin)];
      } else if rendering != [] {
        canonical := rendering;
      }
      var source := if script != [] then script else latin;
      if lower(source) in ix.sources || lower(source) in seen {
        continue;
      }
      specs := specs + [NameSpec(source, canonical, lower(latin))];
      seen := seen + {lower(source)};
      locked := locked + {lower(latin)};
    }
    assert chars[..|chars|] == chars;
  }

  /** The planner's keys are new to the dictionary and distinct, and no spec stands for a character
      whose name is locked already. */
  ghost predicate FreshPlan(p: Plan, locked: set<string>, ix: TermIndex, lower: string -> string)
  {
    && locked <= p.locked
    && (forall i :: 0 <= i < |p.specs| ==>
          p.specs[i].source != [] && Strip(p.specs[i].source) == p.specs[i].source
          && lower(p.specs[i].source) in p.seen && lower(p.specs[i].source) !in ix.sources
          && p.specs[i].latinKey in p.locked && p.specs[i].latinKey !in locked)
    && (forall i, j :: 0 <= i < j < |p.specs| ==>
          lower(p.specs[i].source) != lower(p.specs[j].source) && p.specs[i].latinKey != p.specs[j].latinKey)
  }

  lemma {:induction false} PlanFresh(chars: seq<CharacterInference>, start: Plan, ix: TermIndex, lower: string -> string)
    requires start.specs == [] && start.seen == {}
    ensures FreshPlan(PlanFrom(chars, start, ix, lower), start.locked, ix, lower)
  {
    hide Strip;
    if |chars| > 0 {
      var c := chars[|chars| - 1];
      PlanFresh(chars[..|chars| - 1], start, ix, lower);
      StripTrimmed(c.latin);
      StripTrimmed(OrEmpty(c.script));
    }
  }

  // ---- the merge, step by step -----------------------------------------------------------

  datatype CharacterFold = CharacterFold(bible: Bible, nameToId: map<string, nat>, failures: nat)

  function CharacterProposals(c: CharacterInference): seq<Proposal>
  {
    [Proposal(Gender, c.gender), Proposal(RoughAge, c.age), Proposal(Role, c.role)]
  }

  /** One character: upserted, and indexed under its Latin and its script name. */
  function MergeCharacter(st: CharacterFold, i: nat, c: CharacterInference, rules: NameRules, episode: string, faults: set<Call>): CharacterFold
    requires Valid(st.bible)
  {
    var (b, id) := UpsertCharacter(st.bible, rules, c.latin, CharacterProposals(c), Inference, Some(episode));
    if CharacterCall(i) in faults || id.None? then st.(failures := st.failures + 1)
    else
      var named := st.nameToId[rules.lower(Strip(c.latin)) := id.value];
      CharacterFold(b, if c.script.Some? && Strip(c.script.value) != [] then named[rules.lower(Strip(c.script.value)) := id.value]
                       else named, st.failures)
  }

  function MergeCharacters(start: CharacterFold, chars: seq<CharacterInference>, rules: NameRules, episode: string,
                           faults: set<Call>): (r: CharacterFold)
    requires Valid(start.bible)
    ensures Valid(r.bible) && r.failures <= start.failures + |chars|
  {
    if |chars| == 0 then start else
      var front := MergeCharacters(start, chars[..|chars| - 1], rules, episode, faults);
      var c := chars[|chars| - 1];
      UpsertCharacterSafe(front.bible, rules, c.latin, CharacterProposals(c), Inference, Some(episode));
      MergeCharacter(front, |chars| - 1, c, rules, episode, faults)
  }

  function MergeTerms(b: Bible, terms: seq<TermInference>, rules: NameRules, episode: string, faults: set<Call>): (r: Bible)
    requires Valid(b)
    ensures Valid(r)
  {
    if |terms| == 0 then b else
      var front := MergeTerms(b, terms[..|terms| - 1], rules, episode, faults);
      var t := terms[|terms| - 1];
      UpsertTermSafe(front, rules, t.source, Some(t.rendering), t.category, Inference, Some(episode));
      if TermCall(|terms| - 1) in faults then front
      else UpsertTerm(front, rules, t.source, Some(t.rendering), t.category, Inference, Some(episode))
  }

  function TermViews(b: Bible): (r: seq<TermView>)
    requires Valid(b)
    ensures |r| == |b.termSources| && forall i :: 0 <= i < |r| ==> r[i].source == b.termSources[i]
  {
    seq(|b.termSources|, i requires 0 <= i < |b.termSources| =>
      var row := b.rows[Term(i + 1)];
      TermView(b.termSources[i], OrEmpty(row.Get(Rendering)), Rendering in row.locked))
  }

  /** The auto-lock step, which goes through the lock-bypassing human edit. */
  function LockNames(b: Bible, specs: seq<NameSpec>, faults: set<Call>): (r: Bible)
    requires Valid(b)
    ensures Valid(r)
  {
    if |specs| == 0 then b else
      var front := LockNames(b, specs[..|specs| - 1], faults);
      var s := specs[|specs| - 1];
      EditTermBySourceEffect(front, s.source, s.rendering, true);
      var edited := EditTermBySource(front, s.source, s.rendering, true);
      if NameLockCall(|specs| - 1) in faults || edited.None? then front else edited.value
  }

  function Lookup(nameToId: map<string, nat>, rules: NameRules, name: string): Option<nat>
  {
    if rules.lower(Strip(name)) in nameToId then Some(nameToId[rules.lower(Strip(name))])
    else if rules.alias(name) in nameToId then Some(nameToId[rules.alias(name)])
    else None
  }

  function PairKey(p: PairInference, nameToId: map<string, nat>, rules: NameRules): (r: Option<EntityId>)
    ensures r.Some? ==> r.value.Pair?
  {
    var speaker, addressee := Lookup(nameToId, rules, p.speaker), Lookup(nameToId, rules, p.addressee);
    if speaker.Some? && addressee.Some? then Some(Pair(speaker.value, addressee.value)) else None
  }

  /** Create-or-affirm: a pair that was in the Bible when the merge began is offered nothing. */
  function PairOffer(p: PairInference, known: bool, episode: string): seq<Proposal>
  {
    if known then PairProposals(None, None, None)
    else PairProposals(Some(p.selfTerm), Some(p.addressTerm), Some(episode))
  }

  datatype PairFold = PairFold(bible: Bible, attempts: nat, failures: nat)

  function MergePair(st: PairFold, i: nat, p: PairInference, nameToId: map<string, nat>, known: set<EntityId>,
                     rules: NameRules, episode: string, faults: set<Call>): PairFold
  {
    var key := PairKey(p, nameToId, rules);
    if key.None? then st
    else if PairCall(i) in faults then PairFold(st.bible, st.attempts + 1, st.failures + 1)
    else PairFold(UpsertPair(st.bible, key.value, PairOffer(p, key.value in known, episode), Inference, Some(episode)),
                  st.attempts + 1, st.failures)
  }

  function MergePairs(b: Bible, pairs: seq<PairInference>, nameToId: map<string, nat>, known: set<EntityId>,
                      rules: NameRules, episode: string, faults: set<Call>): PairFold
  {
    if |pairs| == 0 then PairFold(b, 0, 0)
    else MergePair(MergePairs(b, pairs[..|pairs| - 1], nameToId, known, rules, episode, faults),
                   |pairs| - 1, pairs[|pairs| - 1], nameToId, known, rules, episode, faults)
  }

  function MergeEvents(b: Bible, events: seq<EventInference>, nameToId: map<string, nat>, rules: NameRules,
                       episode: string, faults: set<Call>): Bible
  {
    if |events| == 0 then b else
      var front := MergeEvents(b, events[..|events| - 1], nameToId, rules, episode, faults);
      var ev := events[|events| - 1];
      var a, c := Lookup(nameToId, rules, ev.a), Lookup(nameToId, rules, ev.b);
      if a.None? || c.None? || EventCall(|events| - 1) in faults then front
      else RecordEvent(front, RelationshipEvent(a.value, c.value, episode))
  }

  /** The store after the merge, and whether it ended in a total-failure error. */
  datatype Outcome = Outcome(bible: Bible, raised: bool)

  function MergeRegister(b: Bible, register: Option<string>, episode: string, faults: set<Call>): Bible
  {
    if Strip(OrEmpty(register)) == [] || RegisterCall in faults then b
    else MergeInferred(b, Series, [Proposal(Register, Some(Strip(OrEmpty(register))))], Inference, Some(episode))
  }

  /** All pairs stored when the merge begins, or none if that read failed. */
  function KnownPairs(b: Bible, faults: set<Call>): set<EntityId>
  {
    if FirstLoad in faults then {} else set p | p in b.rows && p.Pair?
  }

  function SeedNames(b: Bible, rules: NameRules, faults: set<Call>): map<string, nat>
  {
    if FirstLoad in faults then map[] else NameIndex(b.characterNames, rules.lower)
  }

  /** How many of the first `n` term writes fail. */
  function TermFailures(n: nat, faults: set<Call>): (r: nat)
    ensures r <= n
  {
    if n == 0 then 0 else TermFailures(n - 1, faults) + (if TermCall(n - 1) in faults then 1 else 0)
  }

  function LockStep(b: Bible, chars: seq<CharacterInference>, rules: NameRules, faults: set<Call>): (r: Bible)
    requires Valid(b)
    ensures Valid(r)
  {
    LockNames(b, PlanNames(chars, if SecondLoad in faults then [] else TermViews(b), rules.lower), faults)
  }

  function MergeAnalysis(b: Bible, a: BibleAnalysis, episode: string, rules: NameRules, enableEvents: bool,
                         faults: set<Call>): Outcome
    requires Valid(b)
  {
    var registered := MergeRegister(b, a.register, episode, faults);
    MergeInferredSafe(b, Series, [Proposal(Register, Some(Strip(OrEmpty(a.register))))], Inference, Some(episode));
    var known := KnownPairs(registered, faults);
    var chars := MergeCharacters(CharacterFold(registered, SeedNames(registered, rules, faults), 0), a.characters, rules, episode, faults);
    if |a.characters| > 0 && chars.failures == |a.characters| then Outcome(chars.bible, true)
    else
      var terms := MergeTerms(chars.bible, a.terms, rules, episode, faults);
      if |a.terms| > 0 && TermFailures(|a.terms|, faults) == |a.terms| then Outcome(terms, true)
      else
        var locked := LockStep(terms, a.characters, rules, faults);
        var pairs := MergePairs(locked, a.pairs, chars.nameToId, known, rules, episode, faults);
        if pairs.attempts > 0 && pairs.failures == pairs.attempts then Outcome(pairs.bible, true)
        else Outcome(if enableEvents then MergeEvents(pairs.bible, a.events, chars.nameToId, rules, episode, faults)
                     else pairs.bible, false)
  }
}
