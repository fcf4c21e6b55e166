/** What the merge of an analysis stores, row by row and field by field. */
module AnalysisEffects {
  import opened Options
  import opened Text
  import opened BibleStore
  import opened Attribution
  import opened Analysis
  import opened AnalysisLaws

  lemma ThreeOffered(p: Proposal, q: Proposal, r: Proposal, f: Field, current: Option<string>)
    requires p.field != q.field && q.field != r.field && p.field != r.field
    ensures Offered(Provided([p, q, r]), f, current) ==
              if f == p.field && p.value.Some? then p.value
              else if f == q.field && q.value.Some? then q.value
              else if f == r.field && r.value.Some? then r.value
              else current
  {
    assert [p, q] + [r] == [p, q, r];
    ProvidedAppend([p, q], r);
    TwoOffered(p, q, f, current);
    hide Provided, Offered;
    OfferedAppend(Provided([p, q]), r, f, current);
  }

  // ---- characters ------------------------------------------------------------------------

  /** What an inference leaves of a character's row: each of the three traits it brings, unless locked. */
  ghost predicate CharacterMerged(row: Row, after: Row, c: CharacterInference)
  {
    && after.locked == row.locked
    && forall f :: after.Get(f) ==
         if f in row.locked then row.Get(f)
         else if f == Gender && c.gender.Some? then c.gender
         else if f == RoughAge && c.age.Some? then c.age
         else if f == Role && c.role.Some? then c.role
         else row.Get(f)
  }

  lemma CharacterRow(row: Row, c: CharacterInference)
    ensures CharacterMerged(row, Merged(row, Provided(CharacterProposals(c))), c)
  {
    hide Merged, Provided, Offered;
    var props := CharacterProposals(c);
    forall f
      ensures Merged(row, Provided(props)).Get(f) == if f in row.locked then row.Get(f) else Offered(Provided(props), f, row.Get(f))
    {
      MergedValue(row, Provided(props), f);
      ThreeOffered(props[0], props[1], props[2], f, row.Get(f));
    }
    forall f
      ensures Offered(Provided(props), f, row.Get(f)) ==
                if f == Gender && c.gender.Some? then c.gender
                else if f == RoughAge && c.age.Some? then c.age
                else if f == Role && c.role.Some? then c.role else row.Get(f)
    {
      ThreeOffered(props[0], props[1], props[2], f, row.Get(f));
    }
  }

  /** Whose name the stored list reads as `key`, lowest id first. */
  ghost predicate Named(names: seq<string>, key: string, fold: string -> string, id: nat)
  {
    1 <= id <= |names| && fold(names[id - 1]) == key
  }

  lemma FoundAll(names: seq<string>, key: string, fold: string -> string)
    ensures forall id: nat :: id in Matches(names, key, fold) <==> Named(names, key, fold, id)
  {
    forall id: nat | Named(names, key, fold, id)
      ensures id in Matches(names, key, fold)
    {
      MatchesAll(names, key, fold, id - 1);
    }
  }

  /** An inferred character: with one stored character of that name its traits are merged into it, with
      none it is added with them, with several the call fails and nothing changes. */
  lemma CharacterUpserted(b: Bible, rules: NameRules, c: CharacterInference, episode: string)
    requires Valid(b)
    ensures var key := rules.lower(Strip(c.latin));
            var r := UpsertCharacter(b, rules, c.latin, CharacterProposals(c), Inference, Some(episode));
            && (r.1.None? <==> exists i: nat, j: nat :: i < j && Named(b.characterNames, key, rules.sqlLower, i)
                                                        && Named(b.characterNames, key, rules.sqlLower, j))
            && (r.1.None? ==> r.0 == b)
            && forall id: nat :: r.1 == Some(id) ==>
                 if id <= |b.characterNames| then
                   && Named(b.characterNames, key, rules.sqlLower, id) && r.0.characterNames == b.characterNames
                   && Character(id) in b.rows && r.0.rows == b.rows[Character(id) := r.0.rows[Character(id)]]
                   && CharacterMerged(b.rows[Character(id)], r.0.rows[Character(id)], c)
                 else
                   && r.0.characterNames == b.characterNames + [c.latin] && id == |b.characterNames| + 1
                   && Character(id) in r.0.rows && r.0.rows == b.rows[Character(id) := r.0.rows[Character(id)]]
                   && CharacterMerged(Row(map[], {}), r.0.rows[Character(id)], c)
  {
    hide Strip, CharacterProposals, Merged, Provided, Propose, Matches, CharacterMerged;
    var key := rules.lower(Strip(c.latin));
    var found := Matches(b.characterNames, key, rules.sqlLower);
    FoundAll(b.characterNames, key, rules.sqlLower);
    if |found| > 1 {
      assert found[0] in found && found[1] in found;
    } else if |found| == 1 {
      assert found[0] in found;
      CharacterRow(b.rows[Character(found[0])], c);
      OneOnly(found);
    } else {
      CharacterRow(Row(map[], {}), c);
    }
  }

  lemma OneOnly(found: seq<nat>)
    requires |found| == 1
    ensures forall i: nat, j: nat :: i in found && j in found ==> i == j
  {
  }

  // ---- register, pairs, events -----------------------------------------------------------

  /** The register of the series becomes the one found, trimmed, unless that is blank, the call fails or
      the field is locked. */
  lemma RegisterMerged(b: Bible, register: Option<string>, episode: string, faults: set<Call>)
    requires Valid(b)
    ensures Value(MergeRegister(b, register, episode, faults), Series, Register) ==
              if Blank(register) || RegisterCall in faults || Register in b.rows[Series].locked then Value(b, Series, Register)
              else Some(Strip(register.value))
  {
    assert Series in b.rows;
    BlankRegister(register);
    hide Strip, Merged, Propose, Blank, Valid, Offered;
    OneOffered(b.rows[Series], Proposal(Register, Some(Strip(OrEmpty(register)))));
  }

  lemma BlankRegister(register: Option<string>)
    ensures Strip(OrEmpty(register)) == [] <==> Blank(register)
    ensures register.Some? ==> OrEmpty(register) == register.value
  {
    if register.Some? { StripBlank(register.value); } else { StripNothing(); }
    hide Strip, IsSpace;
  }

  lemma OneOffered(row: Row, p: Proposal)
    ensures Merged(row, [p]).Get(p.field) == if p.field in row.locked then row.Get(p.field) else p.value
  {
    hide Merged, Offered;
    MergedValue(row, [p], p.field);
    assert [p] == [] + [p];
    OfferedAppend([], p, p.field, row.Get(p.field));
  }

  /** An inferred pair that was not in the Bible when the merge began: its two terms in their places,
      dated by the episode, go to the unlocked columns of the row of its speaker and addressee. */
  lemma PairMerged(st: PairFold, i: nat, p: PairInference, nameToId: map<string, nat>, known: set<EntityId>,
                   rules: NameRules, episode: string, faults: set<Call>)
    requires Lookup(nameToId, rules, p.speaker).Some? && Lookup(nameToId, rules, p.addressee).Some? && PairCall(i) !in faults
    ensures var e := Pair(Lookup(nameToId, rules, p.speaker).value, Lookup(nameToId, rules, p.addressee).value);
            var c := MergePair(st, i, p, nameToId, known, rules, episode, faults).bible;
            var row := if e in st.bible.rows then st.bible.rows[e] else Row(map[], {});
            && e in c.rows && c.rows == st.bible.rows[e := c.rows[e]] && c.rows[e].locked == row.locked
            && forall f :: c.rows[e].Get(f) ==
                 if f in row.locked || e in known then row.Get(f)
                 else if f == SelfTerm then Some(p.selfTerm)
                 else if f == AddressTerm then Some(p.addressTerm)
                 else if f == ValidFrom then Some(episode)
                 else row.Get(f)
  {
    hide Lookup, Merged, Provided, Offered, Propose;
    var e := Pair(Lookup(nameToId, rules, p.speaker).value, Lookup(nameToId, rules, p.addressee).value);
    var row := if e in st.bible.rows then st.bible.rows[e] else Row(map[], {});
    var props := PairOffer(p, e in known, episode);
    UpsertPairRow(st.bible, e, props, Inference, Some(episode));
    forall f
      ensures Merged(row, Provided(props)).Get(f) == if f in row.locked then row.Get(f) else Offered(Provided(props), f, row.Get(f))
      ensures Offered(Provided(props), f, row.Get(f)) ==
                if e in known then row.Get(f)
                else if f == SelfTerm then Some(p.selfTerm) else if f == AddressTerm then Some(p.addressTerm)
                else if f == ValidFrom then Some(episode) else row.Get(f)
    {
      MergedValue(row, Provided(props), f);
      ThreeOffered(props[0], props[1], props[2], f, row.Get(f));
    }
  }

  /** Inferred event `i` of the analysis, as it is stored. */
  ghost predicate Found(events: seq<EventInference>, i: nat, nameToId: map<string, nat>, rules: NameRules, episode: string,
                        faults: set<Call>, ev: RelationshipEvent)
  {
    && i < |events| && EventCall(i) !in faults && ev.marker == episode
    && Lookup(nameToId, rules, events[i].a) == Some(ev.a) && Lookup(nameToId, rules, events[i].b) == Some(ev.b)
  }

  /** The events stored afterwards: all that were, and exactly the ones found between two known characters,
      in the order they were named, of this episode. */
  lemma {:induction false} EventsMerged(b: Bible, events: seq<EventInference>, nameToId: map<string, nat>, rules: NameRules,
                                        episode: string, faults: set<Call>, ev: RelationshipEvent)
    ensures var c := MergeEvents(b, events, nameToId, rules, episode, faults);
            && b.events <= c.events
            && (ev in c.events <==> ev in b.events || exists i: nat :: Found(events, i, nameToId, rules, episode, faults, ev))
  {
    hide Lookup;
    if |events| > 0 {
      var n := |events| - 1;
      EventsMerged(b, events[..n], nameToId, rules, episode, faults, ev);
      forall i: nat | i < n
        ensures Found(events, i, nameToId, rules, episode, faults, ev) <==> Found(events[..n], i, nameToId, rules, episode, faults, ev)
      {
      }
      var front := MergeEvents(b, events[..n], nameToId, rules, episode, faults);
      var x, y := Lookup(nameToId, rules, events[n].a), Lookup(nameToId, rules, events[n].b);
      if x.Some? && y.Some? && EventCall(n) !in faults {
        RecordedEvents(front, RelationshipEvent(x.value, y.value, episode), ev);
        assert Found(events, n, nameToId, rules, episode, faults, ev) <==> ev == RelationshipEvent(x.value, y.value, episode);
      }
    }
  }

  lemma RecordedEvents(b: Bible, found: RelationshipEvent, ev: RelationshipEvent)
    ensures ev in RecordEvent(b, found).events <==> ev in b.events || ev == found
    ensures b.events <= RecordEvent(b, found).events
  {
  }

  // ---- the names that are locked ---------------------------------------------------------

  /** What the dictionary already says for a key: the rendering, trimmed, of the last term of that key
      that has one. */
  ghost predicate SaysAt(terms: seq<TermView>, key: string, lower: string -> string, k: nat)
  {
    && k < |terms| && Strip(terms[k].source) != [] && lower(Strip(terms[k].source)) == key && Strip(terms[k].rendering) != []
    && forall j :: k < j < |terms| ==>
         !(Strip(terms[j].source) != [] && lower(Strip(terms[j].source)) == key && Strip(terms[j].rendering) != [])
  }

  ghost predicate Says(terms: seq<TermView>, key: string, lower: string -> string, rendering: string)
  {
    exists k: nat :: SaysAt(terms, key, lower, k) && rendering == Strip(terms[k].rendering)
  }

  lemma SaysMore(terms: seq<TermView>, key: string, lower: string -> string, rendering: string)
    requires |terms| > 0
    ensures var t := terms[|terms| - 1];
            Says(terms, key, lower, rendering) <==>
              if Strip(t.source) != [] && lower(Strip(t.source)) == key && Strip(t.rendering) != [] then rendering == Strip(t.rendering)
              else Says(terms[..|terms| - 1], key, lower, rendering)
  {
    hide Strip;
    var n := |terms| - 1;
    var front := terms[..n];
    assert forall k: nat :: k < n ==> front[k] == terms[k];
    if !(Strip(terms[n].source) != [] && lower(Strip(terms[n].source)) == key && Strip(terms[n].rendering) != []) {
      forall k: nat
        ensures SaysAt(terms, key, lower, k) <==> SaysAt(front, key, lower, k)
      {
      }
    } else {
      assert SaysAt(terms, key, lower, n);
      forall k: nat | SaysAt(terms, key, lower, k)
        ensures k == n
      {
        assert !(k < n);
      }
    }
  }

  lemma {:induction false} RenderingsIndexed(terms: seq<TermView>, key: string, lower: string -> string, rendering: string)
    ensures var r := IndexTerms(terms, lower).renderings;
            key in r && r[key] == rendering <==> Says(terms, key, lower, rendering)
  {
    hide Strip, Says;
    if |terms| > 0 {
      RenderingsIndexed(terms[..|terms| - 1], key, lower, rendering);
      SaysMore(terms, key, lower, rendering);
    } else {
      SaysNothing(key, lower, rendering);
    }
  }

  lemma SaysNothing(key: string, lower: string -> string, rendering: string)
    ensures !Says([], key, lower, rendering)
  {
  }

  /** The name a term stands under: the script name if there is one, else the Latin one. */
  function Title(c: CharacterInference): string
  {
    if Strip(OrEmpty(c.script)) != [] then Strip(OrEmpty(c.script)) else Strip(c.latin)
  }

  /** The rendering a name is locked to: the dictionary's own for the Latin name, else the one inferred, else
      the Latin name. */
  ghost predicate Canonical(c: CharacterInference, terms: seq<TermView>, lower: string -> string, rendering: string)
  {
    var latin, inferred := Strip(c.latin), Strip(OrEmpty(c.rendering));
    || Says(terms, lower(latin), lower, rendering)
    || ((forall r :: !Says(terms, lower(latin), lower, r)) && rendering == if inferred != [] then inferred else latin)
  }

  /** A planned term belongs to a character of the analysis. */
  ghost predicate PlannedFor(s: NameSpec, c: CharacterInference, terms: seq<TermView>, lower: string -> string)
  {
    && Strip(c.latin) != [] && s.latinKey == lower(Strip(c.latin)) && s.source == Title(c)
    && Canonical(c, terms, lower, s.rendering)
  }

  /** A character is settled by a plan: its Latin name counts as locked, or its title is in the dictionary
      or planned. */
  ghost predicate CharacterSettled(c: CharacterInference, p: Plan, ix: TermIndex, lower: string -> string)
  {
    Strip(c.latin) == [] || lower(Strip(c.latin)) in p.locked || lower(Title(c)) in ix.sources || lower(Title(c)) in p.seen
  }

  lemma PlanStep(p: Plan, c: CharacterInference, terms: seq<TermView>, lower: string -> string)
    ensures var ix := IndexTerms(terms, lower);
            var q := PlanOne(p, c, ix, lower);
            && p.specs <= q.specs && p.seen <= q.seen && p.locked <= q.locked && |q.specs| <= |p.specs| + 1
            && (|q.specs| > |p.specs| ==> PlannedFor(q.specs[|p.specs|], c, terms, lower))
            && CharacterSettled(c, q, ix, lower)
  {
    hide Strip, Says, IndexTerms;
    var ix := IndexTerms(terms, lower);
    var key := lower(Strip(c.latin));
    forall r
      ensures key in ix.renderings && ix.renderings[key] == r <==> Says(terms, key, lower, r)
    {
      RenderingsIndexed(terms, key, lower, r);
    }
    if key in ix.renderings {
      SaysSomething(terms, key, lower, ix.renderings[key]);
    }
  }

  lemma SaysSomething(terms: seq<TermView>, key: string, lower: string -> string, rendering: string)
    requires Says(terms, key, lower, rendering)
    ensures rendering != []
  {
    hide Strip;
  }

  /** Every term planned belongs to a character of the analysis, under its title and with its canonical
      rendering; and every character is settled. */
  lemma {:induction false} PlanCovers(chars: seq<CharacterInference>, start: Plan, terms: seq<TermView>, lower: string -> string)
    requires start.specs == []
    ensures var ix := IndexTerms(terms, lower);
            var p := PlanFrom(chars, start, ix, lower);
            && (forall i :: 0 <= i < |p.specs| ==> exists k :: 0 <= k < |chars| && PlannedFor(p.specs[i], chars[k], terms, lower))
            && (forall k :: 0 <= k < |chars| ==> CharacterSettled(chars[k], p, ix, lower))
  {
    hide Strip, PlannedFor, PlanOne, IndexTerms;
    if |chars| > 0 {
      var n := |chars| - 1;
      var ix := IndexTerms(terms, lower);
      PlanCovers(chars[..n], start, terms, lower);
      var p := PlanFrom(chars[..n], start, ix, lower);
      PlanStep(p, chars[n], terms, lower);
      var q := PlanOne(p, chars[n], ix, lower);
      forall i | 0 <= i < |q.specs|
        ensures exists k :: 0 <= k < |chars| && PlannedFor(q.specs[i], chars[k], terms, lower)
      {
        if i < |p.specs| {
          var k :| 0 <= k < n && PlannedFor(p.specs[i], chars[..n][k], terms, lower);
          assert PlannedFor(q.specs[i], chars[k], terms, lower);
        } else {
          assert PlannedFor(q.specs[i], chars[n], terms, lower);
        }
      }
      forall k | 0 <= k < |chars|
        ensures CharacterSettled(chars[k], q, ix, lower)
      {
        if k < n {
          assert CharacterSettled(chars[..n][k], p, ix, lower);
        }
      }
    }
  }

  /** A term row that is locked to a rendering and to nothing else. */
  ghost predicate LockedTo(b: Bible, id: nat, source: string, rendering: string)
  {
    && 1 <= id <= |b.termSources| && b.termSources[id - 1] == source && Term(id) in b.rows
    && b.rows[Term(id)].Get(Rendering) == Some(rendering) && b.rows[Term(id)].locked == {Rendering}
  }

  lemma NameLocked(b: Bible, s: NameSpec)
    requires Valid(b) && s.source !in b.termSources
    ensures EditTermBySource(b, s.source, s.rendering, true).Some?
    ensures var c := EditTermBySource(b, s.source, s.rendering, true).value;
            && LockedTo(c, |b.termSources| + 1, s.source, s.rendering)
            && forall id: nat, source: string, rendering: string :: LockedTo(b, id, source, rendering) ==> LockedTo(c, id, source, rendering)
  {
    EditTermBySourceEffect(b, s.source, s.rendering, true);
    EditCreates(b, s.source, s.rendering);
    hide EditTermBySource, Valid;
  }

  lemma FreshFront(b: Bible, specs: seq<NameSpec>, faults: set<Call>)
    requires Valid(b) && FreshSpecs(specs, b) && |specs| > 0
    ensures var n := |specs| - 1; FreshSpecs(specs[..n], b) && specs[n].source !in LockNames(b, specs[..n], faults).termSources
  {
    LockNamesOnlyCreates(b, specs[..|specs| - 1], faults);
    hide LockNames, Valid;
  }

  /** Each planned name whose call does not fail gets a row of its own, locked to its rendering. */
  lemma {:induction false} NamesLocked(b: Bible, specs: seq<NameSpec>, faults: set<Call>, i: nat)
    requires Valid(b) && FreshSpecs(specs, b) && i < |specs| && NameLockCall(i) !in faults
    ensures exists id: nat :: LockedTo(LockNames(b, specs, faults), id, specs[i].source, specs[i].rendering)
  {
    hide EditTermBySource, LockedTo, Valid, FreshSpecs;
    var n := |specs| - 1;
    var front := LockNames(b, specs[..n], faults);
    FreshFront(b, specs, faults);
    NameLocked(front, specs[n]);
    var c := LockNames(b, specs, faults);
    if i < n {
      NamesLocked(b, specs[..n], faults, i);
      var id: nat :| LockedTo(front, id, specs[i].source, specs[i].rendering);
      assert LockedTo(c, id, specs[i].source, specs[i].rendering);
    } else {
      assert LockedTo(c, |front.termSources| + 1, specs[i].source, specs[i].rendering);
    }
  }
}
