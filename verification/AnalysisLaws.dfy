/** What the Pass-1 merge keeps, and what its two Bible reads are needed for. */
module AnalysisLaws {
  import opened Options
  import opened Text
  import opened BibleStore
  import opened Attribution
  import opened Analysis

  /** Both soundness of the row table and of the log, carried through every fold. */
  ghost predicate Good(b: Bible)
  {
    Valid(b) && AuditSound(b)
  }

  // ---- the auto-lock step ----------------------------------------------------------------

  /** Every old row is exactly as it was. */
  ghost predicate RowsKept(b: Bible, c: Bible)
  {
    forall e :: e in b.rows ==> e in c.rows && c.rows[e] == b.rows[e]
  }

  /** The sources the first `n` specs may have added. */
  ghost predicate OnlyAdded(b: Bible, c: Bible, specs: seq<NameSpec>)
  {
    forall s :: s in c.termSources ==> s in b.termSources || exists i :: 0 <= i < |specs| && specs[i].source == s
  }

  ghost predicate FreshSpecs(specs: seq<NameSpec>, b: Bible)
  {
    && (forall i :: 0 <= i < |specs| ==> specs[i].source !in b.termSources)
    && (forall i, j :: 0 <= i < j < |specs| ==> specs[i].source != specs[j].source)
  }

  lemma {:induction false} LockNamesOnlyCreates(b: Bible, specs: seq<NameSpec>, faults: set<Call>)
    requires Valid(b) && FreshSpecs(specs, b)
    ensures var c := LockNames(b, specs, faults);
            RowsKept(b, c) && OnlyAdded(b, c, specs) && LocksHold(b, c) && SamePairs(b, c)
            && c.characterNames == b.characterNames
  {
    hide EditTermBySource;
    if |specs| > 0 {
      var n := |specs| - 1;
      var front := LockNames(b, specs[..n], faults);
      LockNamesOnlyCreates(b, specs[..n], faults);
      EditTermBySourceEffect(front, specs[n].source, specs[n].rendering, true);
      assert specs[n].source !in front.termSources;
      EditCreates(front, specs[n].source, specs[n].rendering);
      forall s | s in LockNames(b, specs, faults).termSources
        ensures s in b.termSources || exists i :: 0 <= i < |specs| && specs[i].source == s
      {
        if s in front.termSources {
          if s !in b.termSources {
            var i :| 0 <= i < n && specs[..n][i].source == s;
            assert specs[i].source == s;
          }
        } else {
          assert specs[n].source == s;
        }
      }
    }
  }

  lemma EditCreates(b: Bible, source: string, rendering: string)
    requires Valid(b) && source !in b.termSources
    ensures EditTermBySource(b, source, rendering, true).Some?
    ensures var c := EditTermBySource(b, source, rendering, true).value;
            var e := Term(|b.termSources| + 1);
            RowsKept(b, c) && e in c.rows && c.rows[e].Get(Rendering) == Some(rendering) && c.rows[e].locked == {Rendering}
  {
    NoMatch(b.termSources, source);
  }

  lemma {:induction false} NoMatch(names: seq<string>, key: string)
    requires key !in names
    ensures Matches(names, key, (s: string) => s) == []
  {
    if |names| > 0 {
      NoMatch(names[..|names| - 1], key);
      assert names[|names| - 1] in names;
    }
  }

  /** What the planner plans against the dictionary it read is new to that dictionary. */
  lemma PlannedAgainstRead(b: Bible, chars: seq<CharacterInference>, lower: string -> string)
    requires Valid(b)
    ensures FreshSpecs(PlanNames(chars, TermViews(b), lower), b)
  {
    hide Strip, LinkLocks, LockedScriptRenderings;
    var views := TermViews(b);
    var ix := IndexTerms(views, lower);
    var start := Plan([], {}, LinkLocks(chars, ix.locked, LockedScriptRenderings(views, ix.locked, lower), lower));
    PlanFresh(chars, start, ix, lower);
    var specs := PlanNames(chars, views, lower);
    forall i | 0 <= i < |specs|
      ensures specs[i].source !in b.termSources
    {
      if specs[i].source in b.termSources {
        var k :| 0 <= k < |b.termSources| && b.termSources[k] == specs[i].source;
        IndexedTerm(views, k, lower);
        assert false;
      }
    }
  }

  /** With the dictionary read, the lock-bypassing edits of this step only ever create rows. */
  lemma LockStepOnlyCreates(b: Bible, chars: seq<CharacterInference>, rules: NameRules, faults: set<Call>)
    requires Valid(b) && SecondLoad !in faults
    ensures var c := LockStep(b, chars, rules, faults);
            RowsKept(b, c) && LocksHold(b, c) && SamePairs(b, c)
  {
    PlannedAgainstRead(b, chars, rules.lower);
    LockNamesOnlyCreates(b, PlanNames(chars, TermViews(b), rules.lower), faults);
  }

  /** One character against an unread dictionary: its name is planned with its own rendering. */
  lemma PlanUnread(c: CharacterInference, lower: string -> string)
    requires c.script.None? && c.latin != [] && Trimmed(c.latin)
    requires c.rendering.Some? && c.rendering.value != [] && Trimmed(c.rendering.value)
    ensures PlanNames([c], [], lower) == [NameSpec(c.latin, c.rendering.value, lower(c.latin))]
  {
    hide *;
    var ix := TermIndex({}, map[], {});
    var start := Plan([], {}, {});
    OnUnread([c], lower);
    LinkNothing([c], lower);
    PlanSingle(c, start, ix, lower);
    StripTrimmed(c.latin);
    StripTrimmed(c.rendering.value);
    StripNothing();
    ScriptNone(c);
    OneName(c, lower);
  }

  lemma StripNothing()
    ensures Strip("") == ""
  {
  }

  lemma OnUnread(chars: seq<CharacterInference>, lower: string -> string)
    ensures PlanNames(chars, [], lower)
      == PlanFrom(chars, Plan([], {}, LinkLocks(chars, {}, {}, lower)), TermIndex({}, map[], {}), lower).specs
  {
    hide PlanFrom, LinkLocks;
  }

  lemma {:induction false} LinkNothing(chars: seq<CharacterInference>, lower: string -> string)
    ensures LinkLocks(chars, {}, {}, lower) == {}
  {
    hide Strip;
    if |chars| > 0 {
      LinkNothing(chars[..|chars| - 1], lower);
    }
  }

  lemma PlanSingle(c: CharacterInference, start: Plan, ix: TermIndex, lower: string -> string)
    ensures PlanFrom([c], start, ix, lower) == PlanOne(start, c, ix, lower)
  {
    hide PlanOne;
    assert [c][..0] == [];
  }

  lemma OneName(c: CharacterInference, lower: string -> string)
    requires Strip(c.latin) == c.latin != [] && Strip(OrEmpty(c.script)) == []
    requires c.rendering.Some? && Strip(c.rendering.value) == c.rendering.value != []
    ensures PlanOne(Plan([], {}, {}), c, TermIndex({}, map[], {}), lower).specs
      == [NameSpec(c.latin, c.rendering.value, lower(c.latin))]
  {
    hide Strip;
  }

  lemma ScriptNone(c: CharacterInference)
    requires c.script.None?
    ensures OrEmpty(c.script) == ""
  {
  }

  lemma {:induction false} OnlyMatch(names: seq<string>, i: nat)
    requires i < |names| && forall j :: 0 <= j < |names| && j != i ==> names[j] != names[i]
    ensures Matches(names, names[i], (s: string) => s) == [i + 1]
  {
    var n := |names| - 1;
    if i == n {
      NoMatch(names[..n], names[i]);
    } else {
      OnlyMatch(names[..n], i);
    }
  }

  lemma EditOnly(b: Bible, i: nat, rendering: string)
    requires Valid(b) && i < |b.termSources|
    requires forall j :: 0 <= j < |b.termSources| && j != i ==> b.termSources[j] != b.termSources[i]
    ensures EditTermBySource(b, b.termSources[i], rendering, true)
         == Some(EditField(b, Term(i + 1), Rendering, Some(rendering), true))
  {
    OnlyMatch(b.termSources, i);
  }

  // ---- the same step with or without its read --------------------------------------------

  /** No lock is lost and no locked field changes; new locks may appear. */
  ghost predicate LocksKept(b: Bible, c: Bible)
  {
    forall e :: e in b.rows ==> e in c.rows && RowLocksKept(b.rows[e], c.rows[e])
  }

  ghost predicate RowLocksKept(r: Row, s: Row)
  {
    r.locked <= s.locked && forall f :: f in r.locked ==> s.Get(f) == r.Get(f)
  }

  /** `source` stands at position `i` of the dictionary and nowhere else. */
  predicate Sole(sources: seq<string>, i: nat, source: string)
  {
    i < |sources| && sources[i] == source && forall j :: 0 <= j < |sources| && j != i ==> sources[j] != source
  }

  /** The source of the spec selects exactly this row. */
  predicate Hits(b: Bible, s: NameSpec, e: EntityId)
  {
    e.Term? && e.id > 0 && Sole(b.termSources, e.id - 1, s.source)
  }

  /** The spec selects a row whose rendering is locked with another value. */
  ghost predicate Spoils(b: Bible, s: NameSpec)
    requires Valid(b)
  {
    exists i: nat :: Sole(b.termSources, i, s.source) && Rendering in b.rows[Term(i + 1)].locked
                && b.rows[Term(i + 1)].Get(Rendering) != Some(s.rendering)
  }

  ghost predicate DistinctSources(specs: seq<NameSpec>)
  {
    forall i, j :: 0 <= i < j < |specs| ==> specs[i].source != specs[j].source
  }

  lemma {:induction false} SeveralMatches(names: seq<string>, i: nat, j: nat)
    requires i < j < |names| && names[i] == names[j]
    ensures |Matches(names, names[i], (s: string) => s)| > 1
  {
    var n := |names| - 1;
    if j < n {
      SeveralMatches(names[..n], i, j);
    } else {
      SomeMatch(names[..n], i);
    }
  }

  lemma {:induction false} SomeMatch(names: seq<string>, i: nat)
    requires i < |names|
    ensures |Matches(names, names[i], (s: string) => s)| > 0
  {
    if i < |names| - 1 {
      SomeMatch(names[..|names| - 1], i);
    }
  }

  lemma EditSeveral(b: Bible, i: nat, j: nat, rendering: string)
    requires Valid(b) && i < j < |b.termSources| && b.termSources[i] == b.termSources[j]
    ensures EditTermBySource(b, b.termSources[i], rendering, true) == None
  {
    SeveralMatches(b.termSources, i, j);
  }

  /** A row of the old dictionary after the auto-lock edits. */
  function LockedRow(b: Bible, specs: seq<NameSpec>, faults: set<Call>, e: EntityId): Row
    requires e in b.rows
  {
    if |specs| == 0 then b.rows[e]
    else
      var n := |specs| - 1;
      var front := LockedRow(b, specs[..n], faults, e);
      if NameLockCall(n) !in faults && Hits(b, specs[n], e)
      then LockedAs(front, specs[n]) else front
  }

  function LockedAs(row: Row, s: NameSpec): Row
  {
    row.Set(Rendering, Some(s.rendering)).(locked := row.locked + {Rendering})
  }

  /** The dictionary has grown at its end, by sources of the specs only. */
  ghost predicate Grown(b: Bible, c: Bible, specs: seq<NameSpec>)
  {
    && b.termSources <= c.termSources
    && forall j :: |b.termSources| <= j < |c.termSources| ==> AddedBy(specs, c.termSources[j])
  }

  predicate AddedBy(specs: seq<NameSpec>, source: string)
  {
    exists i :: 0 <= i < |specs| && specs[i].source == source
  }

  lemma {:induction false} LockNamesRows(b: Bible, specs: seq<NameSpec>, faults: set<Call>)
    requires Valid(b) && DistinctSources(specs)
    ensures var c := LockNames(b, specs, faults);
            Grown(b, c, specs) && forall e :: e in b.rows ==> e in c.rows && c.rows[e] == LockedRow(b, specs, faults, e)
  {
    hide Hits, EditTermBySource, Valid, Grown;
    if |specs| == 0 {
      NothingGrown(b);
    } else {
      var n := |specs| - 1;
      var front, s := LockNames(b, specs[..n], faults), specs[n];
      LockNamesRows(b, specs[..n], faults);
      NotGrownYet(b, front, specs);
      if NameLockCall(n) in faults {
        GrownMore(b, front, front, specs);
      } else {
        LockNameStep(b, front, specs);
      }
    }
  }

  lemma NothingGrown(b: Bible)
    ensures Grown(b, b, [])
  {
  }

  /** The source of the next spec is not among those already added. */
  lemma NotGrownYet(b: Bible, front: Bible, specs: seq<NameSpec>)
    requires |specs| > 0 && DistinctSources(specs) && Grown(b, front, specs[..|specs| - 1])
    ensures b.termSources <= front.termSources
    ensures forall j :: |b.termSources| <= j < |front.termSources| ==> front.termSources[j] != specs[|specs| - 1].source
  {
    var n := |specs| - 1;
    forall j | |b.termSources| <= j < |front.termSources|
      ensures front.termSources[j] != specs[n].source
    {
      assert AddedBy(specs[..n], front.termSources[j]);
      var i :| 0 <= i < n && specs[..n][i].source == front.termSources[j];
      assert specs[i].source == front.termSources[j];
    }
  }

  lemma GrownMore(b: Bible, front: Bible, c: Bible, specs: seq<NameSpec>)
    requires |specs| > 0 && Grown(b, front, specs[..|specs| - 1])
    requires c.termSources == front.termSources || c.termSources == front.termSources + [specs[|specs| - 1].source]
    ensures Grown(b, c, specs)
  {
    var n := |specs| - 1;
    forall j | |b.termSources| <= j < |c.termSources|
      ensures AddedBy(specs, c.termSources[j])
    {
      if j < |front.termSources| {
        assert AddedBy(specs[..n], front.termSources[j]);
        var i :| 0 <= i < n && specs[..n][i].source == front.termSources[j];
        assert specs[i].source == c.termSources[j];
      } else {
        assert specs[n].source == c.termSources[j];
      }
    }
  }

  lemma LockNameStep(b: Bible, front: Bible, specs: seq<NameSpec>)
    requires Valid(b) && Valid(front) && |specs| > 0 && b.termSources <= front.termSources
    requires Grown(b, front, specs[..|specs| - 1])
    requires forall j :: |b.termSources| <= j < |front.termSources| ==> front.termSources[j] != specs[|specs| - 1].source
    requires forall e :: e in b.rows ==> e in front.rows
    ensures var s := specs[|specs| - 1];
            var edited := EditTermBySource(front, s.source, s.rendering, true);
            var c := if edited.None? then front else edited.value;
            && Grown(b, c, specs)
            && forall e :: e in b.rows ==>
                 e in c.rows && c.rows[e] == if Hits(b, s, e) then LockedAs(front.rows[e], s) else front.rows[e]
  {
    hide Grown, EditTermBySource, Matches;
    var s := specs[|specs| - 1];
    EditTermBySourceEffect(front, s.source, s.rendering, true);
    if s.source !in front.termSources {
      EditCreates(front, s.source, s.rendering);
      GrownMore(b, front, EditTermBySource(front, s.source, s.rendering, true).value, specs);
    } else {
      var i :| 0 <= i < |front.termSources| && front.termSources[i] == s.source;
      if j :| 0 <= j < |front.termSources| && j != i && front.termSources[j] == s.source {
        EditSeveral(front, if i < j then i else j, if i < j then j else i, s.rendering);
        assert b.termSources[i] == b.termSources[j];
        GrownMore(b, front, front, specs);
      } else {
        EditOnly(front, i, s.rendering);
        GrownMore(b, front, EditField(front, Term(i + 1), Rendering, Some(s.rendering), true), specs);
        SoleRow(b, front, i, s);
      }
    }
  }

  lemma SoleRow(b: Bible, front: Bible, i: nat, s: NameSpec)
    requires Valid(front) && b.termSources <= front.termSources && Sole(front.termSources, i, s.source) && i < |b.termSources|
    ensures forall e :: Hits(b, s, e) <==> e == Term(i + 1)
    ensures var c := EditField(front, Term(i + 1), Rendering, Some(s.rendering), true);
            && Term(i + 1) in front.rows
            && c.termSources == front.termSources
            && c.rows == front.rows[Term(i + 1) := LockedAs(front.rows[Term(i + 1)], s)]
  {
    assert forall j :: 0 <= j < |b.termSources| ==> b.termSources[j] == front.termSources[j];
  }

  lemma {:induction false} LockedRowKeepsIff(b: Bible, specs: seq<NameSpec>, faults: set<Call>, e: EntityId)
    requires e in b.rows && DistinctSources(specs)
    ensures RowLocksKept(b.rows[e], LockedRow(b, specs, faults, e))
      <==> forall i :: 0 <= i < |specs| && NameLockCall(i) !in faults && Hits(b, specs[i], e) ==>
             !(Rendering in b.rows[e].locked && b.rows[e].Get(Rendering) != Some(specs[i].rendering))
    ensures (forall i :: 0 <= i < |specs| ==> NameLockCall(i) in faults || !Hits(b, specs[i], e)) ==>
              LockedRow(b, specs, faults, e) == b.rows[e]
  {
    if |specs| > 0 {
      var n := |specs| - 1;
      LockedRowKeepsIff(b, specs[..n], faults, e);
      assert forall i :: 0 <= i < n ==> specs[..n][i] == specs[i];
      if NameLockCall(n) !in faults && Hits(b, specs[n], e) {
        HitOnce(b, specs, e);
      }
    }
  }

  lemma HitOnce(b: Bible, specs: seq<NameSpec>, e: EntityId)
    requires |specs| > 0 && DistinctSources(specs) && Hits(b, specs[|specs| - 1], e)
    ensures forall i :: 0 <= i < |specs| - 1 ==> !Hits(b, specs[i], e)
  {
  }

  lemma SpoilsIff(b: Bible, s: NameSpec)
    requires Valid(b)
    ensures Spoils(b, s)
      <==> exists e :: e in b.rows && Hits(b, s, e) && Rendering in b.rows[e].locked && b.rows[e].Get(Rendering) != Some(s.rendering)
  {
    if Spoils(b, s) {
      var i: nat :| Sole(b.termSources, i, s.source) && Rendering in b.rows[Term(i + 1)].locked
               && b.rows[Term(i + 1)].Get(Rendering) != Some(s.rendering);
      assert Hits(b, s, Term(i + 1));
    }
    if e :| e in b.rows && Hits(b, s, e) && Rendering in b.rows[e].locked && b.rows[e].Get(Rendering) != Some(s.rendering) {
      assert Sole(b.termSources, e.id - 1, s.source) && Term(e.id - 1 + 1) == e;
    }
  }

  /** Edits under distinct sources keep every lock exactly if none that is made selects a row whose
      rendering is locked with another value. */
  lemma LockNamesKeepIff(b: Bible, specs: seq<NameSpec>, faults: set<Call>)
    requires Valid(b) && DistinctSources(specs)
    ensures LocksKept(b, LockNames(b, specs, faults))
      <==> forall i :: 0 <= i < |specs| && NameLockCall(i) !in faults ==> !Spoils(b, specs[i])
  {
    hide Hits, Spoils, LockedRow, RowLocksKept, DistinctSources, Valid, LockNames, Grown;
    LockNamesRows(b, specs, faults);
    forall e | e in b.rows
      ensures RowLocksKept(b.rows[e], LockedRow(b, specs, faults, e))
        <==> forall i :: 0 <= i < |specs| && NameLockCall(i) !in faults && Hits(b, specs[i], e) ==>
               !(Rendering in b.rows[e].locked && b.rows[e].Get(Rendering) != Some(specs[i].rendering))
    {
      LockedRowKeepsIff(b, specs, faults, e);
    }
    forall i | 0 <= i < |specs|
      ensures Spoils(b, specs[i])
        <==> exists e :: e in b.rows && Hits(b, specs[i], e) && Rendering in b.rows[e].locked
                         && b.rows[e].Get(Rendering) != Some(specs[i].rendering)
    {
      SpoilsIff(b, specs[i]);
    }
  }

  /** The specs of the auto-lock step: planned against the dictionary, or against nothing if the read
      failed. */
  function PlannedSpecs(b: Bible, chars: seq<CharacterInference>, rules: NameRules, faults: set<Call>): seq<NameSpec>
    requires Valid(b)
  {
    PlanNames(chars, if SecondLoad in faults then [] else TermViews(b), rules.lower)
  }

  lemma PlannedDistinct(chars: seq<CharacterInference>, views: seq<TermView>, lower: string -> string)
    ensures DistinctSources(PlanNames(chars, views, lower))
  {
    hide Strip, LinkLocks, LockedScriptRenderings, IndexTerms, PlanFrom;
    var ix := IndexTerms(views, lower);
    var start := Plan([], {}, LinkLocks(chars, ix.locked, LockedScriptRenderings(views, ix.locked, lower), lower));
    PlanFresh(chars, start, ix, lower);
  }

  /** The auto-lock step of any analysis keeps every lock if and only if none of its planned specs
      selects a row whose rendering is locked with another value.  With the dictionary read none does,
      for any analysis. */
  lemma LockStepKeepsIff(b: Bible, chars: seq<CharacterInference>, rules: NameRules, faults: set<Call>)
    requires Valid(b)
    ensures LocksKept(b, LockStep(b, chars, rules, faults))
      <==> forall i :: 0 <= i < |PlannedSpecs(b, chars, rules, faults)| && NameLockCall(i) !in faults ==>
             !Spoils(b, PlannedSpecs(b, chars, rules, faults)[i])
    ensures SecondLoad !in faults ==> LocksKept(b, LockStep(b, chars, rules, faults))
  {
    hide PlanNames, TermViews, Spoils, LocksKept, Valid, LockNames;
    PlannedDistinct(chars, if SecondLoad in faults then [] else TermViews(b), rules.lower);
    LockNamesKeepIff(b, PlannedSpecs(b, chars, rules, faults), faults);
    if SecondLoad !in faults {
      LockStepOnlyCreates(b, chars, rules, faults);
      HoldsAreKept(b, LockStep(b, chars, rules, faults));
    }
  }

  lemma HoldsAreKept(b: Bible, c: Bible)
    requires LocksHold(b, c)
    ensures LocksKept(b, c)
  {
  }

  /** One inferred character of the name is enough: without the read, for any locked rendering under a
      trimmed name that no other row has, it makes a spec that spoils it. */
  lemma LockStepNeedsRead(b: Bible, i: nat, rules: NameRules)
    requires Valid(b) && i < |b.termSources|
    requires b.termSources[i] != [] && Trimmed(b.termSources[i])
    requires forall j :: 0 <= j < |b.termSources| && j != i ==> b.termSources[j] != b.termSources[i]
    requires Rendering in b.rows[Term(i + 1)].locked
    ensures exists c :: !LocksKept(b, LockStep(b, [c], rules, {SecondLoad}))
  {
    var other := if b.rows[Term(i + 1)].Get(Rendering) == Some("A") then "B" else "A";
    var c := CharacterInference(b.termSources[i], None, None, None, None, Some(other));
    var spec := NameSpec(b.termSources[i], other, rules.lower(b.termSources[i]));
    hide Trimmed, PlanNames, TermViews, LockStep, LocksKept, Valid;
    LettersTrimmed();
    PlanUnread(c, rules.lower);
    SpoilsAt(b, i, spec);
    hide *;
    PlannedUnread(b, [c], rules);
    SpoiledAlone(b, [c], spec, rules);
  }

  lemma SpoilsAt(b: Bible, i: nat, s: NameSpec)
    requires Valid(b) && Sole(b.termSources, i, s.source) && Rendering in b.rows[Term(i + 1)].locked
    requires b.rows[Term(i + 1)].Get(Rendering) != Some(s.rendering)
    ensures Spoils(b, s)
  {
    hide Valid, Sole;
  }

  lemma SpoiledAlone(b: Bible, chars: seq<CharacterInference>, s: NameSpec, rules: NameRules)
    requires Valid(b) && PlannedSpecs(b, chars, rules, {SecondLoad}) == [s] && Spoils(b, s)
    ensures !LocksKept(b, LockStep(b, chars, rules, {SecondLoad}))
  {
    hide *;
    LockStepKeepsIff(b, chars, rules, {SecondLoad});
    assert PlannedSpecs(b, chars, rules, {SecondLoad})[0] == s;
  }

  lemma LettersTrimmed()
    ensures Trimmed("A") && Trimmed("B")
  {
  }

  lemma PlannedUnread(b: Bible, chars: seq<CharacterInference>, rules: NameRules)
    requires Valid(b)
    ensures PlannedSpecs(b, chars, rules, {SecondLoad}) == PlanNames(chars, [], rules.lower)
  {
    hide PlanNames, TermViews;
  }

  // ---- create-or-affirm ------------------------------------------------------------------

  lemma NothingOffered()
    ensures Provided(PairProposals(None, None, None)) == []
  {
    var none: seq<Proposal> := [];
    assert PairProposals(None, None, None)
        == none + [Proposal(SelfTerm, None)] + [Proposal(AddressTerm, None)] + [Proposal(ValidFrom, None)];
    ProvidedAppend(none + [Proposal(SelfTerm, None)] + [Proposal(AddressTerm, None)], Proposal(ValidFrom, None));
    ProvidedAppend(none + [Proposal(SelfTerm, None)], Proposal(AddressTerm, None));
    ProvidedAppend(none, Proposal(SelfTerm, None));
  }

  /** For a stored, unlocked pair the inference step leaves the row alone if and only if the pair
      was seen by the read at the start of the merge, or the inference happens to agree with it. */
  lemma PairStepKeepsIff(b: Bible, e: EntityId, p: PairInference, known: bool, episode: string)
    requires e.Pair? && e in b.rows && b.rows[e].locked == {}
    ensures UpsertPair(b, e, PairOffer(p, known, episode), Inference, Some(episode)).rows[e] == b.rows[e]
            <==> known || (b.rows[e].Get(SelfTerm) == Some(p.selfTerm) && b.rows[e].Get(AddressTerm) == Some(p.addressTerm)
                           && b.rows[e].Get(ValidFrom) == Some(episode))
  {
    hide Provided, Merged, Offered;
    var row := b.rows[e];
    var props := PairOffer(p, known, episode);
    if known {
      NothingOffered();
      MergedNothing(row);
    } else {
      var none: seq<Proposal> := [];
      var s, a, v := Proposal(SelfTerm, Some(p.selfTerm)), Proposal(AddressTerm, Some(p.addressTerm)), Proposal(ValidFrom, Some(episode));
      assert props == none + [s] + [a] + [v];
      ProvidedAppend(none + [s] + [a], v);
      ProvidedAppend(none + [s], a);
      ProvidedAppend(none, s);
      forall f
        ensures Merged(row, Provided(props)).Get(f) == if f == SelfTerm then s.value else if f == AddressTerm then a.value
                                                       else if f == ValidFrom then v.value else row.Get(f)
      {
        MergedValue(row, Provided(props), f);
        OfferedAppend(none + [s] + [a], v, f, row.Get(f));
        OfferedAppend(none + [s], a, f, row.Get(f));
        OfferedAppend(none, s, f, row.Get(f));
        OfferedNothing(f, row.Get(f));
      }
      if row.Get(SelfTerm) == s.value && row.Get(AddressTerm) == a.value && row.Get(ValidFrom) == v.value {
        SameRow(row, Merged(row, Provided(props)));
      }
    }
  }

  lemma OfferedNothing(f: Field, current: Option<string>)
    ensures Provided([]) == [] && Offered([], f, current) == current
  {
  }

  lemma MergedNothing(row: Row)
    ensures Merged(row, []) == row
  {
  }

  /** Rows with the same locks and the same columns are equal. */
  lemma SameRow(r: Row, s: Row)
    requires r.locked == s.locked && forall f :: r.Get(f) == s.Get(f)
    ensures r == s
  {
    forall f
      ensures (f in r.vals <==> f in s.vals) && (f in r.vals ==> r.vals[f] == s.vals[f])
    {
      assert r.Get(f) == s.Get(f);
    }
    assert r.vals == s.vals;
  }

  // ---- the folds -------------------------------------------------------------------------

  lemma {:induction false} MergeCharactersSafe(start: CharacterFold, chars: seq<CharacterInference>, rules: NameRules,
                                               episode: string, faults: set<Call>)
    requires Valid(start.bible)
    ensures var r := MergeCharacters(start, chars, rules, episode, faults).bible;
            LocksHold(start.bible, r) && SamePairs(start.bible, r) && (AuditSound(start.bible) ==> AuditSound(r))
  {
    hide AuditSound, UpsertCharacter, Valid;
    if |chars| > 0 {
      var front := MergeCharacters(start, chars[..|chars| - 1], rules, episode, faults);
      var c := chars[|chars| - 1];
      MergeCharactersSafe(start, chars[..|chars| - 1], rules, episode, faults);
      UpsertCharacterSafe(front.bible, rules, c.latin, CharacterProposals(c), Inference, Some(episode));
      LocksHoldTransitive(start.bible, front.bible, MergeCharacters(start, chars, rules, episode, faults).bible);
    }
  }

  lemma {:induction false} MergeTermsSafe(b: Bible, terms: seq<TermInference>, rules: NameRules, episode: string, faults: set<Call>)
    requires Valid(b)
    ensures var r := MergeTerms(b, terms, rules, episode, faults);
            LocksHold(b, r) && SamePairs(b, r) && (AuditSound(b) ==> AuditSound(r))
  {
    hide AuditSound, UpsertTerm, Valid;
    if |terms| > 0 {
      var front := MergeTerms(b, terms[..|terms| - 1], rules, episode, faults);
      var t := terms[|terms| - 1];
      MergeTermsSafe(b, terms[..|terms| - 1], rules, episode, faults);
      UpsertTermSafe(front, rules, t.source, Some(t.rendering), t.category, Inference, Some(episode));
      if AuditSound(front) {
        UpsertTermKeepsAudit(front, rules, t.source, Some(t.rendering), t.category, Inference, Some(episode));
      }
      LocksHoldTransitive(b, front, MergeTerms(b, terms, rules, episode, faults));
    }
  }

  lemma {:induction false} LockNamesKeepsAudit(b: Bible, specs: seq<NameSpec>, faults: set<Call>)
    requires Valid(b) && AuditSound(b)
    ensures AuditSound(LockNames(b, specs, faults))
  {
    hide AuditSound, EditTermBySource, Valid;
    if |specs| > 0 {
      var n := |specs| - 1;
      LockNamesKeepsAudit(b, specs[..n], faults);
      EditTermBySourceKeepsAudit(LockNames(b, specs[..n], faults), specs[n].source, specs[n].rendering, true);
    }
  }

  /** Pairs known to the merge keep their whole row, whatever is inferred about them. */
  ghost predicate KnownKept(b: Bible, c: Bible, known: set<EntityId>)
  {
    forall e :: e in known && e in b.rows ==> e in c.rows && c.rows[e] == b.rows[e]
  }

  lemma {:induction false} MergePairsSafe(b: Bible, pairs: seq<PairInference>, nameToId: map<string, nat>,
                                          known: set<EntityId>, rules: NameRules, episode: string, faults: set<Call>)
    ensures var r := MergePairs(b, pairs, nameToId, known, rules, episode, faults).bible;
            LocksHold(b, r) && KnownKept(b, r, known) && (Valid(b) ==> Valid(r)) && (AuditSound(b) ==> AuditSound(r))
  {
    hide AuditSound, Valid, UpsertPair;
    if |pairs| > 0 {
      var front := MergePairs(b, pairs[..|pairs| - 1], nameToId, known, rules, episode, faults);
      var p := pairs[|pairs| - 1];
      MergePairsSafe(b, pairs[..|pairs| - 1], nameToId, known, rules, episode, faults);
      var key := PairKey(p, nameToId, rules);
      if key.Some? && PairCall(|pairs| - 1) !in faults {
        var props := PairOffer(p, key.value in known, episode);
        UpsertPairSafe(front.bible, key.value, props, Inference, Some(episode));
        UpsertPairRow(front.bible, key.value, props, Inference, Some(episode));
        if key.value in known {
          NothingOffered();
          if key.value in front.bible.rows { MergedNothing(front.bible.rows[key.value]); }
        }
        LocksHoldTransitive(b, front.bible, MergePairs(b, pairs, nameToId, known, rules, episode, faults).bible);
      }
    }
  }

  lemma UpsertPairRow(b: Bible, e: EntityId, props: seq<Proposal>, source: Source, episode: Option<string>)
    requires e.Pair?
    ensures UpsertPair(b, e, props, source, episode).rows
         == b.rows[e := Merged(if e in b.rows then b.rows[e] else Row(map[], {}), Provided(props))]
  {
  }

  lemma {:induction false} MergeEventsSafe(b: Bible, events: seq<EventInference>, nameToId: map<string, nat>,
                                           rules: NameRules, episode: string, faults: set<Call>)
    ensures var r := MergeEvents(b, events, nameToId, rules, episode, faults);
            r.rows == b.rows && r.audit == b.audit && r.characterNames == b.characterNames && r.termSources == b.termSources
  {
    if |events| > 0 {
      MergeEventsSafe(b, events[..|events| - 1], nameToId, rules, episode, faults);
    }
  }

  // ---- the whole merge -------------------------------------------------------------------

  lemma MergeRegisterSafe(b: Bible, register: Option<string>, episode: string, faults: set<Call>)
    ensures var r := MergeRegister(b, register, episode, faults);
            LocksHold(b, r) && SamePairs(b, r) && (Valid(b) ==> Valid(r)) && (AuditSound(b) ==> AuditSound(r))
  {
    MergeInferredSafe(b, Series, [Proposal(Register, Some(Strip(OrEmpty(register))))], Inference, Some(episode));
  }

  /** The row table and the log stay sound through any merge, failing calls included. */
  lemma MergeKeepsGood(b: Bible, a: BibleAnalysis, episode: string, rules: NameRules, enableEvents: bool, faults: set<Call>)
    requires Good(b)
    ensures Good(MergeAnalysis(b, a, episode, rules, enableEvents, faults).bible)
  {
    hide AuditSound, Valid, MergeRegister, MergeCharacters, MergeTerms, LockNames, MergePairs, MergeEvents;
    var registered := MergeRegister(b, a.register, episode, faults);
    MergeRegisterSafe(b, a.register, episode, faults);
    var start := CharacterFold(registered, SeedNames(registered, rules, faults), 0);
    var chars := MergeCharacters(start, a.characters, rules, episode, faults);
    MergeCharactersSafe(start, a.characters, rules, episode, faults);
    var terms := MergeTerms(chars.bible, a.terms, rules, episode, faults);
    MergeTermsSafe(chars.bible, a.terms, rules, episode, faults);
    var locked := LockStep(terms, a.characters, rules, faults);
    LockNamesKeepsAudit(terms, PlanNames(a.characters, if SecondLoad in faults then [] else TermViews(terms), rules.lower), faults);
    var known := KnownPairs(registered, faults);
    var pairs := MergePairs(locked, a.pairs, chars.nameToId, known, rules, episode, faults);
    MergePairsSafe(locked, a.pairs, chars.nameToId, known, rules, episode, faults);
    MergeEventsSafe(pairs.bible, a.events, chars.nameToId, rules, episode, faults);
    SameTables(pairs.bible, MergeEvents(pairs.bible, a.events, chars.nameToId, rules, episode, faults));
  }

  lemma SameTables(b: Bible, c: Bible)
    requires c.rows == b.rows && c.audit == b.audit && c.characterNames == b.characterNames && c.termSources == b.termSources
    ensures Valid(b) ==> Valid(c)
    ensures AuditSound(b) ==> AuditSound(c)
  {
    forall e, f | AuditSound(b) && Audited(e, f)
      ensures Chained(c, e, f)
    {
      assert Chained(b, e, f);
    }
  }

  /** If the dictionary could be read, no merge changes any locked field of any row. */
  lemma MergeHoldsLocks(b: Bible, a: BibleAnalysis, episode: string, rules: NameRules, enableEvents: bool, faults: set<Call>)
    requires Valid(b) && SecondLoad !in faults
    ensures LocksHold(b, MergeAnalysis(b, a, episode, rules, enableEvents, faults).bible)
  {
    hide AuditSound, Valid, MergeRegister, MergeCharacters, MergeTerms, LockStep, MergePairs, MergeEvents, LocksHold, SamePairs;
    var registered := MergeRegister(b, a.register, episode, faults);
    MergeRegisterSafe(b, a.register, episode, faults);
    var start := CharacterFold(registered, SeedNames(registered, rules, faults), 0);
    var chars := MergeCharacters(start, a.characters, rules, episode, faults);
    MergeCharactersSafe(start, a.characters, rules, episode, faults);
    LocksHoldTransitive(b, registered, chars.bible);
    var terms := MergeTerms(chars.bible, a.terms, rules, episode, faults);
    MergeTermsSafe(chars.bible, a.terms, rules, episode, faults);
    LocksHoldTransitive(b, chars.bible, terms);
    var locked := LockStep(terms, a.characters, rules, faults);
    LockStepOnlyCreates(terms, a.characters, rules, faults);
    LocksHoldTransitive(b, terms, locked);
    var known := KnownPairs(registered, faults);
    var pairs := MergePairs(locked, a.pairs, chars.nameToId, known, rules, episode, faults);
    MergePairsSafe(locked, a.pairs, chars.nameToId, known, rules, episode, faults);
    LocksHoldTransitive(b, locked, pairs.bible);
    MergeEventsSafe(pairs.bible, a.events, chars.nameToId, rules, episode, faults);
    SameRows(b, pairs.bible, MergeEvents(pairs.bible, a.events, chars.nameToId, rules, episode, faults));
  }

  lemma SameRows(b: Bible, c: Bible, d: Bible)
    requires LocksHold(b, c) && d.rows == c.rows
    ensures LocksHold(b, d)
  {
  }

  /** Address rows survive a stage that leaves pairs alone. */
  ghost predicate PairsKept(b: Bible, c: Bible)
  {
    forall e: EntityId :: e.Pair? && e in b.rows ==> e in c.rows && c.rows[e] == b.rows[e]
  }

  lemma LockStepPairs(b: Bible, chars: seq<CharacterInference>, rules: NameRules, faults: set<Call>)
    requires Valid(b)
    ensures SamePairs(b, LockStep(b, chars, rules, faults))
  {
    LockNamesPairs(b, PlanNames(chars, if SecondLoad in faults then [] else TermViews(b), rules.lower), faults);
  }

  lemma {:induction false} LockNamesPairs(b: Bible, specs: seq<NameSpec>, faults: set<Call>)
    requires Valid(b)
    ensures SamePairs(b, LockNames(b, specs, faults))
  {
    hide EditTermBySource, Valid;
    if |specs| > 0 {
      var n := |specs| - 1;
      LockNamesPairs(b, specs[..n], faults);
      EditTermBySourceEffect(LockNames(b, specs[..n], faults), specs[n].source, specs[n].rendering, true);
    }
  }

  /** If the Bible could be read when the merge began, no stored pair changes in any column. */
  lemma MergeKeepsPairs(b: Bible, a: BibleAnalysis, episode: string, rules: NameRules, enableEvents: bool, faults: set<Call>)
    requires Valid(b) && FirstLoad !in faults
    ensures PairsKept(b, MergeAnalysis(b, a, episode, rules, enableEvents, faults).bible)
  {
    hide AuditSound, Valid, MergeRegister, MergeCharacters, MergeTerms, LockStep, MergePairs, MergeEvents;
    var registered := MergeRegister(b, a.register, episode, faults);
    MergeRegisterSafe(b, a.register, episode, faults);
    var start := CharacterFold(registered, SeedNames(registered, rules, faults), 0);
    var chars := MergeCharacters(start, a.characters, rules, episode, faults);
    MergeCharactersSafe(start, a.characters, rules, episode, faults);
    var terms := MergeTerms(chars.bible, a.terms, rules, episode, faults);
    MergeTermsSafe(chars.bible, a.terms, rules, episode, faults);
    var locked := LockStep(terms, a.characters, rules, faults);
    LockStepPairs(terms, a.characters, rules, faults);
    var known := KnownPairs(registered, faults);
    MergePairsSafe(locked, a.pairs, chars.nameToId, known, rules, episode, faults);
    MergeEventsSafe(MergePairs(locked, a.pairs, chars.nameToId, known, rules, episode, faults).bible,
                    a.events, chars.nameToId, rules, episode, faults);
  }
}
