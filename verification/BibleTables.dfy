/** The store as the program runs it: tables updated row by row inside a transaction, each method
    proved to be the corresponding step of the BibleStore specification. */
module BibleTables {
  import opened Options
  import opened Text
  import opened BibleStore

  /** (field, old value, new value), as the merge policy reports it. */
  datatype Change = Change(field: Field, prior: Option<string>, next: Option<string>)

  ghost predicate DistinctFields(props: seq<Proposal>)
  {
    forall i, j :: 0 <= i < j < |props| ==> props[i].field != props[j].field
  }

  function FieldChanges(row: Row, inferred: seq<Proposal>, locked: set<Field>): seq<Change>
  {
    if |inferred| == 0 then [] else
      var front := FieldChanges(row, inferred[..|inferred| - 1], locked);
      var p := inferred[|inferred| - 1];
      if p.field in locked || row.Get(p.field) == p.value then front
      else front + [Change(p.field, row.Get(p.field), p.value)]
  }

  /** The merge policy: unlocked fields whose value would really change, in the order offered. */
  method ComputeFieldChanges(row: Row, inferred: seq<Proposal>, locked: set<Field>) returns (changes: seq<Change>)
    ensures changes == FieldChanges(row, inferred, locked)
  {
    changes := [];
    for i := 0 to |inferred|
      invariant changes == FieldChanges(row, inferred[..i], locked)
    {
      assert inferred[..i + 1][..i] == inferred[..i];
      var p := inferred[i];
      if p.field in locked {
        continue;
      }
      var prior := row.Get(p.field);
      if prior == p.value {
        continue;
      }
      changes := changes + [Change(p.field, prior, p.value)];
    }
    assert inferred[..|inferred|] == inferred;
  }

  /** The report is exact: nothing locked, no no-op, nothing else missing. */
  lemma {:induction false} ChangesExact(row: Row, inferred: seq<Proposal>, locked: set<Field>, c: Change)
    ensures c in FieldChanges(row, inferred, locked) <==>
            Proposal(c.field, c.next) in inferred && c.field !in locked && c.prior == row.Get(c.field) != c.next
  {
    if |inferred| > 0 {
      var n := |inferred| - 1;
      ChangesExact(row, inferred[..n], locked, c);
      assert Proposal(c.field, c.next) in inferred <==>
             Proposal(c.field, c.next) in inferred[..n] || Proposal(c.field, c.next) == inferred[n];
    }
  }

  /** Writing a list of changes one after the other. */
  function Apply(b: Bible, e: EntityId, changes: seq<Change>, source: Source, episode: Option<string>): (r: Bible)
    requires e in b.rows
    ensures r.rows.Keys == b.rows.Keys
  {
    if |changes| == 0 then b else
      var front := Apply(b, e, changes[..|changes| - 1], source, episode);
      var c := changes[|changes| - 1];
      front.(rows := front.rows[e := front.rows[e].Set(c.field, c.next)],
             audit := front.audit + [AuditEvent(e, c.field, c.prior, c.next, source, episode)])
  }

  lemma ApplyStep(b: Bible, e: EntityId, changes: seq<Change>, i: nat, source: Source, episode: Option<string>)
    requires e in b.rows && i < |changes|
    ensures var front := Apply(b, e, changes[..i], source, episode);
            var c := changes[i];
            Apply(b, e, changes[..i + 1], source, episode)
            == Bible(front.rows[e := front.rows[e].Set(c.field, c.next)], front.characterNames, front.termSources,
                     front.events, front.audit + [AuditEvent(e, c.field, c.prior, c.next, source, episode)])
  {
    assert changes[..i + 1][..i] == changes[..i];
  }

  /** Two passes (compute all changes against the old row, then apply them) come to the same as
      proposing the fields one by one, prior values in the log included. */
  lemma {:induction false} TwoPassMerge(b: Bible, e: EntityId, inferred: seq<Proposal>, source: Source, episode: Option<string>)
    requires e in b.rows && DistinctFields(inferred)
    ensures Apply(b, e, FieldChanges(b.rows[e], inferred, b.rows[e].locked), source, episode)
         == Propose(b, e, inferred, source, episode)
  {
    if |inferred| > 0 {
      var n := |inferred| - 1;
      var front := inferred[..n];
      TwoPassMerge(b, e, front, source, episode);
      UntouchedField(b.rows[e], front, inferred[n].field);
      var changes := FieldChanges(b.rows[e], front, b.rows[e].locked);
      var p := inferred[n];
      var all := changes + [Change(p.field, b.rows[e].Get(p.field), p.value)];
      assert all[..|all| - 1] == changes;
    }
  }

  lemma {:induction false} UntouchedField(row: Row, props: seq<Proposal>, f: Field)
    requires forall p :: p in props ==> p.field != f
    ensures Merged(row, props).Get(f) == row.Get(f)
  {
    if |props| > 0 {
      UntouchedField(row, props[..|props| - 1], f);
    }
  }

  class Tables {
    var rows: map<EntityId, Row>
    var characterNames: seq<string>
    var termSources: seq<string>
    var events: seq<RelationshipEvent>
    var audit: seq<AuditEvent>

    ghost function State(): Bible
      reads this
    {
      Bible(rows, characterNames, termSources, events, audit)
    }

    /** A fresh series: one row, nothing in it. */
    constructor ()
      ensures State() == Bible(map[Series := Row(map[], {})], [], [], [], [])
      ensures Valid(State()) && AuditSound(State())
    {
      rows := map[Series := Row(map[], {})];
      characterNames, termSources, events, audit := [], [], [], [];
    }

    /** `_merge_inferred_in_session` past the whitelist check. */
    method MergeRow(e: EntityId, inferred: seq<Proposal>, source: Source, episode: Option<string>)
      requires e in rows && DistinctFields(inferred)
      modifies `rows, `audit
      ensures State() == Propose(old(State()), e, inferred, source, episode)
    {
      hide Propose, FieldChanges;
      ghost var before := State();
      TwoPassMerge(before, e, inferred, source, episode);
      var changes := ComputeFieldChanges(rows[e], inferred, rows[e].locked);
      for i := 0 to |changes|
        invariant e in rows
        invariant State() == Apply(before, e, changes[..i], source, episode)
      {
        hide Apply;
        ApplyStep(before, e, changes, i, source, episode);
        var c := changes[i];
        rows := rows[e := rows[e].Set(c.field, c.next)];
        audit := audit + [AuditEvent(e, c.field, c.prior, c.next, source, episode)];
      }
      assert changes[..|changes|] == changes;
    }

    /** `merge_inferred`: false is the ValueError, raised before anything is written. */
    method MergeInferredInto(e: EntityId, inferred: seq<Proposal>, source: Source, episode: Option<string>)
      returns (ok: bool)
      requires DistinctFields(inferred)
      modifies `rows, `audit
      ensures State() == MergeInferred(old(State()), e, inferred, source, episode)
      ensures ok <==> e in old(rows) && forall p :: p in inferred ==> p.field in Mergeable(e)
    {
      ok := e in rows;
      for i := 0 to |inferred|
        invariant ok <==> e in rows && forall k :: 0 <= k < i ==> inferred[k].field in Mergeable(e)
      {
        ok := ok && inferred[i].field in Mergeable(e);
      }
      if ok {
        MergeRow(e, inferred, source, episode);
      }
    }

    /** `_upsert_address_pair_in_session`: its own loop, field by field, over the live row. */
    method UpsertAddressPair(e: EntityId, props: seq<Proposal>, source: Source, episode: Option<string>)
      requires e.Pair?
      modifies `rows, `audit
      ensures State() == UpsertPair(old(State()), e, props, source, episode)
    {
      if e !in rows {
        rows := rows[e := Row(map[], {})];
      }
      ghost var before := State();
      for i := 0 to |props|
        invariant e in rows
        invariant State() == Propose(before, e, Provided(props[..i]), source, episode)
      {
        assert props[..i + 1][..i] == props[..i];
        var p := props[i];
        if p.value.None? {
          continue;
        }
        ghost var front := Provided(props[..i]);
        assert (front + [p])[..|front|] == front;
        if p.field in rows[e].locked {
          continue;
        }
        var prior := rows[e].Get(p.field);
        if prior == p.value {
          continue;
        }
        rows := rows[e := rows[e].Set(p.field, p.value)];
        audit := audit + [AuditEvent(e, p.field, prior, p.value, source, episode)];
      }
      assert props[..|props|] == props;
    }

    /** The case-folding SELECT: every row whose folded name equals the key, oldest first. */
    method Select(names: seq<string>, key: string, fold: string -> string) returns (found: seq<nat>)
      ensures found == Matches(names, key, fold)
    {
      found := [];
      for i := 0 to |names|
        invariant found == Matches(names[..i], key, fold)
      {
        assert names[..i + 1][..i] == names[..i];
        if fold(names[i]) == key {
          found := found + [i + 1];
        }
      }
      assert names[..|names|] == names;
    }

    method ProvidedOnly(props: seq<Proposal>) returns (inferred: seq<Proposal>)
      requires DistinctFields(props)
      ensures inferred == Provided(props) && DistinctFields(inferred)
    {
      inferred := [];
      for i := 0 to |props|
        invariant inferred == Provided(props[..i]) && DistinctFields(inferred)
        invariant forall p :: p in inferred ==> p in props[..i]
      {
        assert props[..i + 1][..i] == props[..i];
        if props[i].value.Some? {
          inferred := inferred + [props[i]];
        }
      }
      assert props[..|props|] == props;
    }

    /** None is MultipleResultsFound; nothing is written then. */
    method UpsertCharacterRow(rules: NameRules, name: string, props: seq<Proposal>, source: Source, episode: Option<string>)
      returns (id: Option<nat>)
      requires Valid(State()) && DistinctFields(props)
      modifies this
      ensures (State(), id) == UpsertCharacter(old(State()), rules, name, props, source, episode)
    {
      var found := Select(characterNames, rules.lower(Strip(name)), rules.sqlLower);
      hide Strip, Matches, Propose;
      if |found| > 1 {
        return None;
      }
      var inferred := ProvidedOnly(props);
      if |found| == 0 {
        id := Some(|characterNames| + 1);
        rows := rows[Character(id.value) := Row(map[], {})];
        characterNames := characterNames + [name];
      } else {
        id := Some(found[0]);
      }
      MergeRow(Character(id.value), inferred, source, episode);
    }

    method InsertTermRow(sourceTerm: string, rendering: Option<string>, category: Option<string>,
                         source: Source, episode: Option<string>)
      requires Valid(State())
      modifies this
      ensures State() == InsertTerm(old(State()), sourceTerm, rendering, category, source, episode)
    {
      var e := Term(|termSources| + 1);
      var inferred := ProvidedOnly([Proposal(Rendering, rendering), Proposal(Category, category)]);
      rows := rows[e := if rendering.None? then Row(map[Rendering := ""], {}) else Row(map[], {})];
      termSources := termSources + [sourceTerm];
      MergeRow(e, inferred, source, episode);
    }

    method MergeTermRow(e: EntityId, rendering: Option<string>, category: Option<string>,
                        source: Source, episode: Option<string>)
      requires e in rows
      modifies this
      ensures State() == MergeTerm(old(State()), e, rendering, category, source, episode)
    {
      hide Strip, Provided, Propose;
      var kept := rendering;
      if rendering.Some? && source == Inference {
        var prior := match rows[e].Get(Rendering) { case Some(v) => v case None => "" };
        if Strip(prior) != [] && Rendering !in rows[e].locked {
          if rendering.value != prior {
            audit := audit + [AuditEvent(e, Rendering, Some(prior), rendering, source, episode)];
          }
          kept := None;
        }
      }
      assert State() == LogSuppressed(old(State()), e, rendering, source, episode);
      assert [Proposal(Rendering, kept), Proposal(Category, category)] == [Proposal(Rendering, kept)] + [Proposal(Category, category)];
      hide LogSuppressed;
      var inferred := ProvidedOnly([Proposal(Rendering, kept), Proposal(Category, category)]);
      MergeRow(e, inferred, source, episode);
    }

    method UpsertTermRow(rules: NameRules, sourceTerm: string, rendering: Option<string>, category: Option<string>,
                         source: Source, episode: Option<string>)
      requires Valid(State())
      modifies this
      ensures State() == UpsertTerm(old(State()), rules, sourceTerm, rendering, category, source, episode)
    {
      var found := Select(termSources, rules.lower(Strip(sourceTerm)), rules.sqlLower);
      if |found| == 0 {
        InsertTermRow(sourceTerm, rendering, category, source, episode);
      } else {
        MergeTermRow(Term(found[0]), rendering, category, source, episode);
      }
    }

    /** `apply_human_edit_character`, `_series`, and `_term` by id. */
    method HumanEdit(e: EntityId, f: Field, v: Option<string>, lock: bool) returns (ok: bool)
      modifies `rows, `audit
      ensures State() == EditField(old(State()), e, f, v, lock)
      ensures ok <==> e in old(rows) && f in Mergeable(e)
    {
      ok := e in rows && f in Mergeable(e);
      if ok {
        hide Mergeable;
        var prior := rows[e].Get(f);
        var row := rows[e].Set(f, v);
        ghost var written := row;
        if lock {
          row := row.(locked := row.locked + {f});
        } else {
          row := row.(locked := row.locked - {f});
        }
        assert rows[e := written][e := row] == rows[e := row];
        rows := rows[e := row];
        audit := audit + [AuditEvent(e, f, prior, v, if lock then Lock else Import, None)];
      }
    }

    method HumanEditTermBySource(sourceTerm: string, v: string, lock: bool) returns (ok: bool)
      requires Valid(State())
      modifies this
      ensures match EditTermBySource(old(State()), sourceTerm, v, lock)
              case Some(b) => ok && State() == b
              case None => !ok && State() == old(State())
    {
      var found := Select(termSources, sourceTerm, (s: string) => s);
      hide Matches, EditField;
      if |found| > 1 {
        return false;
      }
      var id := |termSources| + 1;
      if |found| == 1 {
        id := found[0];
      } else {
        rows := rows[Term(id) := Row(map[], {})];
        termSources := termSources + [sourceTerm];
      }
      ok := HumanEdit(Term(id), Rendering, Some(v), lock);
    }

    method HumanEditPair(e: EntityId, selfTerm: Option<string>, addressTerm: Option<string>, lock: bool) returns (ok: bool)
      requires e.Pair?
      modifies `rows, `audit
      ensures State() == EditPair(old(State()), e, selfTerm, addressTerm, lock)
      ensures !ok ==> State() == old(State())
    {
      if lock && (selfTerm.None? || Strip(selfTerm.value) == [] || addressTerm.None? || Strip(addressTerm.value) == []) {
        return false;
      }
      if e !in rows {
        return false;
      }
      var source := if lock then Lock else Import;
      hide Strip;
      if selfTerm.Some? && rows[e].Get(SelfTerm) != Some(Strip(selfTerm.value)) {
        audit := audit + [AuditEvent(e, SelfTerm, rows[e].Get(SelfTerm), Some(Strip(selfTerm.value)), source, None)];
        rows := rows[e := rows[e].Set(SelfTerm, Some(Strip(selfTerm.value)))];
      }
      assert State() == EditPairField(old(State()), e, SelfTerm, selfTerm, lock);
      if addressTerm.Some? && rows[e].Get(AddressTerm) != Some(Strip(addressTerm.value)) {
        audit := audit + [AuditEvent(e, AddressTerm, rows[e].Get(AddressTerm), Some(Strip(addressTerm.value)), source, None)];
        rows := rows[e := rows[e].Set(AddressTerm, Some(Strip(addressTerm.value)))];
      }
      assert State() == EditPairField(EditPairField(old(State()), e, SelfTerm, selfTerm, lock), e, AddressTerm, addressTerm, lock);
      hide EditPairField;
      var locked := rows[e].locked;
      locked := if lock then locked + {SelfTerm, AddressTerm} else locked - {SelfTerm, AddressTerm};
      rows := rows[e := rows[e].(locked := locked)];
      ok := true;
    }

    method RecordRelationshipEvent(ev: RelationshipEvent)
      modifies `events
      ensures State() == RecordEvent(old(State()), ev)
    {
      if ev !in events {
        events := events + [ev];
      }
    }
  }
}
