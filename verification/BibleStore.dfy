/** The Series Bible: rows with per-field locks, and the append-only audit log beside them. */
module BibleStore {
  import opened Options
  import opened Text

  datatype Field = Gender | RoughAge | Role | Rendering | Category | Register | SelfTerm | AddressTerm | ValidFrom

  /** Rows are identified by surrogate id, address rows by their directed pair. */
  datatype EntityId =
    | Series
    | Character(id: nat)
    | Term(id: nat)
    | Pair(speaker: nat, addressee: nat)

  datatype Source = Inference | Lock | Import | System

  /** A column absent from `vals` is NULL. */
  datatype Row = Row(vals: map<Field, string>, locked: set<Field>) {
    function Get(f: Field): Option<string> {
      if f in vals then Some(vals[f]) else None
    }

    function Set(f: Field, v: Option<string>): (r: Row)
      ensures r.locked == locked && r.Get(f) == v
      ensures forall g :: g != f ==> r.Get(g) == Get(g)
    {
      match v
      case Some(x) => this.(vals := vals[f := x])
      case None => this.(vals := vals - {f})
    }
  }

  datatype AuditEvent = AuditEvent(entity: EntityId, field: Field, prior: Option<string>, next: Option<string>,
                                   source: Source, episode: Option<string>)

  /** A stored relationship transition; suggested terms are never persisted. */
  datatype RelationshipEvent = RelationshipEvent(a: nat, b: nat, marker: string)

  /** Character `i` has id `i + 1` and name `characterNames[i]`; terms likewise. */
  datatype Bible = Bible(
    rows: map<EntityId, Row>,
    characterNames: seq<string>,
    termSources: seq<string>,
    events: seq<RelationshipEvent>,
    audit: seq<AuditEvent>)

  /** Library string functions the store relies on: `str.lower`, SQLite's `lower()`, and the
      honorific-stripping alias. */
  datatype NameRules = NameRules(lower: string -> string, sqlLower: string -> string, alias: string -> string)

  /** A field value offered to a row; None clears the field. */
  datatype Proposal = Proposal(field: Field, value: Option<string>)

  ghost predicate Valid(b: Bible)
  {
    && Series in b.rows
    && (forall i: nat :: Character(i) in b.rows <==> 1 <= i <= |b.characterNames|)
    && (forall i: nat :: Term(i) in b.rows <==> 1 <= i <= |b.termSources|)
  }

  function Value(b: Bible, e: EntityId, f: Field): Option<string>
  {
    if e in b.rows then b.rows[e].Get(f) else None
  }

  // ---- the single write ------------------------------------------------------------------

  /** Set one column and log it, in one transaction. */
  function Write(b: Bible, e: EntityId, f: Field, v: Option<string>, source: Source, episode: Option<string>): Bible
    requires e in b.rows
  {
    b.(rows := b.rows[e := b.rows[e].Set(f, v)],
       audit := b.audit + [AuditEvent(e, f, b.rows[e].Get(f), v, source, episode)])
  }

  /** A row after proposals: human lock over prior value over inference, one field at a time. */
  function Merged(row: Row, props: seq<Proposal>): (r: Row)
    ensures r.locked == row.locked
    ensures forall f :: f in row.locked ==> r.Get(f) == row.Get(f)
  {
    if |props| == 0 then row else
      var front := Merged(row, props[..|props| - 1]);
      var p := props[|props| - 1];
      if p.field in row.locked || front.Get(p.field) == p.value then front else front.Set(p.field, p.value)
  }

  /** The same on the whole Bible, with one audit event per column that changed. */
  function Propose(b: Bible, e: EntityId, props: seq<Proposal>, source: Source, episode: Option<string>): (r: Bible)
    requires e in b.rows
    ensures r.rows == b.rows[e := Merged(b.rows[e], props)]
    ensures r.characterNames == b.characterNames && r.termSources == b.termSources && r.events == b.events
  {
    if |props| == 0 then b else
      var front := Propose(b, e, props[..|props| - 1], source, episode);
      var p := props[|props| - 1];
      if p.field in front.rows[e].locked || front.rows[e].Get(p.field) == p.value then front
      else Write(front, e, p.field, p.value, source, episode)
  }

  /** The proposals that carry a value; the upserts read None as "no update". */
  function Provided(props: seq<Proposal>): (r: seq<Proposal>)
    ensures forall p :: p in r ==> p in props && p.value.Some?
  {
    if |props| == 0 then [] else
      var front := Provided(props[..|props| - 1]);
      if props[|props| - 1].value.Some? then front + [props[|props| - 1]] else front
  }

  function Create(b: Bible, e: EntityId): Bible
    requires e !in b.rows
  {
    b.(rows := b.rows[e := Row(map[], {})])
  }

  // ---- operations ------------------------------------------------------------------------

  function PairProposals(selfTerm: Option<string>, addressTerm: Option<string>, validFrom: Option<string>): seq<Proposal>
  {
    [Proposal(SelfTerm, selfTerm), Proposal(AddressTerm, addressTerm), Proposal(ValidFrom, validFrom)]
  }

  function UpsertPair(b: Bible, e: EntityId, props: seq<Proposal>, source: Source, episode: Option<string>): Bible
    requires e.Pair?
  {
    Propose(if e in b.rows then b else Create(b, e), e, Provided(props), source, episode)
  }

  /** Ids of the names that a case-folding SELECT finds, lowest first. */
  function Matches(names: seq<string>, key: string, fold: string -> string): (r: seq<nat>)
    ensures forall k :: 0 <= k < |r| ==> 1 <= r[k] <= |names| && fold(names[r[k] - 1]) == key
    ensures forall k, l :: 0 <= k < l < |r| ==> r[k] < r[l]
    ensures |r| == 0 ==> forall i :: 0 <= i < |names| ==> fold(names[i]) != key
  {
    if |names| == 0 then [] else
      var front := Matches(names[..|names| - 1], key, fold);
      if fold(names[|names| - 1]) == key then front + [|names|] else front
  }

  /** None when the SELECT finds several rows and `scalar_one_or_none` raises. */
  function UpsertCharacter(b: Bible, rules: NameRules, name: string, props: seq<Proposal>, source: Source,
                           episode: Option<string>): (r: (Bible, Option<nat>))
    requires Valid(b)
  {
    var found := Matches(b.characterNames, rules.lower(Strip(name)), rules.sqlLower);
    if |found| > 1 then (b, None)
    else if |found| == 1 then (Propose(b, Character(found[0]), Provided(props), source, episode), Some(found[0]))
    else
      var id := |b.characterNames| + 1;
      var created := Create(b, Character(id)).(characterNames := b.characterNames + [name]);
      (Propose(created, Character(id), Provided(props), source, episode), Some(id))
  }

  /** The carry-forward guard: an inferred rendering never replaces a non-empty unlocked one. */
  predicate Suppresses(row: Row, rendering: Option<string>, source: Source)
  {
    && rendering.Some? && source == Inference
    && row.Get(Rendering).Some? && Strip(row.Get(Rendering).value) != [] && Rendering !in row.locked
  }

  /** A suppressed inference that differs is logged, with the kept rendering as its prior value. */
  function LogSuppressed(b: Bible, e: EntityId, rendering: Option<string>, source: Source, episode: Option<string>): (r: Bible)
    requires e in b.rows
    ensures r.(audit := b.audit) == b
  {
    if Suppresses(b.rows[e], rendering, source) && rendering != b.rows[e].Get(Rendering)
    then b.(audit := b.audit + [AuditEvent(e, Rendering, b.rows[e].Get(Rendering), rendering, source, episode)])
    else b
  }

  /** First insert of a term: a missing rendering is stored as the empty string, unlogged. */
  function InsertTerm(b: Bible, sourceTerm: string, rendering: Option<string>, category: Option<string>,
                      source: Source, episode: Option<string>): Bible
    requires Valid(b)
  {
    var e := Term(|b.termSources| + 1);
    var row := if rendering.None? then Row(map[Rendering := ""], {}) else Row(map[], {});
    Propose(b.(rows := b.rows[e := row], termSources := b.termSources + [sourceTerm]), e,
            Provided([Proposal(Rendering, rendering), Proposal(Category, category)]), source, episode)
  }

  /** The proposals an upsert of a known term comes down to. */
  function TermProposals(row: Row, rendering: Option<string>, category: Option<string>, source: Source): seq<Proposal>
  {
    Provided([Proposal(Rendering, if Suppresses(row, rendering, source) then None else rendering),
              Proposal(Category, category)])
  }

  function MergeTerm(b: Bible, e: EntityId, rendering: Option<string>, category: Option<string>,
                     source: Source, episode: Option<string>): Bible
    requires e in b.rows
  {
    Propose(LogSuppressed(b, e, rendering, source, episode), e,
            TermProposals(b.rows[e], rendering, category, source), source, episode)
  }

  /** The row an upsert of a term touches: the oldest that matches, or a new one. */
  function TermTouched(b: Bible, rules: NameRules, sourceTerm: string): (e: EntityId)
    ensures e.Term? && 1 <= e.id <= |b.termSources| + 1
  {
    var found := Matches(b.termSources, rules.lower(Strip(sourceTerm)), rules.sqlLower);
    if |found| == 0 then Term(|b.termSources| + 1) else Term(found[0])
  }

  function UpsertTerm(b: Bible, rules: NameRules, sourceTerm: string, rendering: Option<string>,
                      category: Option<string>, source: Source, episode: Option<string>): Bible
    requires Valid(b)
  {
    var e := TermTouched(b, rules, sourceTerm);
    if e in b.rows then MergeTerm(b, e, rendering, category, source, episode)
    else InsertTerm(b, sourceTerm, rendering, category, source, episode)
  }

  /** The fields inference may merge, per kind of row. */
  function Mergeable(e: EntityId): set<Field>
  {
    match e
    case Character(_) => {Gender, RoughAge, Role}
    case Term(_) => {Rendering, Category}
    case Series => {Register}
    case Pair(_, _) => {}
  }

  /** Rejected (state unchanged) when the row is missing or a field is off the whitelist. */
  function MergeInferred(b: Bible, e: EntityId, props: seq<Proposal>, source: Source, episode: Option<string>): Bible
  {
    if e in b.rows && forall p :: p in props ==> p.field in Mergeable(e)
    then Propose(b, e, props, source, episode) else b
  }

  function Relock(b: Bible, e: EntityId, fields: set<Field>, lock: bool): Bible
    requires e in b.rows
  {
    var row := b.rows[e];
    b.(rows := b.rows[e := row.(locked := if lock then row.locked + fields else row.locked - fields)])
  }

  /** A human edit writes whatever the lock says and sets or clears the lock with it. */
  function EditField(b: Bible, e: EntityId, f: Field, v: Option<string>, lock: bool): Bible
  {
    if e in b.rows && f in Mergeable(e)
    then Relock(Write(b, e, f, v, if lock then Lock else Import, None), e, {f}, lock) else b
  }

  /** `apply_human_edit_term` by source term; a missing row is created.  None: it raised. */
  function EditTermBySource(b: Bible, sourceTerm: string, v: string, lock: bool): Option<Bible>
    requires Valid(b)
  {
    var found := Matches(b.termSources, sourceTerm, (s: string) => s);
    if |found| > 1 then None
    else if |found| == 1 then Some(EditField(b, Term(found[0]), Rendering, Some(v), lock))
    else
      var e := Term(|b.termSources| + 1);
      var created := Create(b, e).(termSources := b.termSources + [sourceTerm]);
      Some(EditField(created, e, Rendering, Some(v), lock))
  }

  /** One term of a pair edit: written only when it differs. */
  function EditPairField(b: Bible, e: EntityId, f: Field, v: Option<string>, lock: bool): Bible
    requires e in b.rows
  {
    if v.Some? && b.rows[e].Get(f) != Some(Strip(v.value))
    then Write(b, e, f, Some(Strip(v.value)), if lock then Lock else Import, None) else b
  }

  /** A pair locks and unlocks as a unit, and never with a blank term. */
  function EditPair(b: Bible, e: EntityId, selfTerm: Option<string>, addressTerm: Option<string>, lock: bool): Bible
    requires e.Pair?
  {
    if e !in b.rows || (lock && (selfTerm.None? || Strip(selfTerm.value) == []
                                 || addressTerm.None? || Strip(addressTerm.value) == []))
    then b
    else Relock(EditPairField(EditPairField(b, e, SelfTerm, selfTerm, lock), e, AddressTerm, addressTerm, lock),
                e, {SelfTerm, AddressTerm}, lock)
  }

  /** Dedup key: both characters in this order and the episode. */
  function RecordEvent(b: Bible, ev: RelationshipEvent): Bible
  {
    if ev in b.events then b else b.(events := b.events + [ev])
  }

  // ---- what no inference may do ----------------------------------------------------------

  /** Every row survives with the same locks, and locked fields keep their values. */
  ghost predicate LocksHold(b: Bible, c: Bible)
  {
    forall e :: e in b.rows ==>
      e in c.rows && c.rows[e].locked == b.rows[e].locked
      && forall f :: f in b.rows[e].locked ==> c.rows[e].Get(f) == b.rows[e].Get(f)
  }

  /** Address rows untouched: none added, none changed. */
  ghost predicate SamePairs(b: Bible, c: Bible)
  {
    forall e: EntityId :: e.Pair? ==> (e in c.rows <==> e in b.rows) && (e in b.rows ==> c.rows[e] == b.rows[e])
  }

  lemma LocksHoldTransitive(b: Bible, c: Bible, d: Bible)
    requires LocksHold(b, c) && LocksHold(c, d)
    ensures LocksHold(b, d)
  {
  }

  lemma ProposeHoldsLocks(b: Bible, e: EntityId, props: seq<Proposal>, source: Source, episode: Option<string>)
    requires e in b.rows
    ensures LocksHold(b, Propose(b, e, props, source, episode))
  {
  }

  lemma CreateHoldsLocks(b: Bible, c: Bible, e: EntityId)
    requires e !in b.rows && e in c.rows && c.rows == b.rows[e := c.rows[e]]
    ensures LocksHold(b, c)
  {
  }

  /** What the row proposals come to: the last value offered for an unlocked field, if any. */
  function Offered(props: seq<Proposal>, f: Field, current: Option<string>): Option<string>
  {
    if |props| == 0 then current
    else if props[|props| - 1].field == f then props[|props| - 1].value
    else Offered(props[..|props| - 1], f, current)
  }

  /** Proposing is exactly: each unlocked field takes the last value offered, everything else stays. */
  lemma {:induction false} MergedValue(row: Row, props: seq<Proposal>, f: Field)
    ensures Merged(row, props).Get(f) == if f in row.locked then row.Get(f) else Offered(props, f, row.Get(f))
  {
    if |props| > 0 {
      MergedValue(row, props[..|props| - 1], f);
    }
  }

  lemma OfferedAppend(props: seq<Proposal>, p: Proposal, f: Field, current: Option<string>)
    ensures Offered(props + [p], f, current) == if p.field == f then p.value else Offered(props, f, current)
  {
    assert (props + [p])[..|props|] == props;
  }

  lemma ProvidedAppend(props: seq<Proposal>, p: Proposal)
    ensures Provided(props + [p]) == if p.value.Some? then Provided(props) + [p] else Provided(props)
  {
    assert (props + [p])[..|props|] == props;
  }

  // ---- the audit chain -------------------------------------------------------------------

  /** Replaying the log of one field: None when some event's prior value is not what the event
      before it left (or not NULL, for the first). */
  function Replay(audit: seq<AuditEvent>, e: EntityId, f: Field): Option<Option<string>>
  {
    if |audit| == 0 then Some(None) else
      var front := Replay(audit[..|audit| - 1], e, f);
      var ev := audit[|audit| - 1];
      if ev.entity != e || ev.field != f then front
      else if front == Some(ev.prior) then Some(ev.next)
      else None
  }

  /** The log is a chain and replays to the stored value. */
  ghost predicate Chained(b: Bible, e: EntityId, f: Field)
  {
    Replay(b.audit, e, f) == Some(Value(b, e, f))
  }

  /** Every audited column except the rendering of terms. */
  predicate Audited(e: EntityId, f: Field)
  {
    !(e.Term? && f == Rendering)
  }

  ghost predicate AuditSound(b: Bible)
  {
    forall e, f :: Audited(e, f) ==> Chained(b, e, f)
  }

  lemma ReplayAppend(audit: seq<AuditEvent>, ev: AuditEvent, e: EntityId, f: Field)
    ensures Replay(audit + [ev], e, f) ==
            if ev.entity != e || ev.field != f then Replay(audit, e, f)
            else if Replay(audit, e, f) == Some(ev.prior) then Some(ev.next) else None
  {
    assert (audit + [ev])[..|audit|] == audit;
  }

  lemma WriteKeepsChain(b: Bible, e: EntityId, f: Field, v: Option<string>, source: Source, episode: Option<string>,
                        d: EntityId, g: Field)
    requires e in b.rows && Chained(b, d, g)
    ensures Chained(Write(b, e, f, v, source, episode), d, g)
  {
    ReplayAppend(b.audit, AuditEvent(e, f, b.rows[e].Get(f), v, source, episode), d, g);
  }

  lemma {:induction false} ProposeKeepsChain(b: Bible, e: EntityId, props: seq<Proposal>, source: Source,
                                             episode: Option<string>, d: EntityId, g: Field)
    requires e in b.rows && Chained(b, d, g)
    ensures Chained(Propose(b, e, props, source, episode), d, g)
  {
    if |props| > 0 {
      var front := Propose(b, e, props[..|props| - 1], source, episode);
      var p := props[|props| - 1];
      ProposeKeepsChain(b, e, props[..|props| - 1], source, episode, d, g);
      WriteKeepsChain(front, e, p.field, p.value, source, episode, d, g);
    }
  }

  lemma ProposeKeepsAudit(b: Bible, e: EntityId, props: seq<Proposal>, source: Source, episode: Option<string>)
    requires e in b.rows && AuditSound(b)
    ensures AuditSound(Propose(b, e, props, source, episode))
  {
    forall d, g | Audited(d, g)
      ensures Chained(Propose(b, e, props, source, episode), d, g)
    {
      assert Chained(b, d, g);
      ProposeKeepsChain(b, e, props, source, episode, d, g);
    }
  }

  lemma CreateKeepsAudit(b: Bible, c: Bible, e: EntityId)
    requires e !in b.rows && AuditSound(b)
    requires c.audit == b.audit && c.rows == b.rows[e := Row(map[], {})]
    ensures AuditSound(c)
  {
    forall d, g | Audited(d, g)
      ensures Chained(c, d, g)
    {
      assert Chained(b, d, g);
    }
  }

  lemma RelockKeepsAudit(b: Bible, e: EntityId, fields: set<Field>, lock: bool)
    requires e in b.rows && AuditSound(b)
    ensures AuditSound(Relock(b, e, fields, lock))
  {
    forall d, g | Audited(d, g)
      ensures Chained(Relock(b, e, fields, lock), d, g)
    {
      assert Chained(b, d, g);
    }
  }

  lemma WriteKeepsAudit(b: Bible, e: EntityId, f: Field, v: Option<string>, source: Source, episode: Option<string>)
    requires e in b.rows && AuditSound(b)
    ensures AuditSound(Write(b, e, f, v, source, episode))
  {
    forall d, g | Audited(d, g)
      ensures Chained(Write(b, e, f, v, source, episode), d, g)
    {
      assert Chained(b, d, g);
      WriteKeepsChain(b, e, f, v, source, episode, d, g);
    }
  }

  // ---- each operation, against both invariants -------------------------------------------

  lemma UpsertPairSafe(b: Bible, e: EntityId, props: seq<Proposal>, source: Source, episode: Option<string>)
    requires e.Pair?
    ensures LocksHold(b, UpsertPair(b, e, props, source, episode))
    ensures Valid(b) ==> Valid(UpsertPair(b, e, props, source, episode))
    ensures AuditSound(b) ==> AuditSound(UpsertPair(b, e, props, source, episode))
  {
    var c := if e in b.rows then b else Create(b, e);
    if AuditSound(b) {
      if e !in b.rows { CreateKeepsAudit(b, c, e); }
      ProposeKeepsAudit(c, e, Provided(props), source, episode);
    }
  }

  lemma UpsertCharacterSafe(b: Bible, rules: NameRules, name: string, props: seq<Proposal>, source: Source,
                            episode: Option<string>)
    requires Valid(b)
    ensures var (c, id) := UpsertCharacter(b, rules, name, props, source, episode);
            LocksHold(b, c) && Valid(c) && (AuditSound(b) ==> AuditSound(c))
            && c.termSources == b.termSources
            && SamePairs(b, c)
            && (id.Some? ==> 1 <= id.value <= |c.characterNames|)
  {
    hide Strip, Merged, Provided, Propose, AuditSound;
    var found := Matches(b.characterNames, rules.lower(Strip(name)), rules.sqlLower);
    hide Matches;
    if |found| == 1 {
      KnownCharacterSafe(b, found[0], Provided(props), source, episode);
    } else if |found| == 0 {
      NewCharacterSafe(b, name, Provided(props), source, episode);
    }
  }

  lemma KnownCharacterSafe(b: Bible, id: nat, props: seq<Proposal>, source: Source, episode: Option<string>)
    requires Valid(b) && Character(id) in b.rows
    ensures var c := Propose(b, Character(id), props, source, episode);
            LocksHold(b, c) && Valid(c) && (AuditSound(b) ==> AuditSound(c)) && SamePairs(b, c)
  {
    ProposeHoldsLocks(b, Character(id), props, source, episode);
    hide Merged, Propose, AuditSound, LocksHold;
    if AuditSound(b) { ProposeKeepsAudit(b, Character(id), props, source, episode); }
  }

  lemma NewCharacterSafe(b: Bible, name: string, props: seq<Proposal>, source: Source, episode: Option<string>)
    requires Valid(b)
    ensures var e := Character(|b.characterNames| + 1);
            e !in b.rows
            && var c := Propose(Create(b, e).(characterNames := b.characterNames + [name]), e, props, source, episode);
               LocksHold(b, c) && Valid(c) && (AuditSound(b) ==> AuditSound(c)) && SamePairs(b, c)
  {
    hide Merged, Propose, AuditSound, LocksHold;
    var e := Character(|b.characterNames| + 1);
    var created := Create(b, e).(characterNames := b.characterNames + [name]);
    var c := Propose(created, e, props, source, episode);
    CreateHoldsLocks(b, c, e);
    if AuditSound(b) {
      CreateKeepsAudit(b, created, e);
      ProposeKeepsAudit(created, e, props, source, episode);
    }
  }

  lemma LogSuppressedKeepsChain(b: Bible, e: EntityId, rendering: Option<string>, source: Source,
                                episode: Option<string>, d: EntityId, g: Field)
    requires e in b.rows && Chained(b, d, g) && (d != e || g != Rendering)
    ensures Chained(LogSuppressed(b, e, rendering, source, episode), d, g)
  {
    ReplayAppend(b.audit, AuditEvent(e, Rendering, b.rows[e].Get(Rendering), rendering, source, episode), d, g);
  }

  /** Changing or adding one row without touching its locks or locked fields. */
  lemma OneRow(b: Bible, c: Bible, e: EntityId)
    requires e in c.rows && c.rows == b.rows[e := c.rows[e]]
    requires e in b.rows ==> c.rows[e].locked == b.rows[e].locked
                             && forall f :: f in b.rows[e].locked ==> c.rows[e].Get(f) == b.rows[e].Get(f)
    ensures LocksHold(b, c)
    ensures !e.Pair? ==> SamePairs(b, c)
  {
  }

  lemma {:induction false} MatchesAll(names: seq<string>, key: string, fold: string -> string, i: nat)
    requires i < |names| && fold(names[i]) == key
    ensures i + 1 in Matches(names, key, fold)
  {
    if i < |names| - 1 {
      MatchesAll(names[..|names| - 1], key, fold, i);
    }
  }

  /** An upsert touches the oldest stored term whose source reads the same, or a new one if none does. */
  lemma TermFound(b: Bible, rules: NameRules, sourceTerm: string)
    requires Valid(b)
    ensures var e, key := TermTouched(b, rules, sourceTerm), rules.lower(Strip(sourceTerm));
            && (e in b.rows <==> exists i :: 0 <= i < |b.termSources| && rules.sqlLower(b.termSources[i]) == key)
            && (e in b.rows ==> e.id <= |b.termSources| && rules.sqlLower(b.termSources[e.id - 1]) == key
                                && forall i :: 0 <= i < e.id - 1 ==> rules.sqlLower(b.termSources[i]) != key)
            && (e !in b.rows ==> e.id == |b.termSources| + 1)
  {
    hide Strip, Matches;
    var e, key := TermTouched(b, rules, sourceTerm), rules.lower(Strip(sourceTerm));
    var found := Matches(b.termSources, key, rules.sqlLower);
    if |found| > 0 {
      forall i: nat | i < e.id - 1
        ensures rules.sqlLower(b.termSources[i]) != key
      {
        if rules.sqlLower(b.termSources[i]) == key {
          MatchesAll(b.termSources, key, rules.sqlLower, i);
        }
      }
    }
  }

  lemma TwoOffered(p: Proposal, q: Proposal, f: Field, current: Option<string>)
    requires p.field != q.field
    ensures Offered(Provided([p, q]), f, current) ==
              if f == p.field && p.value.Some? then p.value else if f == q.field && q.value.Some? then q.value else current
  {
    ProvidedPair(p, q);
    var none: seq<Proposal> := [];
    OfferedAppend(none, p, f, current);
    OfferedAppend(none, q, f, current);
    assert none + [p] == [p] && none + [q] == [q] && [p] + [q] == [p, q];
    OfferedAppend([p], q, f, current);
    assert Offered(none, f, current) == current;
  }

  /** A text that is not just white space. */
  predicate Rendered(row: Row)
  {
    row.Get(Rendering).Some? && exists k :: 0 <= k < |row.Get(Rendering).value| && !IsSpace(row.Get(Rendering).value[k])
  }

  lemma RenderedIff(row: Row)
    ensures Rendered(row) <==> row.Get(Rendering).Some? && Strip(row.Get(Rendering).value) != []
  {
    if row.Get(Rendering).Some? {
      StripBlank(row.Get(Rendering).value);
    }
    hide Strip, IsSpace;
  }

  /** What an upsert leaves of a stored term's row. */
  ghost predicate TermMerged(row: Row, after: Row, rendering: Option<string>, category: Option<string>, source: Source)
  {
    && after.locked == row.locked
    && forall f :: after.Get(f) ==
         if f in row.locked then row.Get(f)
         else if f == Rendering && rendering.Some? && !(source == Inference && Rendered(row)) then rendering
         else if f == Category && category.Some? then category
         else row.Get(f)
  }

  ghost predicate TermInserted(after: Row, rendering: Option<string>, category: Option<string>)
  {
    && after.locked == {}
    && forall f :: after.Get(f) ==
         if f == Rendering then Some(if rendering.Some? then rendering.value else "") else if f == Category then category else None
  }

  lemma MergeTermEffect(b: Bible, e: EntityId, rendering: Option<string>, category: Option<string>,
                        source: Source, episode: Option<string>)
    requires e in b.rows
    ensures var c := MergeTerm(b, e, rendering, category, source, episode);
            && e in c.rows && c.rows == b.rows[e := c.rows[e]] && c.termSources == b.termSources
            && c.characterNames == b.characterNames
            && TermMerged(b.rows[e], c.rows[e], rendering, category, source)
  {
    hide Strip, IsSpace, Rendered, Merged, Provided, Propose, Offered, LogSuppressed;
    var row := b.rows[e];
    RenderedIff(row);
    var p, q := Proposal(Rendering, if Suppresses(row, rendering, source) then None else rendering), Proposal(Category, category);
    var props := TermProposals(row, rendering, category, source);
    forall f
      ensures Merged(row, props).Get(f) == if f in row.locked then row.Get(f)
                                           else if f == Rendering && p.value.Some? then p.value
                                           else if f == Category && category.Some? then category else row.Get(f)
    {
      MergedValue(row, props, f);
      TwoOffered(p, q, f, row.Get(f));
    }
  }

  lemma InsertTermEffect(b: Bible, sourceTerm: string, rendering: Option<string>, category: Option<string>,
                         source: Source, episode: Option<string>)
    requires Valid(b)
    ensures var e := Term(|b.termSources| + 1);
            var c := InsertTerm(b, sourceTerm, rendering, category, source, episode);
            && e in c.rows && c.rows == b.rows[e := c.rows[e]] && c.termSources == b.termSources + [sourceTerm]
            && c.characterNames == b.characterNames
            && TermInserted(c.rows[e], rendering, category)
  {
    hide Merged, Provided, Propose, Offered, Valid;
    var row := if rendering.None? then Row(map[Rendering := ""], {}) else Row(map[], {});
    var p, q := Proposal(Rendering, rendering), Proposal(Category, category);
    forall f
      ensures Merged(row, Provided([p, q])).Get(f) == if f == Rendering && rendering.Some? then rendering
                                                      else if f == Category && category.Some? then category else row.Get(f)
    {
      MergedValue(row, Provided([p, q]), f);
      TwoOffered(p, q, f, row.Get(f));
    }
  }

  /** What an upsert of a term leaves.  A stored term: its rendering is replaced by the one offered unless
      it is locked, or the offer is an inference and the rendering is not blank; a blank unlocked one is
      filled, by an inference too; its category by the one offered unless locked.  A new term holds what
      was offered, an empty rendering if none was.  No other row changes. */
  lemma UpsertTermEffect(b: Bible, rules: NameRules, sourceTerm: string, rendering: Option<string>,
                         category: Option<string>, source: Source, episode: Option<string>)
    requires Valid(b)
    ensures var e := TermTouched(b, rules, sourceTerm);
            var c := UpsertTerm(b, rules, sourceTerm, rendering, category, source, episode);
            && e in c.rows && c.rows == b.rows[e := c.rows[e]] && c.characterNames == b.characterNames
            && (if e in b.rows then c.termSources == b.termSources && TermMerged(b.rows[e], c.rows[e], rendering, category, source)
                else c.termSources == b.termSources + [sourceTerm] && TermInserted(c.rows[e], rendering, category))
  {
    hide TermTouched, MergeTerm, InsertTerm, TermMerged, TermInserted, Valid;
    var e := TermTouched(b, rules, sourceTerm);
    TermFound(b, rules, sourceTerm);
    if e in b.rows {
      MergeTermEffect(b, e, rendering, category, source, episode);
    } else {
      InsertTermEffect(b, sourceTerm, rendering, category, source, episode);
    }
  }

  lemma UpsertTermSafe(b: Bible, rules: NameRules, sourceTerm: string, rendering: Option<string>,
                       category: Option<string>, source: Source, episode: Option<string>)
    requires Valid(b)
    ensures var c := UpsertTerm(b, rules, sourceTerm, rendering, category, source, episode);
            LocksHold(b, c) && Valid(c) && c.characterNames == b.characterNames && SamePairs(b, c)
  {
    hide UpsertTerm, TermTouched, LocksHold, SamePairs, Rendered;
    var e := TermTouched(b, rules, sourceTerm);
    var c := UpsertTerm(b, rules, sourceTerm, rendering, category, source, episode);
    TermFound(b, rules, sourceTerm);
    UpsertTermEffect(b, rules, sourceTerm, rendering, category, source, episode);
    OneRow(b, c, e);
  }

  lemma UpsertTermKeepsAudit(b: Bible, rules: NameRules, sourceTerm: string, rendering: Option<string>,
                             category: Option<string>, source: Source, episode: Option<string>)
    requires Valid(b) && AuditSound(b)
    ensures AuditSound(UpsertTerm(b, rules, sourceTerm, rendering, category, source, episode))
  {
    var c := UpsertTerm(b, rules, sourceTerm, rendering, category, source, episode);
    forall d, g | Audited(d, g)
      ensures Chained(c, d, g)
    {
      assert Chained(b, d, g);
      UpsertTermKeepsChain(b, rules, sourceTerm, rendering, category, source, episode, d, g);
    }
  }

  lemma UpsertTermKeepsChain(b: Bible, rules: NameRules, sourceTerm: string, rendering: Option<string>,
                             category: Option<string>, source: Source, episode: Option<string>, d: EntityId, g: Field)
    requires Valid(b) && Chained(b, d, g)
    requires d != TermTouched(b, rules, sourceTerm) || g != Rendering
    ensures Chained(UpsertTerm(b, rules, sourceTerm, rendering, category, source, episode), d, g)
  {
    var e := TermTouched(b, rules, sourceTerm);
    if e !in b.rows {
      var row := if rendering.None? then Row(map[Rendering := ""], {}) else Row(map[], {});
      var c := b.(rows := b.rows[e := row], termSources := b.termSources + [sourceTerm]);
      assert Chained(c, d, g);
      ProposeKeepsChain(c, e, Provided([Proposal(Rendering, rendering), Proposal(Category, category)]), source, episode, d, g);
    } else {
      LogSuppressedKeepsChain(b, e, rendering, source, episode, d, g);
      ProposeKeepsChain(LogSuppressed(b, e, rendering, source, episode), e,
                        TermProposals(b.rows[e], rendering, category, source), source, episode, d, g);
    }
  }

  lemma ProvidedPair(p: Proposal, q: Proposal)
    ensures Provided([p, q]) == (if p.value.Some? then [p] else []) + (if q.value.Some? then [q] else [])
  {
    assert [p, q][..1] == [p];
    assert [p][..0] == [];
    assert Provided([p]) == if p.value.Some? then [p] else [];
  }

  lemma InsertChainIff(b: Bible, e: EntityId, sourceTerm: string, rendering: Option<string>, category: Option<string>,
                       source: Source, episode: Option<string>)
    requires Valid(b) && e == Term(|b.termSources| + 1) && e !in b.rows && Chained(b, e, Rendering)
    ensures Chained(InsertTerm(b, sourceTerm, rendering, category, source, episode), e, Rendering) <==> rendering.Some?
  {
    hide Valid, Propose, Provided, Replay;
    var props := [Proposal(Rendering, rendering), Proposal(Category, category)];
    var row := if rendering.None? then Row(map[Rendering := ""], {}) else Row(map[], {});
    var c := b.(rows := b.rows[e := row], termSources := b.termSources + [sourceTerm]);
    if rendering.Some? {
      ProposeKeepsChain(c, e, Provided(props), source, episode, e, Rendering);
    } else {
      ProvidedPair(props[0], props[1]);
      ProposeLeavesReplay(c, e, Provided(props), source, episode, e, Rendering);
    }
  }

  lemma MergeChainIff(b: Bible, e: EntityId, rendering: Option<string>, category: Option<string>, source: Source, episode: Option<string>)
    requires e in b.rows && Chained(b, e, Rendering)
    ensures Chained(MergeTerm(b, e, rendering, category, source, episode), e, Rendering) <==>
            !(Suppresses(b.rows[e], rendering, source) && rendering != b.rows[e].Get(Rendering))
  {
    hide Propose, Provided, Replay, Strip;
    var log := LogSuppressed(b, e, rendering, source, episode);
    var props := TermProposals(b.rows[e], rendering, category, source);
    if Suppresses(b.rows[e], rendering, source) && rendering != b.rows[e].Get(Rendering) {
      ReplayAppend(b.audit, AuditEvent(e, Rendering, b.rows[e].Get(Rendering), rendering, source, episode), e, Rendering);
      ProvidedPair(Proposal(Rendering, None), Proposal(Category, category));
      hide Suppresses;
      ProposeLeavesReplay(log, e, props, source, episode, e, Rendering);
    } else {
      ProposeKeepsChain(b, e, props, source, episode, e, Rendering);
    }
  }

  /** The chain of a term's rendering breaks exactly when an inference is suppressed and logged, or
      a term is created without a rendering (stored as the empty string, never logged). */
  lemma TermChainIff(b: Bible, rules: NameRules, sourceTerm: string, rendering: Option<string>,
                     category: Option<string>, source: Source, episode: Option<string>)
    requires Valid(b)
    requires Chained(b, TermTouched(b, rules, sourceTerm), Rendering)
    ensures var e := TermTouched(b, rules, sourceTerm);
            var c := UpsertTerm(b, rules, sourceTerm, rendering, category, source, episode);
            Chained(c, e, Rendering) <==>
            if e in b.rows
            then !(Suppresses(b.rows[e], rendering, source) && rendering != b.rows[e].Get(Rendering))
            else rendering.Some?
  {
    hide Chained, Suppresses, InsertTerm, MergeTerm, TermTouched, Valid;
    var e := TermTouched(b, rules, sourceTerm);
    if e in b.rows {
      MergeChainIff(b, e, rendering, category, source, episode);
    } else {
      TermIsNew(b, rules, sourceTerm);
      InsertChainIff(b, e, sourceTerm, rendering, category, source, episode);
    }
  }

  lemma TermIsNew(b: Bible, rules: NameRules, sourceTerm: string)
    requires Valid(b) && TermTouched(b, rules, sourceTerm) !in b.rows
    ensures TermTouched(b, rules, sourceTerm) == Term(|b.termSources| + 1)
  {
  }

  /** Proposals that do not mention a column leave its log and its value alone. */
  lemma {:induction false} ProposeLeavesReplay(b: Bible, e: EntityId, props: seq<Proposal>, source: Source,
                                               episode: Option<string>, d: EntityId, g: Field)
    requires e in b.rows
    requires d != e || forall p :: p in props ==> p.field != g
    ensures Replay(Propose(b, e, props, source, episode).audit, d, g) == Replay(b.audit, d, g)
    ensures Value(Propose(b, e, props, source, episode), d, g) == Value(b, d, g)
  {
    if |props| > 0 {
      var front := Propose(b, e, props[..|props| - 1], source, episode);
      var p := props[|props| - 1];
      ProposeLeavesReplay(b, e, props[..|props| - 1], source, episode, d, g);
      ReplayAppend(front.audit, AuditEvent(e, p.field, front.rows[e].Get(p.field), p.value, source, episode), d, g);
    }
  }

  lemma MergeInferredSafe(b: Bible, e: EntityId, props: seq<Proposal>, source: Source, episode: Option<string>)
    ensures LocksHold(b, MergeInferred(b, e, props, source, episode))
    ensures Valid(b) ==> Valid(MergeInferred(b, e, props, source, episode))
    ensures AuditSound(b) ==> AuditSound(MergeInferred(b, e, props, source, episode))
  {
    if e in b.rows && AuditSound(b) {
      ProposeKeepsAudit(b, e, props, source, episode);
    }
  }

  /** A human edit writes through the lock and touches no other row. */
  lemma EditFieldEffect(b: Bible, e: EntityId, f: Field, v: Option<string>, lock: bool)
    requires e in b.rows && f in Mergeable(e)
    ensures var c := EditField(b, e, f, v, lock);
            c.rows == b.rows[e := c.rows[e]] && c.rows[e].Get(f) == v && (f in c.rows[e].locked <==> lock)
            && c.characterNames == b.characterNames && c.termSources == b.termSources
  {
  }

  /** A person's edit writes the field through its lock, sets or clears that one lock, and is logged as a
      lock or as an import; every other field and lock of the row stays. */
  lemma EditFieldLeaves(b: Bible, e: EntityId, f: Field, v: Option<string>, lock: bool)
    requires e in b.rows && f in Mergeable(e)
    ensures var c := EditField(b, e, f, v, lock);
            && e in c.rows && c.rows[e].Get(f) == v
            && (forall g :: g != f ==> c.rows[e].Get(g) == b.rows[e].Get(g))
            && (forall g :: g in c.rows[e].locked <==> if g == f then lock else g in b.rows[e].locked)
            && c.audit == b.audit + [AuditEvent(e, f, b.rows[e].Get(f), v, if lock then Lock else Import, None)]
  {
  }

  /** What a merge logs: one event for each change, of this row and source and episode, from the value it
      replaced to the value that was offered, and none for a locked field. */
  lemma {:induction false} ProposeLogs(b: Bible, e: EntityId, props: seq<Proposal>, source: Source, episode: Option<string>)
    requires e in b.rows
    ensures var c := Propose(b, e, props, source, episode);
            && b.audit <= c.audit
            && forall k :: |b.audit| <= k < |c.audit| ==>
                 && c.audit[k].entity == e && c.audit[k].source == source && c.audit[k].episode == episode
                 && c.audit[k].prior != c.audit[k].next && c.audit[k].field !in b.rows[e].locked
                 && Proposal(c.audit[k].field, c.audit[k].next) in props
  {
    if |props| > 0 {
      ProposeLogs(b, e, props[..|props| - 1], source, episode);
    }
  }

  lemma EditFieldKeepsAudit(b: Bible, e: EntityId, f: Field, v: Option<string>, lock: bool)
    requires AuditSound(b)
    ensures AuditSound(EditField(b, e, f, v, lock))
  {
    hide Chained;
    if e in b.rows && f in Mergeable(e) {
      var source := if lock then Lock else Import;
      WriteKeepsAudit(b, e, f, v, source, None);
      RelockKeepsAudit(Write(b, e, f, v, source, None), e, {f}, lock);
    }
  }

  /** A pair edit touches no other row, and a locked pair always has two non-empty terms. */
  lemma EditPairEffect(b: Bible, e: EntityId, selfTerm: Option<string>, addressTerm: Option<string>, lock: bool)
    requires e.Pair? && e in b.rows
    ensures var c := EditPair(b, e, selfTerm, addressTerm, lock);
            c.rows == b.rows[e := c.rows[e]]
            && c.characterNames == b.characterNames && c.termSources == b.termSources
            && (c != b && lock ==> Established(c.rows[e]))
  {
    hide Strip, EditPairField;
    EditPairFieldEffect(b, e, SelfTerm, selfTerm, lock);
    EditPairFieldEffect(EditPairField(b, e, SelfTerm, selfTerm, lock), e, AddressTerm, addressTerm, lock);
  }

  predicate Blank(o: Option<string>)
  {
    o.None? || forall k :: 0 <= k < |o.value| ==> IsSpace(o.value[k])
  }

  /** An edit of a pair: refused if it would lock a blank term; else each term given is stored trimmed, one
      that is not given stays, both locks are set or both cleared, and nothing else of the row changes. */
  lemma EditPairLeaves(b: Bible, e: EntityId, selfTerm: Option<string>, addressTerm: Option<string>, lock: bool)
    requires e.Pair? && e in b.rows
    ensures var c := EditPair(b, e, selfTerm, addressTerm, lock);
            if lock && (Blank(selfTerm) || Blank(addressTerm)) then c == b
            else
              && e in c.rows
              && c.rows[e].Get(SelfTerm) == (if selfTerm.Some? then Some(Strip(selfTerm.value)) else b.rows[e].Get(SelfTerm))
              && c.rows[e].Get(AddressTerm) == (if addressTerm.Some? then Some(Strip(addressTerm.value)) else b.rows[e].Get(AddressTerm))
              && (forall f :: f != SelfTerm && f != AddressTerm ==> c.rows[e].Get(f) == b.rows[e].Get(f))
              && (forall f :: f in c.rows[e].locked <==> if f == SelfTerm || f == AddressTerm then lock else f in b.rows[e].locked)
  {
    hide Strip, Blank, EditPairField;
    BlankIff(selfTerm);
    BlankIff(addressTerm);
    var mid := EditPairField(b, e, SelfTerm, selfTerm, lock);
    PairFieldLocks(b, e, SelfTerm, selfTerm, lock);
    PairFieldLocks(mid, e, AddressTerm, addressTerm, lock);
    EditPairFieldEffect(b, e, SelfTerm, selfTerm, lock);
    EditPairFieldEffect(mid, e, AddressTerm, addressTerm, lock);
  }

  lemma BlankIff(o: Option<string>)
    ensures Blank(o) <==> o.None? || Strip(o.value) == []
  {
    if o.Some? {
      StripBlank(o.value);
    }
    hide Strip, IsSpace;
  }

  lemma PairFieldLocks(b: Bible, e: EntityId, f: Field, v: Option<string>, lock: bool)
    requires e in b.rows
    ensures e in EditPairField(b, e, f, v, lock).rows && EditPairField(b, e, f, v, lock).rows[e].locked == b.rows[e].locked
    ensures v.None? ==> EditPairField(b, e, f, v, lock).rows[e].Get(f) == b.rows[e].Get(f)
  {
    hide Strip;
  }

  lemma EditPairFieldEffect(b: Bible, e: EntityId, f: Field, v: Option<string>, lock: bool)
    requires e in b.rows
    ensures var c := EditPairField(b, e, f, v, lock);
            c.rows == b.rows[e := c.rows[e]]
            && (v.Some? ==> c.rows[e].Get(f) == Some(Strip(v.value)))
            && (forall g :: g != f ==> c.rows[e].Get(g) == b.rows[e].Get(g))
            && c.characterNames == b.characterNames && c.termSources == b.termSources
  {
    assert b.rows[e := b.rows[e]] == b.rows;
  }

  /** Both terms present and non-empty. */
  predicate Established(row: Row)
  {
    && row.Get(SelfTerm).Some? && row.Get(SelfTerm).value != []
    && row.Get(AddressTerm).Some? && row.Get(AddressTerm).value != []
  }

  lemma EditPairFieldKeepsAudit(b: Bible, e: EntityId, f: Field, v: Option<string>, lock: bool)
    requires e in b.rows && AuditSound(b)
    ensures AuditSound(EditPairField(b, e, f, v, lock))
  {
    hide Chained;
    if v.Some? { WriteKeepsAudit(b, e, f, Some(Strip(v.value)), if lock then Lock else Import, None); }
  }

  lemma EditPairKeepsAudit(b: Bible, e: EntityId, selfTerm: Option<string>, addressTerm: Option<string>, lock: bool)
    requires e.Pair? && AuditSound(b)
    ensures AuditSound(EditPair(b, e, selfTerm, addressTerm, lock))
  {
    hide Chained;
    if e in b.rows {
      EditPairFieldKeepsAudit(b, e, SelfTerm, selfTerm, lock);
      var c := EditPairField(b, e, SelfTerm, selfTerm, lock);
      EditPairFieldKeepsAudit(c, e, AddressTerm, addressTerm, lock);
      RelockKeepsAudit(EditPairField(c, e, AddressTerm, addressTerm, lock), e, {SelfTerm, AddressTerm}, lock);
    }
  }

  lemma EditTermBySourceEffect(b: Bible, sourceTerm: string, v: string, lock: bool)
    requires Valid(b)
    ensures var c := EditTermBySource(b, sourceTerm, v, lock);
            c.Some? ==> Valid(c.value)
                        && c.value.characterNames == b.characterNames && SamePairs(b, c.value)
                        // A source nobody has yet only ever creates a row.
                        && (sourceTerm !in b.termSources ==>
                              LocksHold(b, c.value) && c.value.termSources == b.termSources + [sourceTerm])
                        && (sourceTerm in b.termSources ==> c.value.termSources == b.termSources)
  {
    var found := Matches(b.termSources, sourceTerm, (s: string) => s);
    if |found| == 0 {
      var e := Term(|b.termSources| + 1);
      var created := Create(b, e).(termSources := b.termSources + [sourceTerm]);
      EditFieldEffect(created, e, Rendering, Some(v), lock);
    } else if |found| == 1 {
      assert b.termSources[found[0] - 1] == sourceTerm;
      EditFieldEffect(b, Term(found[0]), Rendering, Some(v), lock);
    }
  }

  lemma EditTermBySourceKeepsAudit(b: Bible, sourceTerm: string, v: string, lock: bool)
    requires Valid(b) && AuditSound(b)
    ensures EditTermBySource(b, sourceTerm, v, lock).Some? ==> AuditSound(EditTermBySource(b, sourceTerm, v, lock).value)
  {
    hide Chained;
    var found := Matches(b.termSources, sourceTerm, (s: string) => s);
    if |found| == 0 {
      var e := Term(|b.termSources| + 1);
      var created := Create(b, e).(termSources := b.termSources + [sourceTerm]);
      CreateKeepsAudit(b, created, e);
      EditFieldKeepsAudit(created, e, Rendering, Some(v), lock);
    } else if |found| == 1 {
      EditFieldKeepsAudit(b, Term(found[0]), Rendering, Some(v), lock);
    }
  }
}
