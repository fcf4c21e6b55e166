/** Pronoun reconciliation: one pair of terms per directed dyad, chosen by the precedence ladder
    lock > evolution > carried pair > safe default, in whatever order the dyads are visited. */
module Reconcile {
  import opened Options
  import opened Text
  import opened BibleStore
  import opened BibleTables
  import opened Attribution

  /** A relationship event as reconciliation sees it; the suggestions exist only in memory. */
  datatype Transition = Transition(a: nat, b: nat, marker: string, suggestedSelf: Option<string>,
                                   suggestedAddress: Option<string>)

  datatype Settings = Settings(threshold: string, safeDefault: Option<Terms>, enableEvents: bool)

  /** Everything one reconciliation reads: the Bible snapshot, the episode and its attributions. */
  datatype Context = Context(
    rows: map<EntityId, Row>,
    characterNames: seq<string>,
    transitions: seq<Transition>,
    attributions: seq<LineAttribution>,
    episode: string,
    settings: Settings,
    rules: NameRules) {
    function Index(): map<string, nat> { NameIndex(characterNames, rules.lower) }
    function PairFor(attr: LineAttribution): (r: Option<EntityId>)
      ensures r.Some? ==> r.value.Pair?
    { Attribution.PairOf(Index(), rules, attr) }
  }

  /** The reciprocal table: what the addressee says back to a kinship pair. */
  function Kinship(): map<Terms, Terms>
  {
    map[
    ("anh", "em") := ("em", "anh"), ("em", "anh") := ("anh", "em"),
    ("chị", "em") := ("em", "chị"), ("em", "chị") := ("chị", "em"),
    ("anh", "anh") := ("anh", "anh"), ("chị", "chị") := ("chị", "chị"),
    ("ông", "cháu") := ("cháu", "ông"), ("bà", "cháu") := ("cháu", "bà"),
    ("ông", "con") := ("con", "ông"), ("bà", "con") := ("con", "bà"),
    ("bố", "con") := ("con", "bố"), ("mẹ", "con") := ("con", "mẹ"), ("cha", "con") := ("con", "cha"),
    ("tôi", "bạn") := ("bạn", "tôi"), ("tôi", "anh") := ("anh", "tôi"), ("tôi", "chị") := ("chị", "tôi"),
    ("tôi", "ông") := ("ông", "tôi"), ("tôi", "bà") := ("bà", "tôi"),
    ("bác", "cháu") := ("cháu", "bác"), ("cháu", "bác") := ("bác", "cháu"),
    ("chú", "cháu") := ("cháu", "chú"), ("cháu", "chú") := ("chú", "cháu"),
    ("cô", "cháu") := ("cháu", "cô"), ("cháu", "cô") := ("cô", "cháu"),
    ("thầy", "em") := ("em", "thầy"), ("em", "thầy") := ("thầy", "em"),
    ("tao", "mày") := ("mày", "tao"), ("mày", "tao") := ("tao", "mày")]
  }

  function Reciprocal(t: Terms): Option<Terms>
  {
    if t in Kinship() then Some(Kinship()[t]) else None
  }

  const CLASSICAL_TOKENS: seq<string> := [
    "classical", "historical", "wuxia", "xianxia", "cultivation", "period", "ancient", "martial", "imperial",
    "dynasty", "cổ trang", "co trang", "tiên hiệp", "kiếm hiệp", "tu tiên", "võ hiệp"]

  predicate IsClassical(register: Option<string>, lower: string -> string)
  {
    register.Some? && register.value != []
    && exists k :: 0 <= k < |CLASSICAL_TOKENS| && Contains(lower(register.value), CLASSICAL_TOKENS[k])
  }

  /** The user's override first, then the ladder of the series' register; never an intimate term. */
  function SafeDefault(gender: Option<string>, settings: Settings, classical: bool): Terms
  {
    if settings.safeDefault.Some? then settings.safeDefault.value
    else if classical then ("tại hạ", if gender == Some("female") then "cô nương" else "các hạ")
    else ("tôi", if gender == Some("male") then "anh" else if gender == Some("female") then "chị" else "bạn")
  }

  function DefaultFor(ctx: Context, pair: EntityId): Terms
    requires pair.Pair?
  {
    var who := Character(pair.addressee);
    SafeDefault(if who in ctx.rows then ctx.rows[who].Get(Gender) else None, ctx.settings,
                IsClassical(if Series in ctx.rows then ctx.rows[Series].Get(Register) else None, ctx.rules.lower))
  }

  function ThresholdValue(threshold: string, lower: string -> string): int
  {
    var t := lower(threshold);
    if t == "high" then 3 else if t == "medium" then 2 else if t == "low" then 1 else 2
  }

  function ConfidenceValue(c: Confidence): int
  {
    match c case High => 3 case Medium => 2 case Low => 1
  }

  // ---- one dyad --------------------------------------------------------------------------

  /** The attributions of one dyad, in line order. */
  function Group(ctx: Context, attrs: seq<LineAttribution>, pair: EntityId): seq<LineAttribution>
  {
    if |attrs| == 0 then [] else
      var front := Group(ctx, attrs[..|attrs| - 1], pair);
      if ctx.PairFor(attrs[|attrs| - 1]) == Some(pair) then front + [attrs[|attrs| - 1]] else front
  }

  function Survivors(attrs: seq<LineAttribution>, threshold: int): (r: seq<LineAttribution>)
    ensures forall a :: a in r <==> a in attrs && ConfidenceValue(a.confidence) >= threshold
  {
    if |attrs| == 0 then [] else
      var front := Survivors(attrs[..|attrs| - 1], threshold);
      if ConfidenceValue(attrs[|attrs| - 1].confidence) >= threshold then front + [attrs[|attrs| - 1]] else front
  }

  predicate Confident(ctx: Context, pair: EntityId)
  {
    Survivors(Group(ctx, ctx.attributions, pair), ThresholdValue(ctx.settings.threshold, ctx.rules.lower)) != []
  }

  /** The first event of this very episode between the two, in either direction. */
  function FindTransition(transitions: seq<Transition>, pair: EntityId, episode: string): Option<Transition>
    requires pair.Pair?
  {
    if |transitions| == 0 then None
    else
      var t := transitions[0];
      if t.marker == episode && ((t.a == pair.speaker && t.b == pair.addressee) || (t.a == pair.addressee && t.b == pair.speaker))
      then Some(t)
      else FindTransition(transitions[1..], pair, episode)
  }

  /** The transition that may change this dyad's terms in this episode, if any. */
  function Authorized(ctx: Context, pair: EntityId): Option<Transition>
    requires pair.Pair?
  {
    if ctx.settings.enableEvents && ctx.episode != "S00E00" then FindTransition(ctx.transitions, pair, ctx.episode) else None
  }

  predicate HasTerms(row: Row)
  {
    row.Get(SelfTerm).Some? && row.Get(AddressTerm).Some?
  }

  function TermsOf(row: Row): Terms
    requires HasTerms(row)
  {
    (row.Get(SelfTerm).value, row.Get(AddressTerm).value)
  }

  predicate Suggests(t: Transition)
  {
    t.suggestedSelf.Some? && t.suggestedSelf.value != [] && t.suggestedAddress.Some? && t.suggestedAddress.value != []
  }

  /** Suggested terms, else the established pair (with or without a confident line), else the default. */
  function TransitionTerms(ctx: Context, t: Transition, pair: EntityId): Terms
    requires pair.Pair?
  {
    if Suggests(t) then (t.suggestedSelf.value, t.suggestedAddress.value)
    else if pair in ctx.rows && Established(ctx.rows[pair]) then TermsOf(ctx.rows[pair])
    else DefaultFor(ctx, pair)
  }

  predicate PairLocked(row: Row)
  {
    SelfTerm in row.locked || AddressTerm in row.locked
  }

  /** The terms the translation will use for a dyad, and what is offered to its stored row. */
  datatype Resolution = Resolution(terms: Terms, write: Option<seq<Proposal>>)

  function Offer(terms: Terms, validFrom: Option<string>): seq<Proposal>
  {
    PairProposals(Some(terms.0), Some(terms.1), validFrom)
  }

  function Resolve(ctx: Context, pair: EntityId): Resolution
    requires pair.Pair?
  {
    var stored := pair in ctx.rows && HasTerms(ctx.rows[pair]);
    if stored && PairLocked(ctx.rows[pair]) then Resolution(TermsOf(ctx.rows[pair]), None)
    else
      var t := Authorized(ctx, pair);
      if t.Some? then
        var terms := TransitionTerms(ctx, t.value, pair);
        var same := pair in ctx.rows && ctx.rows[pair].Get(SelfTerm) == Some(terms.0)
                    && ctx.rows[pair].Get(AddressTerm) == Some(terms.1);
        Resolution(terms, Some(Offer(terms, if same then None else Some(ctx.episode))))
      else if Confident(ctx, pair) then
        var terms := if stored then TermsOf(ctx.rows[pair]) else DefaultFor(ctx, pair);
        Resolution(terms, Some(Offer(terms, None)))
      else if stored then Resolution(TermsOf(ctx.rows[pair]), None)
      else Resolution(DefaultFor(ctx, pair), None)
  }

  // ---- all dyads -------------------------------------------------------------------------

  function Observed(ctx: Context, attrs: seq<LineAttribution>): (r: set<EntityId>)
    ensures forall p :: p in r ==> p.Pair?
    ensures forall p :: p in r <==> Group(ctx, attrs, p) != []
  {
    if |attrs| == 0 then {} else
      var front := Observed(ctx, attrs[..|attrs| - 1]);
      var p := ctx.PairFor(attrs[|attrs| - 1]);
      if p.Some? then front + {p.value} else front
  }

  function Existing(rows: map<EntityId, Row>): (r: set<EntityId>)
    ensures forall p :: p in r <==> p in rows && p.Pair?
  {
    set p | p in rows && p.Pair?
  }

  function AllPairs(ctx: Context): (r: set<EntityId>)
    ensures forall p :: p in r ==> p.Pair?
  {
    Observed(ctx, ctx.attributions) + Existing(ctx.rows)
  }

  function Reverse(pair: EntityId): (r: EntityId)
    requires pair.Pair?
    ensures r.Pair?
  {
    Pair(pair.addressee, pair.speaker)
  }

  function Base(ctx: Context): (r: map<EntityId, Terms>)
    ensures r.Keys == AllPairs(ctx)
  {
    map p | p in AllPairs(ctx) :: Resolve(ctx, p).terms
  }

  predicate NeedsMirror(base: map<EntityId, Terms>, p: EntityId)
  {
    p in base && p.Pair? && Reciprocal(base[p]).Some? && Reverse(p) !in base
  }

  /** The reverse dyads that are added because a kinship pair implies them. */
  function Mirrors(base: map<EntityId, Terms>): (r: map<EntityId, Terms>)
    requires forall p :: p in base ==> p.Pair?
    ensures forall q :: q in r <==> q.Pair? && NeedsMirror(base, Reverse(q))
    ensures forall q :: q in r ==> q.Pair? && Reverse(q) in base && Reciprocal(base[Reverse(q)]) == Some(r[q])
  {
    var keys := set p | p in base && NeedsMirror(base, p) :: Reverse(p);
    assert forall q: EntityId :: q.Pair? && NeedsMirror(base, Reverse(q)) ==> q == Reverse(Reverse(q)) && q in keys;
    map q | q in keys :: Reciprocal(base[Reverse(q)]).value
  }

  /** The map the translation pass looks terms up in. */
  function Resolved(ctx: Context): map<EntityId, Terms>
  {
    Base(ctx) + Mirrors(Base(ctx))
  }

  /** What is offered to stored rows: the dyads that resolved with a write, and the mirrors. */
  function Writes(ctx: Context): (r: map<EntityId, seq<Proposal>>)
    ensures forall p :: p in r ==> p.Pair?
  {
    var mirrors := Mirrors(Base(ctx));
    (map p | p in AllPairs(ctx) && Resolve(ctx, p).write.Some? :: Resolve(ctx, p).write.value)
    + (map q | q in mirrors :: Offer(mirrors[q], None))
  }

  /** Upserting some dyads' writes one transaction at a time. */
  function UpsertAll(b: Bible, writes: map<EntityId, seq<Proposal>>, order: seq<EntityId>, episode: string): Bible
  {
    if |order| == 0 then b else
      var front := UpsertAll(b, writes, order[..|order| - 1], episode);
      var p := order[|order| - 1];
      if p in writes && p.Pair? then UpsertPair(front, p, writes[p], Inference, Some(episode)) else front
  }

  ghost predicate Distinct(order: seq<EntityId>)
  {
    forall i, j :: 0 <= i < j < |order| ==> order[i] != order[j]
  }

  lemma UpsertAllEmpty(b: Bible, writes: map<EntityId, seq<Proposal>>, episode: string)
    ensures UpsertAll(b, writes, [], episode) == b && Distinct([])
  {
  }

  lemma UpsertAllStep(b: Bible, writes: map<EntityId, seq<Proposal>>, order: seq<EntityId>, p: EntityId, episode: string)
    requires p in writes && p.Pair?
    ensures forall q :: q in order + [p] <==> q in order || q == p
    ensures UpsertAll(b, writes, order + [p], episode)
         == UpsertPair(UpsertAll(b, writes, order, episode), p, writes[p], Inference, Some(episode))
    ensures Distinct(order) && p !in order ==> Distinct(order + [p])
  {
    assert (order + [p])[..|order|] == order;
  }

  // ---- the pass itself -------------------------------------------------------------------

  lemma NoGroups(ctx: Context)
    ensures Observed(ctx, []) == {}
    ensures forall p :: Group(ctx, [], p) == []
  {
  }

  lemma GroupStep(ctx: Context, attrs: seq<LineAttribution>, i: nat)
    requires i < |attrs|
    ensures var p := ctx.PairFor(attrs[i]);
            Observed(ctx, attrs[..i + 1]) == if p.Some? then Observed(ctx, attrs[..i]) + {p.value} else Observed(ctx, attrs[..i])
    ensures forall q :: Group(ctx, attrs[..i + 1], q)
                     == if ctx.PairFor(attrs[i]) == Some(q) then Group(ctx, attrs[..i], q) + [attrs[i]] else Group(ctx, attrs[..i], q)
  {
    assert attrs[..i + 1][..i] == attrs[..i];
  }

  method GroupByPair(ctx: Context) returns (groups: map<EntityId, seq<LineAttribution>>)
    ensures groups.Keys == Observed(ctx, ctx.attributions)
    ensures forall p :: p in groups ==> groups[p] == Group(ctx, ctx.attributions, p)
  {
    hide NameIndex, ResolveCharId, Group, Observed;
    groups := map[];
    NoGroups(ctx);
    var index := ctx.Index();
    for i := 0 to |ctx.attributions|
      invariant groups.Keys == Observed(ctx, ctx.attributions[..i])
      invariant forall p :: p in groups ==> groups[p] == Group(ctx, ctx.attributions[..i], p)
    {
      GroupStep(ctx, ctx.attributions, i);
      var attr := ctx.attributions[i];
      var speaker := ResolveCharId(index, ctx.rules, attr.speaker);
      var addressee := ResolveCharId(index, ctx.rules, attr.addressee);
      if speaker.None? || addressee.None? {
        assert ctx.PairFor(attr) == None;
        continue;
      }
      var key := Pair(speaker.value, addressee.value);
      assert ctx.PairFor(attr) == Some(key);
      assert key !in groups ==> Group(ctx, ctx.attributions[..i], key) == [];
      groups := groups[key := (if key in groups then groups[key] else []) + [attr]];
    }
    assert ctx.attributions[..|ctx.attributions|] == ctx.attributions;
  }

  /** One dyad: climb the ladder, then offer the outcome to the stored row. */
  method VisitDyad(ctx: Context, tables: Tables, groups: map<EntityId, seq<LineAttribution>>, pair: EntityId)
    returns (r: Resolution)
    requires pair.Pair?
    requires groups.Keys == Observed(ctx, ctx.attributions)
    requires forall p :: p in groups ==> groups[p] == Group(ctx, ctx.attributions, p)
    modifies tables
    ensures r == Resolve(ctx, pair)
    ensures tables.State() == if r.write.Some?
                              then UpsertPair(old(tables.State()), pair, r.write.value, Inference, Some(ctx.episode))
                              else old(tables.State())
  {
    var threshold := ThresholdValue(ctx.settings.threshold, ctx.rules.lower);
    var attributions := if pair in groups then groups[pair] else [];
    ObservedIffGrouped(ctx, pair);
    r := ResolveOne(ctx, pair, Survivors(attributions, threshold));
    if r.write.Some? {
      tables.UpsertAddressPair(pair, r.write.value, Inference, Some(ctx.episode));
    }
  }

  /** The ladder over the set of dyads, in any order, writing as it goes. */
  method ResolveDyads(ctx: Context, tables: Tables) returns (resolved: map<EntityId, Terms>, ghost order: seq<EntityId>)
    modifies tables
    ensures resolved == Base(ctx)
    ensures Distinct(order) && (forall p :: p in order <==> p in AllPairs(ctx) && Resolve(ctx, p).write.Some?)
    ensures tables.State() == UpsertAll(old(tables.State()), Writes(ctx), order, ctx.episode)
  {
    hide *;
    var groups := GroupByPair(ctx);
    ghost var before, writes := tables.State(), Writes(ctx);
    resolved := map[];
    order := [];
    UpsertAllEmpty(before, writes, ctx.episode);
    var remaining := groups.Keys + Existing(ctx.rows);
    AllPairsAre(ctx);
    VisitedStart(ctx);
    assert remaining == AllPairs(ctx);
    assert AllPairs(ctx) - remaining == {};
    while remaining != {}
      invariant remaining <= AllPairs(ctx)
      invariant Visited(ctx, AllPairs(ctx) - remaining, resolved, order)
      invariant tables.State() == UpsertAll(before, writes, order, ctx.episode)
      decreases |remaining|
    {
      var pair :| pair in remaining;
      VisitStep(ctx, AllPairs(ctx) - remaining, resolved, order, pair, before);
      assert AllPairs(ctx) - (remaining - {pair}) == AllPairs(ctx) - remaining + {pair};
      remaining := remaining - {pair};
      var resolution := VisitDyad(ctx, tables, groups, pair);
      resolved := resolved[pair := resolution.terms];
      if resolution.write.Some? {
        order := order + [pair];
      }
    }
    BaseIs(ctx, resolved, order);
  }

  /** What the walk has done for the dyads in `done`. */
  ghost predicate Visited(ctx: Context, done: set<EntityId>, resolved: map<EntityId, Terms>, order: seq<EntityId>)
  {
    && done <= AllPairs(ctx)
    && resolved.Keys == done
    && (forall p :: p in resolved ==> resolved[p] == Resolve(ctx, p).terms)
    && Distinct(order)
    && forall p :: p in order <==> p in resolved && Resolve(ctx, p).write.Some?
  }

  lemma VisitedStart(ctx: Context)
    ensures Visited(ctx, {}, map[], [])
  {
  }

  lemma VisitStep(ctx: Context, done: set<EntityId>, resolved: map<EntityId, Terms>, order: seq<EntityId>, p: EntityId,
                  b: Bible)
    requires Visited(ctx, done, resolved, order) && p in AllPairs(ctx) && p !in done
    ensures p.Pair?
    ensures var r := Resolve(ctx, p);
            Visited(ctx, done + {p}, resolved[p := r.terms], if r.write.Some? then order + [p] else order)
            && (r.write.Some? ==>
                  UpsertAll(b, Writes(ctx), order + [p], ctx.episode)
                  == UpsertPair(UpsertAll(b, Writes(ctx), order, ctx.episode), p, r.write.value, Inference, Some(ctx.episode)))
  {
    hide Resolve, Writes, UpsertAll, UpsertPair, AllPairs, Distinct;
    if Resolve(ctx, p).write.Some? {
      WriteOf(ctx, p);
      UpsertAllStep(b, Writes(ctx), order, p, ctx.episode);
    }
  }

  lemma BaseIs(ctx: Context, resolved: map<EntityId, Terms>, order: seq<EntityId>)
    requires Visited(ctx, AllPairs(ctx), resolved, order)
    ensures resolved == Base(ctx)
    ensures Distinct(order) && (forall p :: p in order <==> p in AllPairs(ctx) && Resolve(ctx, p).write.Some?)
  {
  }

  lemma AllPairsAre(ctx: Context)
    ensures AllPairs(ctx) == Observed(ctx, ctx.attributions) + Existing(ctx.rows)
  {
  }

  lemma ObservedIffGrouped(ctx: Context, pair: EntityId)
    ensures pair in Observed(ctx, ctx.attributions) <==> Group(ctx, ctx.attributions, pair) != []
  {
  }

  /** Mirrors are never among the dyads the ladder resolved. */
  lemma WriteOf(ctx: Context, p: EntityId)
    requires p in AllPairs(ctx) && Resolve(ctx, p).write.Some?
    ensures p in Writes(ctx) && Writes(ctx)[p] == Resolve(ctx, p).write.value
  {
    assert p !in Mirrors(Base(ctx));
  }

  /** The reciprocal check: every kinship pair whose reverse dyad is not resolved yet. */
  method MirrorAdditions(resolved: map<EntityId, Terms>) returns (additions: seq<(EntityId, Terms)>)
    requires forall p :: p in resolved ==> p.Pair?
    ensures forall k :: 0 <= k < |additions| ==>
              additions[k].0 in Mirrors(resolved) && additions[k].1 == Mirrors(resolved)[additions[k].0]
    ensures forall q :: q in Mirrors(resolved) ==> exists k :: 0 <= k < |additions| && additions[k].0 == q
    ensures forall k, l :: 0 <= k < l < |additions| ==> additions[k].0 != additions[l].0
  {
    hide Kinship;
    additions := [];
    var remaining := resolved.Keys;
    ghost var mirrors := Mirrors(resolved);
    ghost var found: set<EntityId> := {};
    while remaining != {}
      invariant remaining <= resolved.Keys
      invariant forall k :: 0 <= k < |additions| ==>
                  additions[k].0 in mirrors && additions[k].1 == mirrors[additions[k].0] && additions[k].0 in found
      invariant forall q :: q in found ==> exists k :: 0 <= k < |additions| && additions[k].0 == q
      invariant forall q :: q in found <==> q in mirrors && Reverse(q) !in remaining
      invariant forall k, l :: 0 <= k < l < |additions| ==> additions[k].0 != additions[l].0
      decreases |remaining|
    {
      var p :| p in remaining;
      var rev := Reverse(p);
      assert Reverse(rev) == p;
      assert forall q :: q in mirrors && Reverse(q) == p ==> q == rev;
      if Reciprocal(resolved[p]).Some? && rev !in resolved {
        ghost var before := additions;
        additions := additions + [(rev, Reciprocal(resolved[p]).value)];
        found := found + {rev};
        assert additions[|before|].0 == rev;
        assert forall k :: 0 <= k < |before| ==> additions[k] == before[k];
      }
      remaining := remaining - {p};
    }
  }

  /** The second half: each mirror is added to the map and offered to its (absent) row. */
  method WriteMirrors(ctx: Context, tables: Tables, base: map<EntityId, Terms>)
    returns (resolved: map<EntityId, Terms>, ghost order: seq<EntityId>)
    requires base == Base(ctx)
    modifies tables
    ensures resolved == Resolved(ctx)
    ensures Distinct(order) && (forall p :: p in order <==> p in Mirrors(Base(ctx)))
    ensures tables.State() == UpsertAll(old(tables.State()), Writes(ctx), order, ctx.episode)
  {
    hide Kinship, Resolve, AllPairs, UpsertPair, Mirrors, Base, Writes, UpsertAll, Distinct, Added;
    resolved := base;
    order := [];
    var additions := MirrorAdditions(base);
    ghost var mirrors, before := Mirrors(base), tables.State();
    assert ListsMirrors(mirrors, additions);
    hide ListsMirrors;
    UpsertAllEmpty(before, Writes(ctx), ctx.episode);
    NoneAdded(base, mirrors, additions);
    for i := 0 to |additions|
      invariant Distinct(order) && |order| == i && Added(base, mirrors, additions, order, resolved)
      invariant tables.State() == UpsertAll(before, Writes(ctx), order, ctx.episode)
    {
      var (rev, terms) := additions[i];
      OneMoreAdded(base, mirrors, additions, order, resolved);
      MirrorWrite(ctx, rev);
      UpsertAllStep(before, Writes(ctx), order, rev, ctx.episode);
      resolved := resolved[rev := terms];
      tables.UpsertAddressPair(rev, Offer(terms, None), Inference, Some(ctx.episode));
      order := order + [rev];
    }
    AllAdded(base, mirrors, additions, order, resolved);
  }

  /** The additions are the mirrored rows, each once. */
  ghost predicate ListsMirrors(mirrors: map<EntityId, Terms>, additions: seq<(EntityId, Terms)>)
  {
    && (forall k :: 0 <= k < |additions| ==> additions[k].0 in mirrors && additions[k].1 == mirrors[additions[k].0])
    && (forall q :: q in mirrors ==> exists k :: 0 <= k < |additions| && additions[k].0 == q)
    && (forall k, l :: 0 <= k < l < |additions| ==> additions[k].0 != additions[l].0)
  }

  /** The map after the additions in `order` have been made. */
  ghost predicate Added(base: map<EntityId, Terms>, mirrors: map<EntityId, Terms>, additions: seq<(EntityId, Terms)>,
                        order: seq<EntityId>, resolved: map<EntityId, Terms>)
  {
    && |order| <= |additions| && (forall k :: 0 <= k < |order| ==> order[k] == additions[k].0)
    && (forall p :: p in order ==> p in mirrors)
    && (forall p :: p in resolved <==> p in base || p in order)
    && (forall p :: p in resolved ==> resolved[p] == if p in order then mirrors[p] else base[p])
  }

  lemma NoneAdded(base: map<EntityId, Terms>, mirrors: map<EntityId, Terms>, additions: seq<(EntityId, Terms)>)
    ensures Added(base, mirrors, additions, [], base)
  {
  }

  lemma OneMoreAdded(base: map<EntityId, Terms>, mirrors: map<EntityId, Terms>, additions: seq<(EntityId, Terms)>,
                     order: seq<EntityId>, resolved: map<EntityId, Terms>)
    requires ListsMirrors(mirrors, additions) && Added(base, mirrors, additions, order, resolved) && |order| < |additions|
    ensures var (rev, terms) := additions[|order|];
            && rev !in order && rev in mirrors && mirrors[rev] == terms
            && Added(base, mirrors, additions, order + [rev], resolved[rev := terms])
  {
    var (rev, terms) := additions[|order|];
    assert rev !in order;
    var more := order + [rev];
    assert forall p :: p in more <==> p in order || p == rev;
    assert forall k :: 0 <= k < |order| ==> more[k] == order[k];
  }

  lemma AllAdded(base: map<EntityId, Terms>, mirrors: map<EntityId, Terms>, additions: seq<(EntityId, Terms)>,
                 order: seq<EntityId>, resolved: map<EntityId, Terms>)
    requires ListsMirrors(mirrors, additions) && Added(base, mirrors, additions, order, resolved) && |order| == |additions|
    ensures resolved == base + mirrors
    ensures forall p :: p in order <==> p in mirrors
  {
    forall q | q in mirrors
      ensures q in order
    {
      var k :| 0 <= k < |additions| && additions[k].0 == q;
      assert order[k] == q;
    }
  }

  lemma MirrorWrite(ctx: Context, q: EntityId)
    requires q in Mirrors(Base(ctx))
    ensures q in Writes(ctx) && Writes(ctx)[q] == Offer(Mirrors(Base(ctx))[q], None)
  {
  }

  lemma {:induction false} UpsertAllAppend(b: Bible, writes: map<EntityId, seq<Proposal>>, first: seq<EntityId>,
                                           second: seq<EntityId>, episode: string)
    ensures UpsertAll(UpsertAll(b, writes, first, episode), writes, second, episode)
         == UpsertAll(b, writes, first + second, episode)
  {
    if |second| == 0 {
      assert first + second == first;
    } else {
      var n := |second| - 1;
      assert (first + second)[..|first + second| - 1] == first + second[..n];
      UpsertAllAppend(b, writes, first, second[..n], episode);
    }
  }

  /** The whole pass.  The visiting order of the set of dyads is left open, and neither the map nor
      the stored rows depend on it. */
  method ReconcileAttributions(ctx: Context, tables: Tables)
    returns (resolved: map<EntityId, Terms>, ghost order: seq<EntityId>)
    modifies tables
    ensures resolved == Resolved(ctx)
    ensures Distinct(order) && (forall p :: p in order <==> p in Writes(ctx))
    ensures tables.State() == UpsertAll(old(tables.State()), Writes(ctx), order, ctx.episode)
  {
    hide Kinship, Resolve, Mirrors, UpsertAll, Distinct, Writes, AllPairs, Base;
    ghost var before := tables.State();
    ghost var second: seq<EntityId>;
    resolved, order := ResolveDyads(ctx, tables);
    resolved, second := WriteMirrors(ctx, tables, resolved);
    WritesSplit(ctx);
    UpsertAllAppend(before, Writes(ctx), order, second, ctx.episode);
    DistinctConcat(order, second);
    order := order + second;
  }

  lemma DistinctConcat(first: seq<EntityId>, second: seq<EntityId>)
    requires Distinct(first) && Distinct(second) && forall p :: p in first ==> p !in second
    ensures Distinct(first + second)
  {
    forall i, j | 0 <= i < j < |first + second|
      ensures (first + second)[i] != (first + second)[j]
    {
      if i < |first| && j >= |first| {
        assert first[i] in first && second[j - |first|] in second;
      }
    }
  }

  lemma WritesSplit(ctx: Context)
    ensures forall p :: p in Writes(ctx) <==>
              (p in AllPairs(ctx) && Resolve(ctx, p).write.Some?) || p in Mirrors(Base(ctx))
    ensures forall p :: p in Mirrors(Base(ctx)) ==> p !in AllPairs(ctx)
  {
  }

  /** One pass through the ladder for one dyad. */
  method ResolveOne(ctx: Context, pair: EntityId, survivors: seq<LineAttribution>) returns (r: Resolution)
    requires pair.Pair?
    requires survivors != [] <==> Confident(ctx, pair)
    ensures r == Resolve(ctx, pair)
  {
    var existing := if pair in ctx.rows then Some(ctx.rows[pair]) else None;
    if existing.Some? && PairLocked(existing.value) && HasTerms(existing.value) {
      return Resolution(TermsOf(existing.value), None);
    }
    if ctx.settings.enableEvents && ctx.episode != "S00E00" {
      var t := FindTransition(ctx.transitions, pair, ctx.episode);
      if t.Some? {
        var terms := TransitionTerms(ctx, t.value, pair);
        var evolved := !(existing.Some? && existing.value.Get(SelfTerm) == Some(terms.0)
                         && existing.value.Get(AddressTerm) == Some(terms.1));
        return Resolution(terms, Some(Offer(terms, if evolved then Some(ctx.episode) else None)));
      }
    }
    if survivors != [] {
      var terms: Terms;
      if existing.Some? && HasTerms(existing.value) {
        terms := TermsOf(existing.value);
      } else {
        terms := DefaultFor(ctx, pair);
      }
      return Resolution(terms, Some(Offer(terms, None)));
    }
    if existing.Some? && HasTerms(existing.value) {
      return Resolution(TermsOf(existing.value), None);
    }
    return Resolution(DefaultFor(ctx, pair), None);
  }
}
