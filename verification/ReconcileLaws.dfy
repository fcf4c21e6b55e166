/** What reconciliation promises, whatever order its set of dyads is visited in. */
module ReconcileLaws {
  import opened Options
  import opened Text
  import opened BibleStore
  import opened Attribution
  import opened Reconcile

  // ---- the resolved map ------------------------------------------------------------------

  /** Every entry of the reciprocal table answers a pair with its two terms exchanged. */
  lemma KinshipSwaps(t: Terms)
    requires Reciprocal(t).Some?
    ensures Reciprocal(t).value == (t.1, t.0)
  {
  }

  /** Every dyad seen in the episode and every stored dyad gets terms. */
  lemma CoversEveryDyad(ctx: Context, p: EntityId)
    requires (p.Pair? && p in ctx.rows) || exists a :: a in ctx.attributions && ctx.PairFor(a) == Some(p)
    ensures p in Resolved(ctx)
  {
    if !(p.Pair? && p in ctx.rows) {
      var a :| a in ctx.attributions && ctx.PairFor(a) == Some(p);
      GroupNonEmpty(ctx, ctx.attributions, p, a);
    }
  }

  lemma {:induction false} GroupNonEmpty(ctx: Context, attrs: seq<LineAttribution>, p: EntityId, a: LineAttribution)
    requires a in attrs && ctx.PairFor(a) == Some(p)
    ensures Group(ctx, attrs, p) != []
  {
    hide PairOf, NameIndex, ResolveCharId;
    var n := |attrs| - 1;
    if a != attrs[n] {
      assert a in attrs[..n];
      GroupNonEmpty(ctx, attrs[..n], p, a);
    }
  }

  /** The map is closed under reciprocity: wherever it holds a kinship pair, the reverse dyad has
      terms too; and a dyad that was only inferred mirrors its origin exactly. */
  lemma ClosedUnderReciprocity(ctx: Context, p: EntityId)
    requires p in Resolved(ctx)
    ensures p.Pair?
    ensures Reciprocal(Resolved(ctx)[p]).Some? ==> Reverse(p) in Resolved(ctx)
    ensures p !in AllPairs(ctx) ==>
              Reverse(p) in AllPairs(ctx)
              && Resolved(ctx)[p] == (Resolved(ctx)[Reverse(p)].1, Resolved(ctx)[Reverse(p)].0)
  {
    hide Kinship, Resolve;
    assert Reverse(Reverse(p)) == p;
    if p !in AllPairs(ctx) {
      assert p in Mirrors(Base(ctx));
      KinshipSwaps(Base(ctx)[Reverse(p)]);
    }
  }

  /** A mirror is written only where no row is stored, so it can only ever create one. */
  lemma MirrorsTouchNoRow(ctx: Context, q: EntityId)
    requires q in Mirrors(Base(ctx))
    ensures q !in ctx.rows && q !in Observed(ctx, ctx.attributions)
  {
    hide Kinship, Resolve;
    assert q !in Base(ctx);
  }

  // ---- the stored rows -------------------------------------------------------------------

  /** Each row ends as its own single upsert makes it, however the upserts are interleaved. */
  lemma {:induction false} UpsertAllRow(b: Bible, writes: map<EntityId, seq<Proposal>>, order: seq<EntityId>, episode: string,
                                        e: EntityId)
    requires Distinct(order)
    ensures var c := UpsertAll(b, writes, order, episode);
            var hit := e in order && e in writes && e.Pair?;
            (e in c.rows <==> e in b.rows || hit)
            && (hit ==> c.rows[e] == Merged(if e in b.rows then b.rows[e] else Row(map[], {}), Provided(writes[e])))
            && (e in c.rows && !hit ==> c.rows[e] == b.rows[e])
            && c.characterNames == b.characterNames && c.termSources == b.termSources && c.events == b.events
  {
    hide Merged, Provided;
    if |order| > 0 {
      var n := |order| - 1;
      UpsertAllRow(b, writes, order[..n], episode, e);
      assert e in order <==> e in order[..n] || e == order[n];
      assert order[n] !in order[..n];
    }
  }

  /** Two visiting orders of the same dyads store the same rows. */
  lemma OrderDoesNotMatter(b: Bible, writes: map<EntityId, seq<Proposal>>, order: seq<EntityId>, other: seq<EntityId>,
                           episode: string)
    requires Distinct(order) && Distinct(other) && forall p :: p in order <==> p in other
    ensures UpsertAll(b, writes, order, episode).rows == UpsertAll(b, writes, other, episode).rows
  {
    hide Merged, Provided, UpsertAll;
    var c, d := UpsertAll(b, writes, order, episode), UpsertAll(b, writes, other, episode);
    forall e
      ensures (e in c.rows <==> e in d.rows) && (e in c.rows ==> c.rows[e] == d.rows[e])
    {
      UpsertAllRow(b, writes, order, episode, e);
      UpsertAllRow(b, writes, other, episode, e);
    }
  }

  lemma {:induction false} UpsertAllSafe(b: Bible, writes: map<EntityId, seq<Proposal>>, order: seq<EntityId>, episode: string)
    ensures LocksHold(b, UpsertAll(b, writes, order, episode))
    ensures Valid(b) ==> Valid(UpsertAll(b, writes, order, episode))
    ensures AuditSound(b) ==> AuditSound(UpsertAll(b, writes, order, episode))
  {
    hide UpsertPair, Valid, AuditSound;
    if |order| > 0 {
      var n := |order| - 1;
      var front := UpsertAll(b, writes, order[..n], episode);
      UpsertAllSafe(b, writes, order[..n], episode);
      if order[n] in writes && order[n].Pair? {
        UpsertPairSafe(front, order[n], writes[order[n]], Inference, Some(episode));
        LocksHoldTransitive(b, front, UpsertAll(b, writes, order, episode));
      }
    }
  }

  // ---- events, confidence and defaults ---------------------------------------------------

  /** An event of this episode between these two characters, whichever came first in it. */
  predicate Concerns(t: Transition, p: EntityId, episode: string)
    requires p.Pair?
  {
    t.marker == episode && ((t.a == p.speaker && t.b == p.addressee) || (t.a == p.addressee && t.b == p.speaker))
  }

  /** Event `k` may change the terms of a dyad in this episode: events are on, the episode is known,
      and it is the first event of this very episode between the two. */
  ghost predicate FirstEvent(ctx: Context, p: EntityId, k: nat)
    requires p.Pair?
  {
    && ctx.settings.enableEvents && ctx.episode != "S00E00" && k < |ctx.transitions|
    && Concerns(ctx.transitions[k], p, ctx.episode)
    && forall j :: 0 <= j < k ==> !Concerns(ctx.transitions[j], p, ctx.episode)
  }

  ghost predicate SomeEvent(ctx: Context, p: EntityId)
    requires p.Pair?
  {
    exists k: nat :: FirstEvent(ctx, p, k)
  }

  lemma {:induction false} FindsFirst(transitions: seq<Transition>, p: EntityId, episode: string)
    requires p.Pair?
    ensures var found := FindTransition(transitions, p, episode);
            if found.Some?
            then exists k :: 0 <= k < |transitions| && transitions[k] == found.value && Concerns(transitions[k], p, episode)
                             && forall j :: 0 <= j < k ==> !Concerns(transitions[j], p, episode)
            else forall j :: 0 <= j < |transitions| ==> !Concerns(transitions[j], p, episode)
  {
    if |transitions| > 0 && !Concerns(transitions[0], p, episode) {
      var rest := transitions[1..];
      FindsFirst(rest, p, episode);
      var found := FindTransition(rest, p, episode);
      assert forall j :: 1 <= j < |transitions| ==> transitions[j] == rest[j - 1];
      if found.Some? {
        var k :| 0 <= k < |rest| && rest[k] == found.value && Concerns(rest[k], p, episode)
                 && forall j :: 0 <= j < k ==> !Concerns(rest[j], p, episode);
        assert transitions[k + 1] == found.value;
      }
    }
  }

  /** A transition is authorised for a dyad if and only if it is such an event. */
  lemma AuthorizedIff(ctx: Context, p: EntityId, t: Transition)
    requires p.Pair?
    ensures Authorized(ctx, p) == Some(t) <==> exists k: nat :: FirstEvent(ctx, p, k) && ctx.transitions[k] == t
  {
    hide FindTransition, Concerns;
    FindsFirst(ctx.transitions, p, ctx.episode);
    if Authorized(ctx, p).Some? {
      var k: nat :| k < |ctx.transitions| && ctx.transitions[k] == Authorized(ctx, p).value
                    && Concerns(ctx.transitions[k], p, ctx.episode)
                    && forall j :: 0 <= j < k ==> !Concerns(ctx.transitions[j], p, ctx.episode);
      assert FirstEvent(ctx, p, k);
      forall m: nat | FirstEvent(ctx, p, m)
        ensures m == k
      {
        assert !(m < k) && !(k < m);
      }
    }
  }

  /** The event that may change a dyad's terms is unique, and what authorises the change. */
  lemma FirstEventFound(ctx: Context, p: EntityId)
    requires p.Pair?
    ensures SomeEvent(ctx, p) <==> Authorized(ctx, p).Some?
    ensures forall k: nat :: FirstEvent(ctx, p, k) ==> Authorized(ctx, p) == Some(ctx.transitions[k])
  {
    hide Authorized, FirstEvent;
    forall k: nat | FirstEvent(ctx, p, k)
      ensures k < |ctx.transitions| && Authorized(ctx, p) == Some(ctx.transitions[k])
    {
      EventInRange(ctx, p, k);
      AuthorizedIff(ctx, p, ctx.transitions[k]);
    }
    if Authorized(ctx, p).Some? {
      AuthorizedIff(ctx, p, Authorized(ctx, p).value);
    }
  }

  lemma EventInRange(ctx: Context, p: EntityId, k: nat)
    requires p.Pair? && FirstEvent(ctx, p, k)
    ensures k < |ctx.transitions|
  {
  }

  /** Which confidences a threshold lets through; any other word is read as "medium". */
  predicate Meets(c: Confidence, threshold: string, lower: string -> string)
  {
    var word := lower(threshold);
    c == High || (c == Medium && word != "high") || (c == Low && word == "low")
  }

  /** Some line of the episode is attributed to this dyad with enough confidence. */
  ghost predicate SpokenSurely(ctx: Context, p: EntityId)
  {
    exists i :: 0 <= i < |ctx.attributions| && ctx.PairFor(ctx.attributions[i]) == Some(p)
                && Meets(ctx.attributions[i].confidence, ctx.settings.threshold, ctx.rules.lower)
  }

  lemma MeetsIff(c: Confidence, threshold: string, lower: string -> string)
    ensures ConfidenceValue(c) >= ThresholdValue(threshold, lower) <==> Meets(c, threshold, lower)
  {
  }

  lemma {:induction false} GroupHolds(ctx: Context, attrs: seq<LineAttribution>, p: EntityId, a: LineAttribution)
    ensures a in Group(ctx, attrs, p) <==> a in attrs && ctx.PairFor(a) == Some(p)
  {
    hide NameIndex, ResolveCharId, PairOf;
    if |attrs| > 0 {
      var n := |attrs| - 1;
      GroupHolds(ctx, attrs[..n], p, a);
      assert a in attrs <==> a in attrs[..n] || a == attrs[n];
    }
  }

  /** A dyad counts as confident if and only if such a line exists. */
  lemma ConfidentIff(ctx: Context, p: EntityId)
    ensures Confident(ctx, p) <==> SpokenSurely(ctx, p)
  {
    hide NameIndex, ResolveCharId, PairOf, Group, Survivors, ThresholdValue, ConfidenceValue, Meets;
    var group, threshold := Group(ctx, ctx.attributions, p), ThresholdValue(ctx.settings.threshold, ctx.rules.lower);
    var sure := Survivors(group, threshold);
    if sure != [] {
      var a := sure[0];
      assert a in sure;
      GroupHolds(ctx, ctx.attributions, p, a);
      MeetsIff(a.confidence, ctx.settings.threshold, ctx.rules.lower);
    }
    if SpokenSurely(ctx, p) {
      var i :| 0 <= i < |ctx.attributions| && ctx.PairFor(ctx.attributions[i]) == Some(p)
               && Meets(ctx.attributions[i].confidence, ctx.settings.threshold, ctx.rules.lower);
      GroupHolds(ctx, ctx.attributions, p, ctx.attributions[i]);
      MeetsIff(ctx.attributions[i].confidence, ctx.settings.threshold, ctx.rules.lower);
      assert ctx.attributions[i] in sure;
    }
  }

  /** The stored column of an entity, if there is such an entity. */
  function Known(ctx: Context, e: EntityId, f: Field): Option<string>
  {
    if e in ctx.rows then ctx.rows[e].Get(f) else None
  }

  ghost predicate NamesClassical(text: string)
  {
    exists k, i: nat :: 0 <= k < |CLASSICAL_TOKENS| && At(text, i, CLASSICAL_TOKENS[k])
  }

  /** The register of the series names one of the classical genres, wherever in the text it does. */
  ghost predicate ClassicalSeries(ctx: Context)
  {
    Known(ctx, Series, Register).Some? && Known(ctx, Series, Register).value != []
    && NamesClassical(ctx.rules.lower(Known(ctx, Series, Register).value))
  }

  /** What a dyad nobody has terms for gets: the user's own pair if there is one, whatever the register;
      else by the register of the series and the stored gender of the one addressed, and by nothing else. */
  lemma DefaultTerms(ctx: Context, p: EntityId)
    requires p.Pair?
    ensures var gender := Known(ctx, Character(p.addressee), Gender);
            DefaultFor(ctx, p) ==
              if ctx.settings.safeDefault.Some? then ctx.settings.safeDefault.value
              else if ClassicalSeries(ctx) && gender == Some("female") then ("tại hạ", "cô nương")
              else if ClassicalSeries(ctx) then ("tại hạ", "các hạ")
              else if gender == Some("male") then ("tôi", "anh")
              else if gender == Some("female") then ("tôi", "chị")
              else ("tôi", "bạn")
  {
    var register := Known(ctx, Series, Register);
    if register.Some? {
      ClassicalIff(ctx.rules.lower(register.value));
    }
    hide Contains, NamesClassical;
  }

  lemma ClassicalIff(text: string)
    ensures (exists k :: 0 <= k < |CLASSICAL_TOKENS| && Contains(text, CLASSICAL_TOKENS[k])) <==> NamesClassical(text)
  {
    hide Contains, At;
    forall k | 0 <= k < |CLASSICAL_TOKENS|
      ensures Contains(text, CLASSICAL_TOKENS[k]) <==> exists i: nat :: At(text, i, CLASSICAL_TOKENS[k])
    {
      ContainsIff(text, CLASSICAL_TOKENS[k]);
      AtInside(text, CLASSICAL_TOKENS[k]);
    }
  }

  lemma AtInside(text: string, p: string)
    ensures forall i: nat :: At(text, i, p) ==> i <= |text|
  {
  }

  // ---- the ladder ------------------------------------------------------------------------

  /** Lock first: a locked pair is used as it stands and nothing is offered to its row. */
  lemma LockWins(ctx: Context, p: EntityId)
    requires p.Pair? && p in ctx.rows && PairLocked(ctx.rows[p]) && HasTerms(ctx.rows[p])
    ensures Resolved(ctx)[p] == TermsOf(ctx.rows[p]) && p !in Writes(ctx)
  {
    hide Kinship;
  }

  /** What a stored dyad is translated with: a locked pair of terms as it stands; else the two terms the
      first event of the episode suggests; else its own terms, unless one is NULL, or one is empty and
      there is such an event; else the default. */
  lemma StoredTerms(ctx: Context, p: EntityId)
    requires p.Pair? && p in ctx.rows
    ensures var row := ctx.rows[p];
            var locked := HasTerms(row) && (SelfTerm in row.locked || AddressTerm in row.locked);
            && p in Resolved(ctx)
            && (forall k: nat :: !locked && FirstEvent(ctx, p, k) && Suggests(ctx.transitions[k]) ==>
                  Resolved(ctx)[p] == (ctx.transitions[k].suggestedSelf.value, ctx.transitions[k].suggestedAddress.value))
            && (locked || (forall k: nat :: FirstEvent(ctx, p, k) ==> !Suggests(ctx.transitions[k])) ==>
                  Resolved(ctx)[p] == if HasTerms(row) && (locked || Established(row) || !SomeEvent(ctx, p)) then TermsOf(row)
                                      else DefaultFor(ctx, p))
  {
    FirstEventFound(ctx, p);
    hide Kinship, DefaultFor, Confident, Authorized, FirstEvent, Group, NameIndex, PairOf;
    assert p in Base(ctx) && p !in Mirrors(Base(ctx));
    if SomeEvent(ctx, p) {
      var k: nat :| FirstEvent(ctx, p, k);
      EventInRange(ctx, p, k);
    }
  }

  /** A dyad heard for the first time is translated with the two terms its first event suggests, else
      with the default; and it is stored, with those terms, if and only if an event of this episode or
      a confident line vouches for it, dated by the episode in the first case alone. */
  lemma NewDyad(ctx: Context, p: EntityId)
    requires p.Pair? && p !in ctx.rows && exists i :: 0 <= i < |ctx.attributions| && ctx.PairFor(ctx.attributions[i]) == Some(p)
    ensures p in Resolved(ctx) && (p in Writes(ctx) <==> SomeEvent(ctx, p) || SpokenSurely(ctx, p))
    ensures p in Writes(ctx) ==> Writes(ctx)[p] == Offer(Resolved(ctx)[p], if SomeEvent(ctx, p) then Some(ctx.episode) else None)
    ensures forall k: nat :: FirstEvent(ctx, p, k) && Suggests(ctx.transitions[k]) ==>
              Resolved(ctx)[p] == (ctx.transitions[k].suggestedSelf.value, ctx.transitions[k].suggestedAddress.value)
    ensures (forall k: nat :: FirstEvent(ctx, p, k) ==> !Suggests(ctx.transitions[k])) ==> Resolved(ctx)[p] == DefaultFor(ctx, p)
  {
    var i :| 0 <= i < |ctx.attributions| && ctx.PairFor(ctx.attributions[i]) == Some(p);
    GroupNonEmpty(ctx, ctx.attributions, p, ctx.attributions[i]);
    NewResolution(ctx, p);
    assert p in AllPairs(ctx);
    hide AllPairs, Resolve, Base, Mirrors, Writes, Resolved, FirstEvent, SpokenSurely, Suggests, DefaultFor, Offer, Authorized, PairOf,
         NameIndex, Group, Confident;
    KnownDyad(ctx, p);
    FirstEventFound(ctx, p);
    ConfidentIff(ctx, p);
    if SomeEvent(ctx, p) {
      var k: nat :| FirstEvent(ctx, p, k);
      EventInRange(ctx, p, k);
    }
  }

  /** What the ladder makes of a dyad without a row. */
  lemma NewResolution(ctx: Context, p: EntityId)
    requires p.Pair? && p !in ctx.rows
    ensures var t, r := Authorized(ctx, p), Resolve(ctx, p);
            && r.terms == (if t.Some? && Suggests(t.value) then (t.value.suggestedSelf.value, t.value.suggestedAddress.value)
                           else DefaultFor(ctx, p))
            && r.write == if t.Some? then Some(Offer(r.terms, Some(ctx.episode)))
                          else if Confident(ctx, p) then Some(Offer(r.terms, None)) else None
  {
    hide DefaultFor, Confident, Authorized, Offer;
  }

  /** A dyad that was seen or stored is used, and written, as the ladder resolved it. */
  lemma KnownDyad(ctx: Context, p: EntityId)
    requires p in AllPairs(ctx)
    ensures p.Pair? && p in Resolved(ctx) && Resolved(ctx)[p] == Resolve(ctx, p).terms
    ensures p in Writes(ctx) <==> Resolve(ctx, p).write.Some?
    ensures p in Writes(ctx) ==> Writes(ctx)[p] == Resolve(ctx, p).write.value
  {
    hide Kinship, Resolve, AllPairs;
    assert p in Base(ctx) && p !in Mirrors(Base(ctx));
  }

  lemma OfferedPair(row: Row, terms: Terms, validFrom: Option<string>, f: Field)
    ensures Offered(Provided(Offer(terms, validFrom)), f, row.Get(f)) ==
            if f == SelfTerm then Some(terms.0)
            else if f == AddressTerm then Some(terms.1)
            else if f == ValidFrom && validFrom.Some? then validFrom
            else row.Get(f)
  {
    hide Provided, Offered;
    var a, c, d := Proposal(SelfTerm, Some(terms.0)), Proposal(AddressTerm, Some(terms.1)), Proposal(ValidFrom, validFrom);
    var none: seq<Proposal> := [];
    assert Offer(terms, validFrom) == none + [a] + [c] + [d];
    ProvidedAppend(none + [a] + [c], d);
    ProvidedAppend(none + [a], c);
    ProvidedAppend(none, a);
    OfferedAppend(none + [a] + [c], d, f, row.Get(f));
    OfferedAppend(none + [a], c, f, row.Get(f));
    OfferedAppend(none, a, f, row.Get(f));
    NoneOffered(f, row.Get(f));
  }

  lemma NoneOffered(f: Field, current: Option<string>)
    ensures Provided([]) == [] && Offered([], f, current) == current
  {
  }

  /** The row a dyad ends the pass with. */
  function RowAfter(ctx: Context, p: EntityId): Row
    requires p.Pair? && p in ctx.rows
  {
    var w := Resolve(ctx, p).write;
    if w.Some? then Merged(ctx.rows[p], Provided(w.value)) else ctx.rows[p]
  }

  /** The terms a pass infers for a stored dyad, if any, by the guards of the ladder: a locked pair
      with both terms keeps them; an event of this episode brings its two suggested terms, or the
      default where a stored term is NULL or empty; without an event, a confident line brings the
      default where a stored term is NULL. */
  function Inferred(ctx: Context, p: EntityId): Option<Terms>
    requires p.Pair? && p in ctx.rows
  {
    var row, t := ctx.rows[p], Authorized(ctx, p);
    if HasTerms(row) && PairLocked(row) then None
    else if t.Some? then
      if Suggests(t.value) then Some((t.value.suggestedSelf.value, t.value.suggestedAddress.value))
      else if Established(row) then None
      else Some(DefaultFor(ctx, p))
    else if !HasTerms(row) && Confident(ctx, p) then Some(DefaultFor(ctx, p))
    else None
  }

  predicate HoldsTerms(row: Row, terms: Terms)
  {
    row.Get(SelfTerm) == Some(terms.0) && row.Get(AddressTerm) == Some(terms.1)
  }

  /** What a pass leaves in each column of any stored row, locked or not, whole or not. */
  lemma StoredRowAfter(ctx: Context, p: EntityId)
    requires p.Pair? && p in ctx.rows
    ensures RowAfter(ctx, p).locked == ctx.rows[p].locked
    ensures var row, i := ctx.rows[p], Inferred(ctx, p);
            forall f :: RowAfter(ctx, p).Get(f) ==
              if i.None? || f in row.locked then row.Get(f)
              else if f == SelfTerm then Some(i.value.0)
              else if f == AddressTerm then Some(i.value.1)
              else if f == ValidFrom && Authorized(ctx, p).Some? && !HoldsTerms(row, i.value) then Some(ctx.episode)
              else row.Get(f)
  {
    hide Merged, Provided, Offered, Group, Survivors, DefaultFor, FindTransition;
    var before, w := ctx.rows[p], Resolve(ctx, p).write;
    if w.Some? {
      var terms := Resolve(ctx, p).terms;
      var vf := if Authorized(ctx, p).Some? && !HoldsTerms(before, terms) then Some(ctx.episode) else None;
      assert w.value == Offer(terms, vf);
      forall f
        ensures RowAfter(ctx, p).Get(f) == if f in before.locked then before.Get(f)
                                           else if f == SelfTerm then Some(terms.0) else if f == AddressTerm then Some(terms.1)
                                           else if f == ValidFrom && vf.Some? then vf else before.Get(f)
      {
        MergedValue(before, Provided(w.value), f);
        OfferedPair(before, terms, vf, f);
      }
    }
  }

  predicate HoldsSuggested(row: Row, t: Transition)
  {
    row.Get(SelfTerm) == t.suggestedSelf && row.Get(AddressTerm) == t.suggestedAddress
  }

  /** A stored unlocked pair, whatever its columns hold, moves in a pass if and only if the first event
      of this very episode between the two suggests two non-empty terms other than its own, or that
      event suggests none, finds a term NULL or empty and the default is another pair, or there is no
      such event and a confident line finds a term NULL.  Its valid-from marker moves to the episode
      exactly when an event moved it. */
  lemma StoredPairMovesIff(ctx: Context, p: EntityId)
    requires p.Pair? && p in ctx.rows && ctx.rows[p].locked == {}
    ensures var before, after := ctx.rows[p], RowAfter(ctx, p);
            var evolves := exists k: nat :: FirstEvent(ctx, p, k) && Suggests(ctx.transitions[k])
                                            && !HoldsSuggested(before, ctx.transitions[k]);
            var filled := (exists k: nat :: FirstEvent(ctx, p, k) && !Suggests(ctx.transitions[k]))
                          && !Established(before) && !HoldsTerms(before, DefaultFor(ctx, p));
            var begun := !SomeEvent(ctx, p) && !HasTerms(before) && SpokenSurely(ctx, p);
            && ((after.Get(SelfTerm) != before.Get(SelfTerm) || after.Get(AddressTerm) != before.Get(AddressTerm))
                <==> evolves || filled || begun)
            && (forall k: nat :: FirstEvent(ctx, p, k) && Suggests(ctx.transitions[k]) ==> HoldsSuggested(after, ctx.transitions[k]))
            && (filled || begun ==> HoldsTerms(after, DefaultFor(ctx, p)))
            && (evolves || filled ==> after.Get(ValidFrom) == Some(ctx.episode))
            && (!evolves && !filled ==> after.Get(ValidFrom) == before.Get(ValidFrom))
            && (!evolves && !filled && !begun ==> forall f :: after.Get(f) == before.Get(f))
  {
    hide DefaultFor, Confident, Authorized, RowAfter, FirstEvent, SpokenSurely;
    FirstEventFound(ctx, p);
    ConfidentIff(ctx, p);
    StoredRowAfter(ctx, p);
    if SomeEvent(ctx, p) {
      var k: nat :| FirstEvent(ctx, p, k);
      EventInRange(ctx, p, k);
    }
  }

  /** So an established unlocked pair moves if and only if the first event of this episode between the
      two suggests two non-empty terms that differ from it. */
  lemma EstablishedMovesIff(ctx: Context, p: EntityId)
    requires p.Pair? && p in ctx.rows && Established(ctx.rows[p]) && ctx.rows[p].locked == {}
    ensures (exists f :: RowAfter(ctx, p).Get(f) != ctx.rows[p].Get(f))
            <==> exists k: nat :: FirstEvent(ctx, p, k) && Suggests(ctx.transitions[k])
                                  && !HoldsSuggested(ctx.rows[p], ctx.transitions[k])
  {
    hide DefaultFor, Confident, Authorized, RowAfter, FirstEvent, SpokenSurely;
    StoredPairMovesIff(ctx, p);
  }

  /** With no suggestion in memory (stored events never carry one) an established pair, locked or
      not, is used as stored and its row does not change in any column. */
  lemma EstablishedIsCarried(ctx: Context, p: EntityId)
    requires p.Pair? && p in ctx.rows && Established(ctx.rows[p])
    requires forall t :: t in ctx.transitions ==> !Suggests(t)
    ensures Resolved(ctx)[p] == TermsOf(ctx.rows[p])
    ensures RowAfter(ctx, p).locked == ctx.rows[p].locked
    ensures forall f :: RowAfter(ctx, p).Get(f) == ctx.rows[p].Get(f)
  {
    hide Merged, Provided, Offered, Group, Survivors, Kinship;
    var before, w := ctx.rows[p], Resolve(ctx, p).write;
    var t := Authorized(ctx, p);
    if t.Some? { FoundIsThere(ctx.transitions, p, ctx.episode); }
    assert Resolve(ctx, p).terms == TermsOf(before);
    if w.Some? {
      assert w.value == Offer(TermsOf(before), None);
      forall f
        ensures RowAfter(ctx, p).Get(f) == before.Get(f)
      {
        MergedValue(before, Provided(w.value), f);
        OfferedPair(before, TermsOf(before), None, f);
      }
    }
  }

  lemma {:induction false} FoundIsThere(transitions: seq<Transition>, p: EntityId, episode: string)
    requires p.Pair? && FindTransition(transitions, p, episode).Some?
    ensures FindTransition(transitions, p, episode).value in transitions
  {
    if FindTransition(transitions, p, episode) != Some(transitions[0]) {
      FoundIsThere(transitions[1..], p, episode);
    }
  }
}
