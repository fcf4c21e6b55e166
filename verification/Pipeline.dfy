/** One subtitle file through translation, review, envelope pass and the gate with its repair loop,
    for every behaviour of the model. */
module Pipeline {
  import opened Options
  import opened Subtitles
  import opened BibleStore
  import opened Attribution
  import opened Batching
  import opened Envelopes
  import opened Gate
  import opened Conversation
  import opened Reassembly
  import opened Provenance

  datatype Outcome = Written(doc: SubDoc) | Quarantined(check: Option<nat>) | Propagated

  /** The sidecars written. */
  class Output {
    var written: seq<SubDoc>

    constructor ()
      ensures written == []
    {
      written := [];
    }

    method Write(doc: SubDoc)
      modifies this
      ensures written == old(written) + [doc]
    {
      written := written + [doc];
    }
  }

  // ---- first messages --------------------------------------------------------------------

  /** Calls `from` up to `to`: each starts with one of these prompts. */
  ghost predicate PromptedBy(calls: seq<seq<Message>>, from: nat, to: nat, prompts: set<string>)
  {
    from <= to <= |calls| && forall k :: from <= k < to ==> |calls[k]| > 0 && calls[k][0].User? && calls[k][0].text in prompts
  }

  lemma PromptedMore(calls: seq<seq<Message>>, more: seq<seq<Message>>, from: nat, prompts: set<string>, prompt: string,
                     p: Prepared, cfg: Config, replies: Oracle)
    requires PromptedBy(calls, from, |calls|, prompts) && calls <= more && |p.cleaned| == |p.maps|
    requires Recorded(more, prompt, p, cfg.prompts, replies, |calls|, |more| - |calls|)
    ensures PromptedBy(more, from, |more|, prompts + {prompt})
  {
    FirstMessageStays(more, prompt, p, cfg.prompts, replies, |calls|, |more| - |calls|);
    hide Recorded;
  }

  lemma PromptedLater(calls: seq<seq<Message>>, more: seq<seq<Message>>, from: nat, to: nat, prompts: set<string>,
                      all: set<string>)
    requires PromptedBy(calls, from, to, prompts) && calls <= more && prompts <= all
    ensures PromptedBy(more, from, to, all)
  {
    assert forall k :: from <= k < to ==> more[k] == calls[k];
  }

  lemma PromptedJoin(calls: seq<seq<Message>>, a: nat, b: nat, c: nat, prompts: set<string>)
    requires PromptedBy(calls, a, b, prompts) && PromptedBy(calls, b, c, prompts)
    ensures PromptedBy(calls, a, c, prompts)
  {
  }

  /** The prompts of the first `n` batches. */
  function PromptSet(batches: seq<Batch>, hints: seq<Option<map<nat, Terms>>>, cfg: Config, n: nat): set<string>
    requires n <= |batches| == |hints|
  {
    if n == 0 then {} else PromptSet(batches, hints, cfg, n - 1) + {PromptOf(batches[n - 1], hints[n - 1], None, cfg)}
  }

  lemma {:induction false} PromptSetGrows(batches: seq<Batch>, hints: seq<Option<map<nat, Terms>>>, cfg: Config, m: nat, n: nat)
    requires m <= n <= |batches| == |hints|
    ensures PromptSet(batches, hints, cfg, m) <= PromptSet(batches, hints, cfg, n)
  {
    if m < n {
      PromptSetGrows(batches, hints, cfg, m, n - 1);
    }
  }

  function ReviewPrompts(batches: seq<Batch>, cfg: Config): set<string>
  {
    set b | 0 <= b < |batches| :: ReviewPrompt(batches[b], cfg)
  }

  // ---- counting calls --------------------------------------------------------------------

  /** `used` calls and `left` more conversations of at most `per` calls stay within `total` of them. */
  predicate Within(used: int, left: nat, total: nat, per: nat)
  {
    used + left * per <= total * per
  }

  lemma WithinStart(total: nat, per: nat)
    ensures Within(0, total, total, per)
  {
  }

  lemma WithinStep(used: int, next: int, left: nat, total: nat, per: nat)
    requires Within(used, left, total, per) && left > 0 && next <= used + per
    ensures Within(next, left - 1, total, per)
  {
    assert left * per == (left - 1) * per + per;
  }

  lemma WithinEnd(used: int, left: nat, total: nat, per: nat)
    requires Within(used, left, total, per)
    ensures used <= total * per
  {
    assert left * per >= 0;
  }

  lemma CallCount(r: BatchResult, cues: seq<SubLine>, replies: Oracle, start: nat, count: nat, attempts: nat)
    requires Concluded(r, Prepare(cues), replies, start, count, attempts)
    ensures 1 <= count <= attempts
  {
  }

  // ---- pass 2 ----------------------------------------------------------------------------

  function AttributePrompt(b: Batch, cfg: Config): string
  {
    cfg.prompts.attribute(b.cues, b.contextBefore, b.contextAfter)
  }

  /** What the reply of call `k` says of line `j` of its batch; nothing where it is of no use. */
  function LineEntry(replies: Oracle, k: nat, j: nat, known: set<string>, lower: string -> string, cfg: Config): LineAttribution
  {
    Settled(if replies(k).Said? then cfg.prompts.entries(replies(k).text) else Unusable, j, known, lower)
  }

  /** No call from `from` up to `to` raised. */
  ghost predicate AllSaid(replies: Oracle, from: nat, to: int)
  {
    forall k :: from <= k < to ==> replies(k).Said?
  }

  /** The entries of batch `b`, and the call they came from. */
  ghost predicate AttributedBatch(part: seq<LineAttribution>, b: Batch, k: nat, calls: seq<seq<Message>>, replies: Oracle,
                                  known: set<string>, lower: string -> string, cfg: Config)
  {
    && k < |calls| && calls[k] == [User(AttributePrompt(b, cfg))] && |part| == |b.cues|
    && forall j :: 0 <= j < |part| ==> part[j] == LineEntry(replies, k, j, known, lower, cfg)
  }

  /** Batch `b` of the attribution pass was call `start + b`. */
  ghost predicate Attributed(parts: seq<seq<LineAttribution>>, batches: seq<Batch>, start: nat, calls: seq<seq<Message>>,
                             replies: Oracle, known: set<string>, lower: string -> string, cfg: Config)
  {
    && |parts| <= |batches|
    && forall b :: 0 <= b < |parts| ==>
         AttributedBatch(parts[b], batches[b], start + b, calls, replies, known, lower, cfg)
  }

  lemma AttributedStep(parts: seq<seq<LineAttribution>>, part: seq<LineAttribution>, batches: seq<Batch>, start: nat,
                       calls: seq<seq<Message>>, more: seq<seq<Message>>, replies: Oracle, known: set<string>,
                       lower: string -> string, cfg: Config)
    requires Attributed(parts, batches, start, calls, replies, known, lower, cfg) && |parts| < |batches| && calls <= more
    requires AttributedBatch(part, batches[|parts|], start + |parts|, more, replies, known, lower, cfg)
    ensures Attributed(parts + [part], batches, start, more, replies, known, lower, cfg)
  {
    hide AttributedBatch;
    var all := parts + [part];
    forall b | 0 <= b < |all|
      ensures AttributedBatch(all[b], batches[b], start + b, more, replies, known, lower, cfg)
    {
      if b < |parts| {
        AttributedLater(parts[b], batches[b], start + b, calls, more, replies, known, lower, cfg);
      }
    }
  }

  lemma AttributedLater(part: seq<LineAttribution>, b: Batch, k: nat, calls: seq<seq<Message>>, more: seq<seq<Message>>,
                        replies: Oracle, known: set<string>, lower: string -> string, cfg: Config)
    requires AttributedBatch(part, b, k, calls, replies, known, lower, cfg) && calls <= more
    ensures AttributedBatch(part, b, k, more, replies, known, lower, cfg)
  {
    hide LineEntry, AttributePrompt;
  }

  /** The attribution of a whole document, with its own batches: every cue gets the entry its batch's
      reply has for its place, whatever the replies hold.  An exception of the transport propagates. */
  method AttributeDocument(lines: seq<SubLine>, known: set<string>, lower: string -> string, cfg: Config, llm: Llm)
    returns (flat: Option<seq<LineAttribution>>, ghost batches: seq<Batch>, ghost parts: seq<seq<LineAttribution>>)
    modifies llm
    ensures Flatten(BatchCues(batches)) == NonRaw(lines)
    ensures old(llm.calls) <= llm.calls && |llm.calls| - |old(llm.calls)| <= |batches|
    ensures forall k :: |old(llm.calls)| <= k < |llm.calls| ==>
              llm.calls[k] == [User(AttributePrompt(batches[k - |old(llm.calls)|], cfg))]
    ensures AllSaid(llm.replies, |old(llm.calls)|, |llm.calls| - (if flat.None? then 1 else 0))
    ensures flat.None? ==> |old(llm.calls)| < |llm.calls| && llm.replies(|llm.calls| - 1).Raises?
    ensures flat.Some? ==>
      && flat.value == Flatten(parts) && |parts| == |batches| == |llm.calls| - |old(llm.calls)|
      && Attributed(parts, batches, |old(llm.calls)|, llm.calls, llm.replies, known, lower, cfg)
  {
    hide Flatten, NonRaw, Packing, AttributePrompt, Attributed, AttributedBatch;
    var work, runs := BatchSubdoc(lines, cfg.attributePack, cfg.lang.ms);
    batches, parts := work, [];
    var all: seq<LineAttribution> := [];
    ghost var start := |llm.calls|;
    AttributedStart(work, start, llm.calls, llm.replies, known, lower, cfg);
    for b := 0 to |work|
      invariant old(llm.calls) <= llm.calls && |llm.calls| == start + b && |parts| == b && all == Flatten(parts)
      invariant forall k :: start <= k < start + b ==> llm.calls[k] == [User(AttributePrompt(work[k - start], cfg))]
      invariant Attributed(parts, work, start, llm.calls, llm.replies, known, lower, cfg)
      invariant AllSaid(llm.replies, start, |llm.calls|)
    {
      ghost var before := llm.calls;
      var reply := llm.Call([User(AttributePrompt(work[b], cfg))]);
      if reply.Raises? {
        return None, batches, parts;
      }
      var part := AttributeBatch(|work[b].cues|, cfg.prompts.entries(reply.text), known, lower);
      PartIsAttributed(part, work[b], start + b, llm.calls, llm.replies, known, lower, cfg);
      AttributedStep(parts, part, work, start, before, llm.calls, llm.replies, known, lower, cfg);
      FlattenAppend(parts, part);
      all := all + part;
      parts := parts + [part];
    }
    flat := Some(all);
  }

  lemma AttributedStart(batches: seq<Batch>, start: nat, calls: seq<seq<Message>>, replies: Oracle, known: set<string>,
                        lower: string -> string, cfg: Config)
    ensures Attributed([], batches, start, calls, replies, known, lower, cfg) && Flatten<LineAttribution>([]) == []
  {
  }

  lemma PartIsAttributed(part: seq<LineAttribution>, b: Batch, k: nat, calls: seq<seq<Message>>, replies: Oracle,
                         known: set<string>, lower: string -> string, cfg: Config)
    requires k < |calls| && calls[k] == [User(AttributePrompt(b, cfg))] && |part| == |b.cues| && replies(k).Said?
    requires forall j :: 0 <= j < |part| ==> part[j] == Settled(cfg.prompts.entries(replies(k).text), j, known, lower)
    ensures AttributedBatch(part, b, k, calls, replies, known, lower, cfg)
  {
    hide Settled, AttributePrompt;
  }

  // ---- pass 3 ----------------------------------------------------------------------------

  datatype Pass3 = AllTexts(texts: seq<string>) | Failed | Broken

  /** The call after the last accepted one. */
  function NextCall(won: seq<Won>, start: nat): nat
  {
    if won == [] then start else won[|won| - 1].call + 1
  }

  /** The batches before `|won|` were won, and the next one never was: its conversation used every
      attempt, or a call of it raised. */
  ghost predicate StuckAt(r: Pass3, won: seq<Won>, batches: seq<Batch>, hints: seq<Option<map<nat, Terms>>>, start: nat,
                          calls: seq<seq<Message>>, replies: Oracle, cfg: Config)
  {
    && |won| < |batches| == |hints| && AllAccepted(won, batches, hints, calls, replies, cfg)
    && var b := |won|;
       var prompt := PromptOf(batches[b], hints[b], None, cfg);
       match r
       case AllTexts(_) => false
       case Failed => Exhausted(batches[b].cues, prompt, calls, cfg.prompts, replies, NextCall(won, start), cfg.retries)
       case Broken => Interrupted(batches[b].cues, prompt, calls, cfg.prompts, replies, NextCall(won, start), cfg.retries)
  }

  lemma Stuck(result: BatchResult, won: seq<Won>, batches: seq<Batch>, hints: seq<Option<map<nat, Terms>>>, start: nat,
              before: seq<seq<Message>>, calls: seq<seq<Message>>, replies: Oracle, cfg: Config)
    requires AllAccepted(won, batches, hints, before, replies, cfg) && before <= calls && |won| < |batches| == |hints|
    requires |before| == NextCall(won, start) && !result.Texts?
    requires var p := Prepare(batches[|won|].cues);
             && Concluded(result, p, replies, |before|, |calls| - |before|, cfg.retries + 1)
             && Recorded(calls, PromptOf(batches[|won|], hints[|won|], None, cfg), p, cfg.prompts, replies, |before|, |calls| - |before|)
    ensures StuckAt(if result.Raised? then Broken else Failed, won, batches, hints, start, calls, replies, cfg)
  {
    hide Concluded, Recorded, Prepare, PromptOf, AllAccepted, Exhausted, Interrupted;
    AllAcceptedLater(won, batches, hints, before, calls, replies, cfg);
    NoTexts(result, batches[|won|].cues, PromptOf(batches[|won|], hints[|won|], None, cfg), calls, cfg.prompts, replies,
            |before|, cfg.retries);
  }

  /** Every batch in turn.  The first batch that cannot be had stops the file; an exception of the
      transport propagates.  On success batch `b`'s texts are those of an accepted reply of its own
      conversation, and stand where its cues stand. */
  method TranslateBatches(batches: seq<Batch>, hints: seq<Option<map<nat, Terms>>>, cfg: Config, llm: Llm)
    returns (r: Pass3, ghost won: seq<Won>)
    requires |hints| == |batches|
    modifies llm
    ensures old(llm.calls) <= llm.calls && |llm.calls| - |old(llm.calls)| <= |batches| * (cfg.retries + 1)
    ensures PromptedBy(llm.calls, |old(llm.calls)|, |llm.calls|, PromptSet(batches, hints, cfg, |batches|))
    ensures r.AllTexts? ==>
      && |won| == |batches| && AllAccepted(won, batches, hints, llm.calls, llm.replies, cfg)
      && (forall b :: 0 <= b < |won| ==> won[b].call >= |old(llm.calls)|)
      && r.texts == Flatten(WonTexts(won)) && InPlace(r.texts, batches, won)
      && |llm.calls| == NextCall(won, |old(llm.calls)|)
    ensures !r.AllTexts? ==> StuckAt(r, won, batches, hints, |old(llm.calls)|, llm.calls, llm.replies, cfg)
  {
    hide Concluded, Prepare, Recorded, PromptOf, PromptedBy, AllAccepted, Accepted, WonTexts, Flatten, Within, InPlace, StuckAt;
    ghost var start, total, per := |llm.calls|, |batches|, cfg.retries + 1;
    var queue: seq<string> := [];
    won := [];
    AllAcceptedStart(batches, hints, llm.calls, llm.replies, cfg);
    NothingPrompted(llm.calls);
    WithinStart(total, per);
    for b := 0 to |batches|
      invariant old(llm.calls) <= llm.calls && Within(|llm.calls| - start, total - b, total, per)
      invariant PromptedBy(llm.calls, start, |llm.calls|, PromptSet(batches, hints, cfg, b))
      invariant |won| == b && AllAccepted(won, batches, hints, llm.calls, llm.replies, cfg)
      invariant forall c :: 0 <= c < b ==> won[c].call >= start && |won[c].texts| == |batches[c].cues|
      invariant queue == Flatten(WonTexts(won)) && |llm.calls| == NextCall(won, start)
    {
      ghost var before := llm.calls;
      var prompt := PromptOf(batches[b], hints[b], None, cfg);
      var result := TranslateBatch(batches[b].cues, prompt, llm, cfg.prompts, cfg.retries);
      CallCount(result, batches[b].cues, llm.replies, |before|, |llm.calls| - |before|, per);
      WithinStep(|before| - start, |llm.calls| - start, total - b, total, per);
      PromptedMore(before, llm.calls, start, PromptSet(batches, hints, cfg, b), prompt, Prepare(batches[b].cues), cfg, llm.replies);
      if !result.Texts? {
        WithinEnd(|llm.calls| - start, total - b - 1, total, per);
        PromptSetGrows(batches, hints, cfg, b + 1, |batches|);
        PromptedLater(llm.calls, llm.calls, start, |llm.calls|, PromptSet(batches, hints, cfg, b + 1),
                      PromptSet(batches, hints, cfg, |batches|));
        Stuck(result, won, batches, hints, start, before, llm.calls, llm.replies, cfg);
        r := if result.Raised? then Broken else Failed;
        return;
      }
      LastAccepted(result, batches[b].cues, prompt, llm.calls, cfg.prompts, llm.replies, |before|, per);
      AllAcceptedStep(won, Won(|llm.calls| - 1, result.texts), batches, hints, before, llm.calls, llm.replies, cfg);
      won := won + [Won(|llm.calls| - 1, result.texts)];
      queue := queue + result.texts;
    }
    WithinEnd(|llm.calls| - start, 0, total, per);
    WonInPlace(batches, won);
    r := AllTexts(queue);
  }

  lemma NothingPrompted(calls: seq<seq<Message>>)
    ensures PromptedBy(calls, |calls|, |calls|, {})
  {
  }

  // ---- pass 4 ----------------------------------------------------------------------------

  /** The review of a document: one call a batch, each translatable cue replaced by the correction of
      its own place in its batch's reply, if there is one, and the frame untouched. */
  method ReviewDocument(lines: seq<SubLine>, cfg: Config, llm: Llm)
    returns (r: seq<SubLine>, ghost batches: seq<Batch>, ghost results: seq<Option<seq<string>>>)
    modifies llm
    ensures old(llm.calls) <= llm.calls && |llm.calls| == |old(llm.calls)| + |batches|
    ensures Flatten(BatchCues(batches)) == NonRaw(lines)
    ensures |results| == |batches| && AllReviewed(results, batches, |old(llm.calls)|, llm.calls, llm.replies, cfg)
    ensures PromptedBy(llm.calls, |old(llm.calls)|, |llm.calls|, ReviewPrompts(batches, cfg))
    ensures Spliced(lines, batches, results, r)
    ensures forall src :: SameFrame(src, lines) ==> SameFrame(src, r)
  {
    hide Prepare, Reviewed, NonRaw, Flatten, Packing, AllReviewed, Corrections, SplicedAt, SameFrame, ReviewPrompt;
    var reviewBatches, runs := BatchSubdoc(lines, cfg.reviewPack, cfg.lang.ms);
    batches := reviewBatches;
    var corrected: seq<Option<seq<string>>> := [];
    ghost var start := |llm.calls|;
    AllReviewedStart(reviewBatches, llm.calls, llm.replies, cfg);
    for b := 0 to |reviewBatches|
      invariant |corrected| == b
      invariant old(llm.calls) <= llm.calls && |llm.calls| == start + b
      invariant AllReviewed(corrected, reviewBatches, start, llm.calls, llm.replies, cfg)
    {
      ghost var before := llm.calls;
      var result := ReviewBatch(reviewBatches[b].cues, llm, cfg.prompts);
      assert [User(ReviewPrompt(reviewBatches[b], cfg))] == [User(cfg.prompts.review(Prepare(reviewBatches[b].cues).cleaned))] by {
        ReviewWords(reviewBatches[b], cfg);
      }
      AllReviewedStep(corrected, result, reviewBatches, start, before, llm.calls, llm.replies, cfg);
      corrected := corrected + [result];
    }
    results := corrected;
    ReviewsPrompted(results, batches, start, llm.calls, llm.replies, cfg);
    r := SpliceReviewCorrections(lines, BatchCues(reviewBatches), corrected);
  }

  lemma ReviewWords(b: Batch, cfg: Config)
    ensures ReviewPrompt(b, cfg) == cfg.prompts.review(Prepare(b.cues).cleaned)
  {
  }

  lemma AllReviewedStart(batches: seq<Batch>, calls: seq<seq<Message>>, replies: Oracle, cfg: Config)
    ensures AllReviewed([], batches, |calls|, calls, replies, cfg)
  {
  }

  lemma ReviewsPrompted(results: seq<Option<seq<string>>>, batches: seq<Batch>, start: nat, calls: seq<seq<Message>>,
                        replies: Oracle, cfg: Config)
    requires AllReviewed(results, batches, start, calls, replies, cfg) && |results| == |batches| && |calls| == start + |batches|
    ensures PromptedBy(calls, start, |calls|, ReviewPrompts(batches, cfg))
  {
    hide Reviewed, Prepare, ReviewPrompt;
    forall k | start <= k < |calls|
      ensures |calls[k]| > 0 && calls[k][0].User? && calls[k][0].text in ReviewPrompts(batches, cfg)
    {
      assert calls[start + (k - start)] == [User(ReviewPrompt(batches[k - start], cfg))];
    }
  }

  // ---- repair ----------------------------------------------------------------------------

  datatype RepairResult = Fixed(lines: seq<SubLine>) | Miss | RepairRaised

  /** The hints of a repair batch, looked up by document position. */
  method RepairHints(chosen: seq<nat>, pro: Pronouns) returns (hints: Option<map<nat, Terms>>)
    ensures hints == OrNone(ChosenHints(chosen, pro))
    ensures forall i: nat :: HintAt(hints, i) == ChosenHint(chosen, i, pro)
  {
    hide HintOf;
    var batchHints: map<nat, Terms> := map[];
    for i := 1 to |chosen| + 1
      invariant forall j: nat :: j in batchHints <==> j < i && ChosenHint(chosen, j, pro).Some?
      invariant forall j: nat :: j in batchHints ==> batchHints[j] == ChosenHint(chosen, j, pro).value
    {
      var at := chosen[i - 1];
      if at < |pro.flat| {
        var hint := HintOf(pro.index, pro.rules, pro.resolved, pro.flat[at]);
        if hint.Some? {
          batchHints := batchHints[i := hint.value];
        }
      }
    }
    assert batchHints == ChosenHints(chosen, pro);
    forall i: nat
      ensures HintAt(OrNone(batchHints), i) == ChosenHint(chosen, i, pro)
    {
      OrNoneAt(batchHints, i);
    }
    hints := if |batchHints| > 0 then Some(batchHints) else None;
  }

  /** The cues of a failure that are not raw, and their source cues. */
  method TakeFailing(failing: seq<nat>, src: seq<SubLine>, lines: seq<SubLine>) returns (chosen: seq<nat>, cues: seq<SubLine>)
    requires |src| == |lines| && Ascending(failing, |lines|)
    ensures chosen == Chosen(failing, lines) && cues == CuesAt(src, chosen)
  {
    chosen, cues := [], [];
    for k := 0 to |failing|
      invariant Ascending(failing[..k], |lines|)
      invariant chosen == Chosen(failing[..k], lines)
      invariant |cues| == |chosen| && forall j :: 0 <= j < |chosen| ==> chosen[j] < |src| && cues[j] == src[chosen[j]]
    {
      assert failing[..k + 1][..k] == failing[..k] && failing[k] < |lines|;
      assert Ascending(failing[..k + 1], |lines|);
      if lines[failing[k]].raw.None? {
        chosen := chosen + [failing[k]];
        cues := cues + [src[failing[k]]];
      }
    }
    assert failing[..|failing|] == failing;
  }

  /** The prompt of the conversation that repairs a refused document. */
  function RepairWords(src: seq<SubLine>, lines: seq<SubLine>, failing: seq<nat>, check: nat, pro: Pronouns, cfg: Config): string
    requires |src| == |lines| && Ascending(failing, |lines|)
  {
    RepairPrompt(src, Chosen(failing, lines), check, pro, cfg)
  }

  /** How a repair that began at call `start` ended: with a reply accepted at the last call, after every
      attempt missed, or with a call that raised; without a cue to repair there was no call. */
  ghost predicate RepairEnds(r: RepairResult, repair: Repair, src: seq<SubLine>, lines: seq<SubLine>, failing: seq<nat>, check: nat,
                             start: nat, calls: seq<seq<Message>>, replies: Oracle, pro: Pronouns, cfg: Config)
    requires |src| == |lines| && Ascending(failing, |lines|)
  {
    var chosen := Chosen(failing, lines);
    if chosen == [] then r.Miss? && |calls| == start
    else
      var prompt := RepairWords(src, lines, failing, check, pro, cfg);
      match r
      case Fixed(_) => repair.won.call == |calls| - 1 >= start
      case Miss => Exhausted(CuesAt(src, chosen), prompt, calls, cfg.prompts, replies, start, cfg.retries)
      case RepairRaised => Interrupted(CuesAt(src, chosen), prompt, calls, cfg.prompts, replies, start, cfg.retries)
  }

  /** Translates the failing cues again, from the source, and puts only their texts back: each takes
      the line of its own place in the accepted reply. */
  method RepairFailingCues(failing: seq<nat>, src: seq<SubLine>, lines: seq<SubLine>, check: nat, pro: Pronouns, cfg: Config,
                           llm: Llm)
    returns (r: RepairResult, ghost repair: Repair)
    requires SameFrame(src, lines) && Ascending(failing, |lines|)
    modifies llm
    ensures old(llm.calls) <= llm.calls && |llm.calls| - |old(llm.calls)| <= cfg.retries + 1
    ensures PromptedBy(llm.calls, |old(llm.calls)|, |llm.calls|, {RepairWords(src, lines, failing, check, pro, cfg)})
    ensures r.Fixed? ==>
      && SameFrame(src, r.lines) && r.lines == repair.fixed
      && RepairOf(repair, src, lines, failing, check, llm.calls, llm.replies, pro, cfg)
    ensures RepairEnds(r, repair, src, lines, failing, check, |old(llm.calls)|, llm.calls, llm.replies, pro, cfg)
  {
    hide Exhausted, Interrupted, Concluded, Prepare, Recorded, PromptOf, PromptedBy, Accepted, Chosen, OrNone, ChosenHints, Repaired;
    repair := Repair([], Won(0, []), []);
    NothingPrompted(llm.calls);
    var chosen, cues := TakeFailing(failing, src, lines);
    ghost var prompt := RepairPrompt(src, chosen, check, pro, cfg);
    PromptedLater(llm.calls, llm.calls, |llm.calls|, |llm.calls|, {}, {prompt});
    if |chosen| == 0 {
      return Miss, repair;
    }
    var hints := RepairHints(chosen, pro);
    var batch := Batch(cues, [], []);
    ghost var before := llm.calls;
    var result := TranslateBatch(cues, PromptOf(batch, hints, Some(check), cfg), llm, cfg.prompts, cfg.retries);
    CallCount(result, cues, llm.replies, |before|, |llm.calls| - |before|, cfg.retries + 1);
    NothingPrompted(before);
    PromptedMore(before, llm.calls, |before|, {}, prompt, Prepare(cues), cfg, llm.replies);
    assert {} + {prompt} == {prompt};
    NoTexts(result, cues, prompt, llm.calls, cfg.prompts, llm.replies, |before|, cfg.retries);
    if result.Raised? {
      return RepairRaised, repair;
    }
    if result.Invalid? {
      return Miss, repair;
    }
    LastAccepted(result, cues, prompt, llm.calls, cfg.prompts, llm.replies, |before|, cfg.retries + 1);
    var fixed := SpliceRepair(lines, chosen, result.texts);
    RepairKeepsFrame(src, lines, chosen, result.texts, fixed);
    repair := Repair(chosen, Won(|llm.calls| - 1, result.texts), fixed);
    r := Fixed(fixed);
  }

  /** A repair and the envelope pass after it. */
  method RepairOnce(failing: seq<nat>, src: seq<SubLine>, lines: seq<SubLine>, check: nat, pro: Pronouns, cfg: Config, llm: Llm)
    returns (r: RepairResult, ghost repair: Repair)
    requires SameFrame(src, lines) && Ascending(failing, |lines|)
    modifies llm
    ensures old(llm.calls) <= llm.calls && |llm.calls| - |old(llm.calls)| <= cfg.retries + 1
    ensures PromptedBy(llm.calls, |old(llm.calls)|, |llm.calls|, {RepairWords(src, lines, failing, check, pro, cfg)})
    ensures r.Fixed? ==>
      && SameFrame(src, r.lines) && r.lines == Enveloped(src, repair.fixed, cfg)
      && RepairOf(repair, src, lines, failing, check, llm.calls, llm.replies, pro, cfg)
    ensures RepairEnds(r, repair, src, lines, failing, check, |old(llm.calls)|, llm.calls, llm.replies, pro, cfg)
  {
    hide RepairOf, PromptedBy, RepairWords, SameFrame, Exhausted, Interrupted, Chosen;
    r, repair := RepairFailingCues(failing, src, lines, check, pro, cfg, llm);
    if r.Fixed? && cfg.envelopes {
      EnvelopesKeepFrame(src, r.lines);
      var kept := PreserveSourceEnvelopes(src, r.lines);
      r := Fixed(kept);
    }
  }

  // ---- the gate loop ---------------------------------------------------------------------

  /** The prompts of the repairs of the first `n` documents shown. */
  ghost function RepairPrompts(src: seq<SubLine>, shown: seq<seq<SubLine>>, pro: Pronouns, cfg: Config, n: nat): set<string>
    requires n <= |shown|
  {
    if n == 0 then {}
    else
      var front := RepairPrompts(src, shown, pro, cfg, n - 1);
      var lines := shown[n - 1];
      var v := Validate(src, lines, cfg.lang);
      if v.Fail? && |src| == |lines| && Ascending(v.failing, |lines|)
      then front + {RepairWords(src, lines, v.failing, v.check, pro, cfg)} else front
  }

  lemma {:induction false} RepairPromptsPrefix(src: seq<SubLine>, shown: seq<seq<SubLine>>, next: seq<SubLine>, pro: Pronouns,
                                               cfg: Config, n: nat)
    requires n <= |shown|
    ensures RepairPrompts(src, shown + [next], pro, cfg, n) == RepairPrompts(src, shown, pro, cfg, n)
  {
    hide Validate, RepairWords, Ascending;
    if n > 0 {
      RepairPromptsPrefix(src, shown, next, pro, cfg, n - 1);
    }
  }

  lemma RepairPromptsStep(src: seq<SubLine>, shown: seq<seq<SubLine>>, pro: Pronouns, cfg: Config)
    requires |shown| > 0
    requires var lines := shown[|shown| - 1]; var v := Validate(src, lines, cfg.lang);
             v.Fail? && |src| == |lines| && Ascending(v.failing, |lines|)
    ensures var lines := shown[|shown| - 1]; var v := Validate(src, lines, cfg.lang);
            RepairPrompts(src, shown, pro, cfg, |shown|)
              == RepairPrompts(src, shown, pro, cfg, |shown| - 1) + {RepairWords(src, lines, v.failing, v.check, pro, cfg)}
  {
    hide Validate, RepairWords, Ascending;
  }

  /** The guard of the repair loop, for a refused document after `used` repairs. */
  predicate MayRepair(v: Verdict, used: nat, cfg: Config)
  {
    v.Fail? && cfg.gateRepair && Repairable(v.check) && v.failing != [] && used < cfg.repairs
  }

  /** The call after the last accepted repair. */
  function AfterRepairs(repairs: seq<Repair>, start: nat): nat
  {
    if repairs == [] then start else repairs[|repairs| - 1].won.call + 1
  }

  /** How a file leaves the gate, by the verdict on the last document shown.  Passed, it is written.
      Refused and not to be repaired, it is quarantined under that check.  Else a last conversation was
      held to repair it: exhausted, the file is quarantined under that check; interrupted, it propagates. */
  ghost predicate GateEnds(outcome: Outcome, source: SubDoc, shown: seq<seq<SubLine>>, repairs: seq<Repair>, start: nat,
                           calls: seq<seq<Message>>, replies: Oracle, pro: Pronouns, cfg: Config)
  {
    && |shown| == |repairs| + 1
    && var lines := shown[|repairs|];
       var v := Validate(source.lines, lines, cfg.lang);
       if v == Pass then outcome == Written(source.(lines := lines)) && |calls| == AfterRepairs(repairs, start)
       else if !MayRepair(v, |repairs|, cfg) then outcome == Quarantined(Some(v.check)) && |calls| == AfterRepairs(repairs, start)
       else RepairLost(outcome, source.lines, lines, v, AfterRepairs(repairs, start), calls, replies, pro, cfg)
  }

  ghost predicate RepairLost(outcome: Outcome, src: seq<SubLine>, lines: seq<SubLine>, v: Verdict, start: nat,
                             calls: seq<seq<Message>>, replies: Oracle, pro: Pronouns, cfg: Config)
    requires v.Fail?
  {
    && |src| == |lines| && Ascending(v.failing, |lines|) && Chosen(v.failing, lines) != []
    && var cues := CuesAt(src, Chosen(v.failing, lines));
       var prompt := RepairWords(src, lines, v.failing, v.check, pro, cfg);
       match outcome
       case Written(_) => false
       case Quarantined(check) =>
         check == Some(v.check) && Exhausted(cues, prompt, calls, cfg.prompts, replies, start, cfg.retries)
       case Propagated => Interrupted(cues, prompt, calls, cfg.prompts, replies, start, cfg.retries)
  }

  /** A refused document that may be repaired has a cue to repair. */
  lemma SomethingChosen(src: seq<SubLine>, lines: seq<SubLine>, used: nat, cfg: Config)
    requires MayRepair(Validate(src, lines, cfg.lang), used, cfg)
    ensures var v := Validate(src, lines, cfg.lang);
            |src| == |lines| && Ascending(v.failing, |lines|) && Chosen(v.failing, lines) != []
  {
    RepairableFailure(src, lines, cfg.lang);
    hide Validate;
    var v := Validate(src, lines, cfg.lang);
    assert v.failing[0] in v.failing;
  }

  /** Validate, repair, validate again, at most `repairs` times; only a document the gate has just
      accepted is written, and it is written as the gate saw it. */
  method GateLoop(source: SubDoc, lines: seq<SubLine>, pro: Pronouns, cfg: Config, llm: Llm, out: Output)
    returns (outcome: Outcome, ghost shown: seq<seq<SubLine>>, ghost repairs: seq<Repair>)
    requires SameFrame(source.lines, lines)
    modifies llm, out
    ensures old(llm.calls) <= llm.calls && |llm.calls| - |old(llm.calls)| <= cfg.repairs * (cfg.retries + 1)
    ensures 1 <= |shown| <= cfg.repairs + 1 && shown[0] == lines
    ensures Gated(source.lines, shown, repairs, llm.calls, llm.replies, pro, cfg)
    ensures PromptedBy(llm.calls, |old(llm.calls)|, |llm.calls|, RepairPrompts(source.lines, shown, pro, cfg, |shown|))
    ensures outcome.Written? <==> Validate(source.lines, shown[|shown| - 1], cfg.lang) == Pass
    ensures outcome.Written? ==> outcome.doc == source.(lines := shown[|shown| - 1])
    ensures GateEnds(outcome, source, shown, repairs, |old(llm.calls)|, llm.calls, llm.replies, pro, cfg)
    ensures out.written == old(out.written) + (if outcome.Written? then [outcome.doc] else [])
    ensures outcome.Quarantined? && outcome.check.Some? ==> outcome.check.value !in {1, 4, 5}
  {
    hide Exhausted, Interrupted, Chosen, Validate, Looping, Ascending, RepairOf, RepairWords, PromptedBy, RepairPrompts, Gated, SameFrame;
    var src := source.lines;
    var doc := lines;
    var budget := cfg.repairs;
    ghost var start := |llm.calls|;
    shown, repairs := [doc], [];
    FrameCount(src, doc);
    LoopStart(src, doc, llm.calls, llm.replies, pro, cfg);
    while true
      invariant 0 <= budget <= cfg.repairs && |src| == |doc| && old(llm.calls) <= llm.calls
      invariant |shown| == cfg.repairs - budget + 1 && shown[0] == lines && shown[|shown| - 1] == doc
      invariant Looping(src, shown, repairs, llm.calls, llm.replies, start, budget, pro, cfg)
      invariant out.written == old(out.written)
      invariant |repairs| == cfg.repairs - budget && |llm.calls| == AfterRepairs(repairs, start)
      decreases budget
    {
      LoopFacts(src, shown, repairs, llm.calls, llm.replies, start, budget, pro, cfg);
      var verdict := ValidateSubdoc(src, doc, cfg.lang);
      FrameNeverFails(src, doc, cfg.lang);
      if verdict == Pass {
        var final := source.(lines := doc);
        out.Write(final);
        return Written(final), shown, repairs;
      }
      if !(cfg.gateRepair && Repairable(verdict.check) && verdict.failing != [] && budget > 0) {
        return Quarantined(Some(verdict.check)), shown, repairs;
      }
      SomethingChosen(src, doc, |repairs|, cfg);
      ghost var before := llm.calls;
      ghost var repair: Repair;
      var repaired: RepairResult;
      repaired, repair := RepairOnce(verdict.failing, src, doc, verdict.check, pro, cfg, llm);
      LoopRepaired(src, shown, repairs, before, llm.calls, llm.replies, start, budget, pro, cfg);
      budget := budget - 1;
      if repaired.RepairRaised? {
        return Propagated, shown, repairs;
      }
      if repaired.Miss? {
        return Quarantined(Some(verdict.check)), shown, repairs;
      }
      LoopNext(src, shown, repairs, repair, repaired.lines, before, llm.calls, llm.replies, start, budget + 1, pro, cfg);
      FrameCount(src, repaired.lines);
      doc := repaired.lines;
      shown := shown + [doc];
      repairs := repairs + [repair];
    }
  }

  /** The loop before it validates: what was shown and repaired so far, and what the budget leaves. */
  ghost predicate Looping(src: seq<SubLine>, shown: seq<seq<SubLine>>, repairs: seq<Repair>, calls: seq<seq<Message>>,
                          replies: Oracle, start: nat, budget: nat, pro: Pronouns, cfg: Config)
  {
    && |shown| > 0 && start <= |calls| && Within(|calls| - start, budget, cfg.repairs, cfg.retries + 1)
    && Gated(src, shown, repairs, calls, replies, pro, cfg)
    && PromptedBy(calls, start, |calls|, RepairPrompts(src, shown, pro, cfg, |shown| - 1))
  }

  lemma LoopStart(src: seq<SubLine>, doc: seq<SubLine>, calls: seq<seq<Message>>, replies: Oracle, pro: Pronouns, cfg: Config)
    requires SameFrame(src, doc)
    ensures Looping(src, [doc], [], calls, replies, |calls|, cfg.repairs, pro, cfg)
  {
    hide SameFrame, Gated, Within, PromptedBy;
    GatedStart(src, doc, calls, replies, pro, cfg);
    WithinStart(cfg.repairs, cfg.retries + 1);
    NothingPrompted(calls);
    NoRepairPrompts(src, [doc], pro, cfg);
  }

  lemma LoopFacts(src: seq<SubLine>, shown: seq<seq<SubLine>>, repairs: seq<Repair>, calls: seq<seq<Message>>,
                  replies: Oracle, start: nat, budget: nat, pro: Pronouns, cfg: Config)
    requires Looping(src, shown, repairs, calls, replies, start, budget, pro, cfg)
    ensures Gated(src, shown, repairs, calls, replies, pro, cfg) && |shown| > 0 && SameFrame(src, shown[|shown| - 1])
    ensures start <= |calls| && |calls| - start <= cfg.repairs * (cfg.retries + 1)
    ensures PromptedBy(calls, start, |calls|, RepairPrompts(src, shown, pro, cfg, |shown|))
  {
    hide SameFrame, Within, PromptedBy, RepairStep, RepairPrompts;
    WithinEnd(|calls| - start, budget, cfg.repairs, cfg.retries + 1);
    RepairPromptsGrow(src, shown, pro, cfg);
    PromptedLater(calls, calls, start, |calls|, RepairPrompts(src, shown, pro, cfg, |shown| - 1),
                  RepairPrompts(src, shown, pro, cfg, |shown|));
  }

  /** The document in the loop was refused for something repairable, and one conversation was held to
      repair it. */
  ghost predicate Attempted(src: seq<SubLine>, lines: seq<SubLine>, before: seq<seq<Message>>, calls: seq<seq<Message>>,
                            pro: Pronouns, cfg: Config)
  {
    var v := Validate(src, lines, cfg.lang);
    && v.Fail? && Repairable(v.check) && |src| == |lines| && Ascending(v.failing, |lines|)
    && before <= calls && |calls| - |before| <= cfg.retries + 1
    && PromptedBy(calls, |before|, |calls|, {RepairWords(src, lines, v.failing, v.check, pro, cfg)})
  }

  lemma LoopRepaired(src: seq<SubLine>, shown: seq<seq<SubLine>>, repairs: seq<Repair>, before: seq<seq<Message>>,
                     calls: seq<seq<Message>>, replies: Oracle, start: nat, budget: nat, pro: Pronouns, cfg: Config)
    requires Looping(src, shown, repairs, before, replies, start, budget, pro, cfg) && budget > 0
    requires Attempted(src, shown[|shown| - 1], before, calls, pro, cfg)
    ensures Gated(src, shown, repairs, calls, replies, pro, cfg)
    ensures start <= |calls| && Within(|calls| - start, budget - 1, cfg.repairs, cfg.retries + 1)
    ensures |calls| - start <= cfg.repairs * (cfg.retries + 1)
    ensures PromptedBy(calls, start, |calls|, RepairPrompts(src, shown, pro, cfg, |shown|))
  {
    hide Validate, Gated, Within, PromptedBy, RepairPrompts, RepairWords, Ascending;
    WithinStep(|before| - start, |calls| - start, budget, cfg.repairs, cfg.retries + 1);
    WithinEnd(|calls| - start, budget - 1, cfg.repairs, cfg.retries + 1);
    GatedLater(src, shown, repairs, before, calls, replies, pro, cfg);
    RepairPrompted(src, shown, before, calls, start, Validate(src, shown[|shown| - 1], cfg.lang), pro, cfg);
  }

  lemma LoopingIs(src: seq<SubLine>, shown: seq<seq<SubLine>>, repairs: seq<Repair>, calls: seq<seq<Message>>,
                  replies: Oracle, start: nat, budget: nat, pro: Pronouns, cfg: Config)
    requires |shown| > 0 && start <= |calls| && Within(|calls| - start, budget, cfg.repairs, cfg.retries + 1)
    requires Gated(src, shown, repairs, calls, replies, pro, cfg)
    requires PromptedBy(calls, start, |calls|, RepairPrompts(src, shown, pro, cfg, |shown| - 1))
    ensures Looping(src, shown, repairs, calls, replies, start, budget, pro, cfg)
  {
    hide Gated, Within, PromptedBy, RepairPrompts;
  }

  lemma LoopNext(src: seq<SubLine>, shown: seq<seq<SubLine>>, repairs: seq<Repair>, r: Repair, next: seq<SubLine>,
                 before: seq<seq<Message>>, calls: seq<seq<Message>>, replies: Oracle, start: nat, budget: nat,
                 pro: Pronouns, cfg: Config)
    requires Looping(src, shown, repairs, before, replies, start, budget, pro, cfg) && budget > 0
    requires Attempted(src, shown[|shown| - 1], before, calls, pro, cfg) && SameFrame(src, next)
    requires RepairStep(r, src, shown[|shown| - 1], next, calls, replies, pro, cfg)
    ensures Looping(src, shown + [next], repairs + [r], calls, replies, start, budget - 1, pro, cfg)
  {
    hide Attempted, RepairStep, SameFrame, Gated, Within, PromptedBy, RepairPrompts, Validate;
    LoopRepaired(src, shown, repairs, before, calls, replies, start, budget, pro, cfg);
    RepairPromptsPrefix(src, shown, next, pro, cfg, |shown|);
    hide *;
    GatedStep(src, shown, repairs, r, next, calls, replies, pro, cfg);
    LoopingIs(src, shown + [next], repairs + [r], calls, replies, start, budget - 1, pro, cfg);
  }

  lemma FrameCount(src: seq<SubLine>, lines: seq<SubLine>)
    requires SameFrame(src, lines)
    ensures |src| == |lines|
  {
  }

  lemma NoRepairPrompts(src: seq<SubLine>, shown: seq<seq<SubLine>>, pro: Pronouns, cfg: Config)
    ensures RepairPrompts(src, shown, pro, cfg, 0) == {}
  {
  }

  lemma RepairPromptsGrow(src: seq<SubLine>, shown: seq<seq<SubLine>>, pro: Pronouns, cfg: Config)
    requires |shown| > 0
    ensures RepairPrompts(src, shown, pro, cfg, |shown| - 1) <= RepairPrompts(src, shown, pro, cfg, |shown|)
  {
    hide Validate, RepairWords, Ascending;
  }

  lemma RepairPrompted(src: seq<SubLine>, shown: seq<seq<SubLine>>, before: seq<seq<Message>>, calls: seq<seq<Message>>,
                       start: nat, v: Verdict, pro: Pronouns, cfg: Config)
    requires |shown| > 0 && |src| == |shown[|shown| - 1]| && start <= |before| && before <= calls
    requires v == Validate(src, shown[|shown| - 1], cfg.lang) && v.Fail? && Ascending(v.failing, |src|)
    requires PromptedBy(before, start, |before|, RepairPrompts(src, shown, pro, cfg, |shown| - 1))
    requires PromptedBy(calls, |before|, |calls|, {RepairWords(src, shown[|shown| - 1], v.failing, v.check, pro, cfg)})
    ensures PromptedBy(calls, start, |calls|, RepairPrompts(src, shown, pro, cfg, |shown|))
  {
    hide Validate, PromptedBy, RepairPrompts, RepairWords, Ascending;
    RepairPromptsStep(src, shown, pro, cfg);
    var all := RepairPrompts(src, shown, pro, cfg, |shown|);
    PromptedLater(before, calls, start, |before|, RepairPrompts(src, shown, pro, cfg, |shown| - 1), all);
    PromptedLater(calls, calls, |before|, |calls|, {RepairWords(src, shown[|shown| - 1], v.failing, v.check, pro, cfg)}, all);
    PromptedJoin(calls, start, |before|, |calls|, all);
  }

  // ---- passes 3 and 4 and the gate -------------------------------------------------------

  /** How many calls each pass made. */
  datatype Calls = Calls(attribute: nat, translate: nat, review: nat, repair: nat)

  /** The calls of the passes follow one another, each conversation starting with the prompt of its own
      batch or repair. */
  ghost predicate Prompted(calls: seq<seq<Message>>, start: nat, made: Calls, t: Trace, src: seq<SubLine>, pro: Pronouns, cfg: Config)
    requires |t.hints| == |t.batches|
  {
    var a := start + made.translate;
    var b := a + made.review;
    && b + made.repair == |calls|
    && PromptedBy(calls, start, a, PromptSet(t.batches, t.hints, cfg, |t.batches|))
    && PromptedBy(calls, a, b, ReviewPrompts(t.reviews, cfg))
    && PromptedBy(calls, b, |calls|, RepairPrompts(src, t.shown, pro, cfg, |t.shown|))
  }

  /** How the translation of a file ends: stuck at a batch, or as it leaves the gate. */
  ghost predicate FileEnds(outcome: Outcome, source: SubDoc, made: Calls, t: Trace, start: nat, calls: seq<seq<Message>>,
                           replies: Oracle, pro: Pronouns, cfg: Config)
  {
    if |t.shown| == 0 then
      match outcome
      case Written(_) => false
      case Quarantined(check) => check == None && StuckAt(Failed, t.won, t.batches, t.hints, start, calls, replies, cfg)
      case Propagated => StuckAt(Broken, t.won, t.batches, t.hints, start, calls, replies, cfg)
    else
      GateEnds(outcome, source, t.shown, t.repairs, start + made.translate + made.review, calls, replies, pro, cfg)
  }

  /** Given the hints of a file: it ends written, quarantined or left for the next poll, within the call
      budget of each pass, and the trace of what was accepted explains every document the gate sees. */
  method TranslateWith(source: SubDoc, pro: Pronouns, cfg: Config, llm: Llm, out: Output)
    returns (outcome: Outcome, ghost made: Calls, ghost t: Trace, ghost checked: seq<SubLine>)
    modifies llm, out
    ensures Flatten(BatchCues(t.batches)) == NonRaw(source.lines) && |t.hints| == |t.batches|
    ensures forall b :: 0 <= b < |t.batches| ==>
              t.hints[b] == HintsOf(BatchCues(t.batches), pro.flat, pro.index, pro.rules, pro.resolved, b)
    ensures made.attribute == 0 && made.translate <= |t.batches| * (cfg.retries + 1) && made.review <= |t.reviews|
    ensures made.repair <= cfg.repairs * (cfg.retries + 1)
    ensures old(llm.calls) <= llm.calls
    ensures Prompted(llm.calls, |old(llm.calls)|, made, t, source.lines, pro, cfg)
    ensures |t.shown| <= cfg.repairs + 1
    ensures |t.shown| > 0 ==> Traced(t, checked, source.lines, llm.calls, llm.replies, pro, cfg)
    ensures outcome.Written? <==> |t.shown| > 0 && Validate(source.lines, t.shown[|t.shown| - 1], cfg.lang) == Pass
    ensures outcome.Written? ==> outcome.doc == source.(lines := t.shown[|t.shown| - 1])
    ensures FileEnds(outcome, source, made, t, |old(llm.calls)|, llm.calls, llm.replies, pro, cfg)
    ensures out.written == old(out.written) + (if outcome.Written? then [outcome.doc] else [])
    ensures outcome.Quarantined? && outcome.check.Some? ==> outcome.check.value !in {1, 4, 5}
  {
    hide StuckAt, GateEnds, Validate, SameFrame, NonRaw, Flatten, PromptedBy, PromptSet, ReviewPrompts, RepairPrompts, Packing, AllAccepted, AllReviewed,
         InPlace, WonTexts, Filled, Spliced, Gated, HintsOf;
    var src := source.lines;
    var work, runs := BatchSubdoc(src, cfg.pack, cfg.lang.ms);
    var hints := BuildHints(BatchCues(work), pro.flat, pro.index, pro.rules, pro.resolved);
    t, checked, made := Trace(work, hints, [], [], [], 0, [], [], []), [], Calls(0, 0, 0, 0);
    ghost var start := llm.calls;
    ghost var won: seq<Won>;
    var pass3: Pass3;
    pass3, won := TranslateBatches(work, hints, cfg, llm);
    ghost var drafted := llm.calls;
    made := made.(translate := |drafted| - |start|);
    NothingPromptedBy(llm.calls, ReviewPrompts([], cfg));
    NothingPromptedBy(llm.calls, RepairPrompts(src, [], pro, cfg, 0));
    if !pass3.AllTexts? {
      t := t.(won := won);
    }
    if pass3.Broken? {
      return Propagated, made, t, checked;
    }
    if pass3.Failed? {
      return Quarantined(None), made, t, checked;
    }
    InPlaceCount(pass3.texts, work, won);
    var lines := Reassemble(src, pass3.texts);
    t := t.(won := won, draft := lines, reviewStart := |llm.calls|);
    if cfg.review {
      ghost var reviews: seq<Batch>, results: seq<Option<seq<string>>>;
      lines, reviews, results := ReviewDocument(lines, cfg, llm);
      t := t.(reviews := reviews, results := results);
      made := made.(review := |llm.calls| - |drafted|);
    }
    checked := lines;
    ghost var reviewed := llm.calls;
    if cfg.envelopes {
      EnvelopesKeepFrame(src, lines);
      lines := PreserveSourceEnvelopes(src, lines);
    }
    ghost var shown: seq<seq<SubLine>>, repairs: seq<Repair>;
    outcome, shown, repairs := GateLoop(source, lines, pro, cfg, llm, out);
    made := made.(repair := |llm.calls| - |reviewed|);
    t := t.(shown := shown, repairs := repairs);
    AllAcceptedLater(won, work, hints, drafted, llm.calls, llm.replies, cfg);
    PromptedLater(drafted, llm.calls, |start|, |drafted|, PromptSet(work, hints, cfg, |work|), PromptSet(work, hints, cfg, |work|));
    PromptedLater(reviewed, llm.calls, |drafted|, |reviewed|, ReviewPrompts(t.reviews, cfg), ReviewPrompts(t.reviews, cfg));
    if cfg.review {
      AllReviewedLater(t.results, t.reviews, |drafted|, reviewed, llm.calls, llm.replies, cfg);
    }
  }

  lemma NothingPromptedBy(calls: seq<seq<Message>>, prompts: set<string>)
    ensures PromptedBy(calls, |calls|, |calls|, prompts)
  {
  }

  lemma InPlaceCount(texts: seq<string>, batches: seq<Batch>, won: seq<Won>)
    requires InPlace(texts, batches, won)
    ensures |texts| == |Flatten(BatchCues(batches))|
  {
  }
}
