/** Which accepted reply every text of a document came from, through every index space between the
    source and the document the gate sees. */
module Provenance {
  import opened Options
  import opened Subtitles
  import opened BibleStore
  import opened Attribution
  import opened Batching
  import opened Envelopes
  import opened Gate
  import opened Conversation
  import opened Reassembly

  datatype Config = Config(
    retries: nat,
    repairs: nat,
    pack: PackSettings,
    attributePack: PackSettings,
    reviewPack: PackSettings,
    attribute: bool,
    review: bool,
    gateRepair: bool,
    envelopes: bool,
    lang: Language,
    prompts: Prompts)

  /** What the hints of a file are looked up in. */
  datatype Pronouns = Pronouns(
    flat: seq<LineAttribution>,
    index: map<string, nat>,
    rules: NameRules,
    resolved: map<EntityId, Terms>)

  type Oracle = nat -> Conversation.Reply

  function PromptOf(b: Batch, hints: Option<map<nat, Terms>>, directive: Option<nat>, cfg: Config): string
  {
    cfg.prompts.translate(Prepare(b.cues).cleaned, b.contextBefore, b.contextAfter, hints, directive)
  }

  function ReviewPrompt(b: Batch, cfg: Config): string
  {
    cfg.prompts.review(Prepare(b.cues).cleaned)
  }

  // ---- one accepted reply ----------------------------------------------------------------

  /** The call whose reply was accepted, and the texts read from it. */
  datatype Won = Won(call: nat, texts: seq<string>)

  /** A call of a conversation that began with this prompt, whose reply is a valid batch for these
      cues and holds these texts. */
  ghost predicate Accepted(w: Won, calls: seq<seq<Message>>, replies: Oracle, prompt: string, cues: seq<SubLine>)
  {
    && w.call < |calls| && |calls[w.call]| > 0 && calls[w.call][0] == User(prompt)
    && replies(w.call).Said? && Judge(Prepare(cues), replies(w.call).text) == Good(w.texts)
    && |w.texts| == |cues|
  }

  lemma AcceptedLater(w: Won, calls: seq<seq<Message>>, more: seq<seq<Message>>, replies: Oracle, prompt: string,
                      cues: seq<SubLine>)
    requires Accepted(w, calls, replies, prompt, cues) && calls <= more
    ensures Accepted(w, more, replies, prompt, cues)
  {
  }

  /** A conversation that ended in texts ended in an accepted reply. */
  lemma LastAccepted(r: BatchResult, cues: seq<SubLine>, prompt: string, calls: seq<seq<Message>>, prompts: Prompts,
                     replies: Oracle, start: nat, attempts: nat)
    requires start <= |calls| && r.Texts? && |r.texts| == |cues|
    requires Concluded(r, Prepare(cues), replies, start, |calls| - start, attempts)
    requires Recorded(calls, prompt, Prepare(cues), prompts, replies, start, |calls| - start)
    ensures |calls| > start && Accepted(Won(|calls| - 1, r.texts), calls, replies, prompt, cues)
  {
    FirstMessageStays(calls, prompt, Prepare(cues), prompts, replies, start, |calls| - start);
    hide Recorded, Prepare, Judge;
  }

  // ---- pass 3 ----------------------------------------------------------------------------

  function WonTexts(won: seq<Won>): (r: seq<seq<string>>)
    ensures |r| == |won| && forall b :: 0 <= b < |r| ==> r[b] == won[b].texts
  {
    seq(|won|, b requires 0 <= b < |won| => won[b].texts)
  }

  /** Each batch has an accepted reply of a conversation that began with its own prompt. */
  ghost predicate AllAccepted(won: seq<Won>, batches: seq<Batch>, hints: seq<Option<map<nat, Terms>>>,
                              calls: seq<seq<Message>>, replies: Oracle, cfg: Config)
  {
    && |won| <= |batches| == |hints|
    && forall b :: 0 <= b < |won| ==>
         Accepted(won[b], calls, replies, PromptOf(batches[b], hints[b], None, cfg), batches[b].cues)
  }

  lemma AllAcceptedStart(batches: seq<Batch>, hints: seq<Option<map<nat, Terms>>>, calls: seq<seq<Message>>, replies: Oracle,
                         cfg: Config)
    requires |batches| == |hints|
    ensures AllAccepted([], batches, hints, calls, replies, cfg) && Flatten(WonTexts([])) == []
  {
  }

  lemma AllAcceptedStep(won: seq<Won>, w: Won, batches: seq<Batch>, hints: seq<Option<map<nat, Terms>>>,
                        calls: seq<seq<Message>>, more: seq<seq<Message>>, replies: Oracle, cfg: Config)
    requires AllAccepted(won, batches, hints, calls, replies, cfg) && |won| < |batches| && calls <= more
    requires Accepted(w, more, replies, PromptOf(batches[|won|], hints[|won|], None, cfg), batches[|won|].cues)
    ensures AllAccepted(won + [w], batches, hints, more, replies, cfg)
    ensures Flatten(WonTexts(won + [w])) == Flatten(WonTexts(won)) + w.texts
  {
    hide Accepted, PromptOf;
    forall b | 0 <= b < |won|
      ensures Accepted(won[b], more, replies, PromptOf(batches[b], hints[b], None, cfg), batches[b].cues)
    {
      AcceptedLater(won[b], calls, more, replies, PromptOf(batches[b], hints[b], None, cfg), batches[b].cues);
    }
    assert WonTexts(won + [w]) == WonTexts(won) + [w.texts];
    FlattenAppend(WonTexts(won), w.texts);
  }

  lemma AllAcceptedLater(won: seq<Won>, batches: seq<Batch>, hints: seq<Option<map<nat, Terms>>>,
                         calls: seq<seq<Message>>, more: seq<seq<Message>>, replies: Oracle, cfg: Config)
    requires AllAccepted(won, batches, hints, calls, replies, cfg) && calls <= more
    ensures AllAccepted(won, batches, hints, more, replies, cfg)
  {
    hide Accepted, PromptOf;
    forall b | 0 <= b < |won|
      ensures Accepted(won[b], more, replies, PromptOf(batches[b], hints[b], None, cfg), batches[b].cues)
    {
      AcceptedLater(won[b], calls, more, replies, PromptOf(batches[b], hints[b], None, cfg), batches[b].cues);
    }
  }

  /** The texts of batch `b` stand where its cues stand among all translatable cues. */
  ghost predicate PartInPlace(texts: seq<string>, cues: seq<seq<SubLine>>, b: nat, part: seq<string>)
    requires b < |cues|
  {
    Offset(cues, b) <= Offset(cues, b + 1) <= |texts| && texts[Offset(cues, b)..Offset(cues, b + 1)] == part
  }

  ghost predicate InPlace(texts: seq<string>, batches: seq<Batch>, won: seq<Won>)
  {
    && |won| == |batches| && |texts| == |Flatten(BatchCues(batches))|
    && forall b :: 0 <= b < |batches| ==> PartInPlace(texts, BatchCues(batches), b, won[b].texts)
  }

  lemma WonInPlace(batches: seq<Batch>, won: seq<Won>)
    requires |won| == |batches| && forall b :: 0 <= b < |won| ==> |won[b].texts| == |batches[b].cues|
    ensures InPlace(Flatten(WonTexts(won)), batches, won)
  {
    hide Flatten, Offset;
    var cues, parts := BatchCues(batches), WonTexts(won);
    SameShape(parts, cues);
    forall b | 0 <= b < |batches|
      ensures PartInPlace(Flatten(parts), cues, b, won[b].texts)
    {
      SameShapeOffsets(parts, cues, b);
      SameShapeOffsets(parts, cues, b + 1);
      PartAt(parts, b);
    }
  }

  lemma SameShape<S, T>(xs: seq<seq<S>>, ys: seq<seq<T>>)
    requires |xs| == |ys| && forall k :: 0 <= k < |xs| ==> |xs[k]| == |ys[k]|
    ensures |Flatten(xs)| == |Flatten(ys)|
  {
    SameShapeOffsets(xs, ys, |xs|);
    assert xs[..|xs|] == xs && ys[..|ys|] == ys;
  }

  lemma PartAt<T>(parts: seq<seq<T>>, b: nat)
    requires b < |parts|
    ensures Offset(parts, b) <= Offset(parts, b + 1) <= |Flatten(parts)|
    ensures Flatten(parts)[Offset(parts, b)..Offset(parts, b + 1)] == parts[b]
  {
    hide Flatten, Offset;
    OffsetBound(parts, b);
    var all := Flatten(parts);
    forall i | 0 <= i < |parts[b]|
      ensures all[Offset(parts, b) + i] == parts[b][i]
    {
      FlattenAt(parts, b, i);
    }
  }

  // ---- review ----------------------------------------------------------------------------

  /** Review batch `b` was one call, and its result is what its reply comes to. */
  ghost predicate AllReviewed(results: seq<Option<seq<string>>>, batches: seq<Batch>, start: nat, calls: seq<seq<Message>>,
                              replies: Oracle, cfg: Config)
  {
    && |results| <= |batches| && start + |results| <= |calls|
    && forall b :: 0 <= b < |results| ==>
         calls[start + b] == [User(ReviewPrompt(batches[b], cfg))]
         && results[b] == Reviewed(Prepare(batches[b].cues), replies(start + b), cfg.prompts.scaffold)
  }

  lemma AllReviewedStep(results: seq<Option<seq<string>>>, r: Option<seq<string>>, batches: seq<Batch>, start: nat,
                        calls: seq<seq<Message>>, more: seq<seq<Message>>, replies: Oracle, cfg: Config)
    requires AllReviewed(results, batches, start, calls, replies, cfg) && |results| < |batches| && start + |results| == |calls|
    requires more == calls + [[User(ReviewPrompt(batches[|results|], cfg))]]
    requires r == Reviewed(Prepare(batches[|results|].cues), replies(|calls|), cfg.prompts.scaffold)
    ensures AllReviewed(results + [r], batches, start, more, replies, cfg)
  {
    hide Reviewed, Prepare, ReviewPrompt;
    forall b | 0 <= b < |results + [r]|
      ensures more[start + b] == [User(ReviewPrompt(batches[b], cfg))]
      ensures (results + [r])[b] == Reviewed(Prepare(batches[b].cues), replies(start + b), cfg.prompts.scaffold)
    {
      assert b < |results| ==> more[start + b] == calls[start + b];
    }
  }

  lemma AllReviewedLater(results: seq<Option<seq<string>>>, batches: seq<Batch>, start: nat, calls: seq<seq<Message>>,
                         more: seq<seq<Message>>, replies: Oracle, cfg: Config)
    requires AllReviewed(results, batches, start, calls, replies, cfg) && calls <= more
    ensures AllReviewed(results, batches, start, more, replies, cfg)
  {
    hide Reviewed, Prepare, ReviewPrompt;
    forall b | 0 <= b < |results|
      ensures more[start + b] == [User(ReviewPrompt(batches[b], cfg))]
    {
      assert more[start + b] == calls[start + b];
    }
  }

  ghost predicate Spliced(lines: seq<SubLine>, batches: seq<Batch>, results: seq<Option<seq<string>>>, r: seq<SubLine>)
  {
    && |results| == |batches| && |r| == |lines|
    && var c := Corrections(BatchCues(batches), results);
       |c| == |NonRaw(lines)| && forall i :: 0 <= i < |lines| ==> r[i] == SplicedAt(lines, c, i)
  }

  // ---- repair ----------------------------------------------------------------------------

  /** The source cues at some positions. */
  function CuesAt(src: seq<SubLine>, chosen: seq<nat>): (r: seq<SubLine>)
    requires forall k :: 0 <= k < |chosen| ==> chosen[k] < |src|
    ensures |r| == |chosen| && forall k :: 0 <= k < |r| ==> r[k] == src[chosen[k]]
  {
    seq(|chosen|, k requires 0 <= k < |chosen| => src[chosen[k]])
  }

  function ChosenHint(chosen: seq<nat>, i: nat, pro: Pronouns): Option<Terms>
  {
    if 1 <= i <= |chosen| then ExpectedHint(pro.flat, chosen[i - 1], pro.index, pro.rules, pro.resolved) else None
  }

  /** The hints of a repair batch, looked up by document position. */
  function ChosenHints(chosen: seq<nat>, pro: Pronouns): map<nat, Terms>
  {
    map i: nat | 1 <= i <= |chosen| && ChosenHint(chosen, i, pro).Some? :: ChosenHint(chosen, i, pro).value
  }

  function RepairPrompt(src: seq<SubLine>, chosen: seq<nat>, check: nat, pro: Pronouns, cfg: Config): string
    requires forall k :: 0 <= k < |chosen| ==> chosen[k] < |src|
  {
    PromptOf(Batch(CuesAt(src, chosen), [], []), OrNone(ChosenHints(chosen, pro)), Some(check), cfg)
  }

  /** One repair: the cues it took, its accepted reply, and the document before the envelope pass. */
  datatype Repair = Repair(chosen: seq<nat>, won: Won, fixed: seq<SubLine>)

  ghost function Enveloped(src: seq<SubLine>, lines: seq<SubLine>, cfg: Config): seq<SubLine>
  {
    if cfg.envelopes then PreservedLines(src, lines) else lines
  }

  /** The repair of a refused document: the failing translatable cues, in order, each with the text of
      its own place in an accepted reply to the repair prompt, and no other cue touched. */
  ghost predicate RepairOf(r: Repair, src: seq<SubLine>, lines: seq<SubLine>, failing: seq<nat>, check: nat,
                           calls: seq<seq<Message>>, replies: Oracle, pro: Pronouns, cfg: Config)
  {
    && |src| == |lines| && Ascending(failing, |lines|) && r.chosen == Chosen(failing, lines)
    && Accepted(r.won, calls, replies, RepairPrompt(src, r.chosen, check, pro, cfg), CuesAt(src, r.chosen))
    && Repaired(lines, r.chosen, r.won.texts, r.fixed)
  }

  lemma RepairOfLater(r: Repair, src: seq<SubLine>, lines: seq<SubLine>, failing: seq<nat>, check: nat,
                      calls: seq<seq<Message>>, more: seq<seq<Message>>, replies: Oracle, pro: Pronouns, cfg: Config)
    requires RepairOf(r, src, lines, failing, check, calls, replies, pro, cfg) && calls <= more
    ensures RepairOf(r, src, lines, failing, check, more, replies, pro, cfg)
  {
    hide Accepted, Repaired, RepairPrompt, CuesAt;
    AcceptedLater(r.won, calls, more, replies, RepairPrompt(src, r.chosen, check, pro, cfg), CuesAt(src, r.chosen));
  }

  /** A document the gate refused for something repairable, and the next one it was shown. */
  ghost predicate RepairStep(r: Repair, src: seq<SubLine>, lines: seq<SubLine>, next: seq<SubLine>,
                             calls: seq<seq<Message>>, replies: Oracle, pro: Pronouns, cfg: Config)
  {
    var v := Validate(src, lines, cfg.lang);
    && v.Fail? && Repairable(v.check)
    && RepairOf(r, src, lines, v.failing, v.check, calls, replies, pro, cfg)
    && next == Enveloped(src, r.fixed, cfg)
  }

  /** Every document shown to the gate was in frame, and each one after the first is the repair of the
      one before, which was refused for something repairable. */
  ghost predicate Gated(src: seq<SubLine>, shown: seq<seq<SubLine>>, repairs: seq<Repair>, calls: seq<seq<Message>>,
                        replies: Oracle, pro: Pronouns, cfg: Config)
  {
    && |shown| == |repairs| + 1
    && (forall k :: 0 <= k < |shown| ==> SameFrame(src, shown[k]))
    && forall k :: 0 <= k < |repairs| ==> RepairStep(repairs[k], src, shown[k], shown[k + 1], calls, replies, pro, cfg)
  }

  lemma GatedStart(src: seq<SubLine>, doc: seq<SubLine>, calls: seq<seq<Message>>, replies: Oracle, pro: Pronouns, cfg: Config)
    requires SameFrame(src, doc)
    ensures Gated(src, [doc], [], calls, replies, pro, cfg)
  {
  }

  lemma GatedLater(src: seq<SubLine>, shown: seq<seq<SubLine>>, repairs: seq<Repair>, calls: seq<seq<Message>>,
                   more: seq<seq<Message>>, replies: Oracle, pro: Pronouns, cfg: Config)
    requires Gated(src, shown, repairs, calls, replies, pro, cfg) && calls <= more
    ensures Gated(src, shown, repairs, more, replies, pro, cfg)
  {
    hide SameFrame, Validate, RepairOf, Enveloped;
    forall k | 0 <= k < |repairs|
      ensures RepairStep(repairs[k], src, shown[k], shown[k + 1], more, replies, pro, cfg)
    {
      assert RepairStep(repairs[k], src, shown[k], shown[k + 1], calls, replies, pro, cfg);
      var v := Validate(src, shown[k], cfg.lang);
      RepairOfLater(repairs[k], src, shown[k], v.failing, v.check, calls, more, replies, pro, cfg);
    }
  }

  lemma GatedStep(src: seq<SubLine>, shown: seq<seq<SubLine>>, repairs: seq<Repair>, r: Repair, next: seq<SubLine>,
                  calls: seq<seq<Message>>, replies: Oracle, pro: Pronouns, cfg: Config)
    requires Gated(src, shown, repairs, calls, replies, pro, cfg) && SameFrame(src, next)
    requires RepairStep(r, src, shown[|shown| - 1], next, calls, replies, pro, cfg)
    ensures Gated(src, shown + [next], repairs + [r], calls, replies, pro, cfg)
  {
    hide SameFrame, RepairStep;
    var s, q := shown + [next], repairs + [r];
    forall k | 0 <= k < |q|
      ensures RepairStep(q[k], src, s[k], s[k + 1], calls, replies, pro, cfg)
    {
      assert k < |repairs| ==> s[k] == shown[k] && s[k + 1] == shown[k + 1];
    }
  }

  // ---- the whole file --------------------------------------------------------------------

  /** Everything a run on one file accepted, and the documents it made of it. */
  datatype Trace = Trace(
    batches: seq<Batch>,
    hints: seq<Option<map<nat, Terms>>>,
    won: seq<Won>,
    draft: seq<SubLine>,
    reviews: seq<Batch>,
    reviewStart: nat,
    results: seq<Option<seq<string>>>,
    shown: seq<seq<SubLine>>,
    repairs: seq<Repair>)

  ghost predicate Drafted(t: Trace, src: seq<SubLine>, calls: seq<seq<Message>>, replies: Oracle, cfg: Config)
  {
    && Flatten(BatchCues(t.batches)) == NonRaw(src) && |t.won| == |t.batches|
    && AllAccepted(t.won, t.batches, t.hints, calls, replies, cfg)
    && InPlace(Flatten(WonTexts(t.won)), t.batches, t.won)
    && t.draft == Filled(src, Flatten(WonTexts(t.won)))
  }

  /** The document after the review pass; without one, no review batch and the draft itself. */
  ghost predicate Checked(t: Trace, r: seq<SubLine>, calls: seq<seq<Message>>, replies: Oracle, cfg: Config)
  {
    if cfg.review then
      && Flatten(BatchCues(t.reviews)) == NonRaw(t.draft)
      && AllReviewed(t.results, t.reviews, t.reviewStart, calls, replies, cfg)
      && Spliced(t.draft, t.reviews, t.results, r)
    else r == t.draft
  }

  /** The trace of a run: what the gate saw is the draft, reviewed and enveloped, and its repairs. */
  ghost predicate Traced(t: Trace, checked: seq<SubLine>, src: seq<SubLine>, calls: seq<seq<Message>>, replies: Oracle,
                         pro: Pronouns, cfg: Config)
  {
    && Drafted(t, src, calls, replies, cfg) && Checked(t, checked, calls, replies, cfg)
    && SameFrame(src, t.draft) && SameFrame(src, checked)
    && Gated(src, t.shown, t.repairs, calls, replies, pro, cfg) && t.shown[0] == Enveloped(src, checked, cfg)
  }

  /** The line of a reply: of batch `batch` of the translation or the review, or of repair `round`. */
  datatype Origin = FromBatch(batch: nat, line: nat) | FromReview(batch: nat, line: nat) | FromRepair(round: nat, line: nat)

  function IndexIn(xs: seq<nat>, x: nat): (k: nat)
    requires x in xs
    ensures k < |xs| && xs[k] == x
  {
    if xs[0] == x then 0 else 1 + IndexIn(xs[1..], x)
  }

  ghost predicate Shaped(t: Trace, src: seq<SubLine>, review: bool)
  {
    && Flatten(BatchCues(t.batches)) == NonRaw(src) && |t.won| == |t.batches|
    && (forall b :: 0 <= b < |t.won| ==> |t.won[b].texts| == |t.batches[b].cues|)
    && |t.draft| == |src| && (forall i :: 0 <= i < |src| ==> (t.draft[i].raw.None? <==> src[i].raw.None?))
    && (review ==> Flatten(BatchCues(t.reviews)) == NonRaw(t.draft) && |t.results| == |t.reviews|
                   && forall b :: 0 <= b < |t.results| && t.results[b].Some? ==> |t.results[b].value| == |t.reviews[b].cues|)
    && (forall k :: 0 <= k < |t.repairs| ==> |t.repairs[k].won.texts| == |t.repairs[k].chosen|)
  }

  /** Where cue `i` of the document shown in round `k` has its text from: the last repair that took it,
      else the correction of its review batch, else its translation batch; each time at its own place. */
  ghost function OriginOf(t: Trace, src: seq<SubLine>, review: bool, i: nat, k: nat): (o: Origin)
    requires Shaped(t, src, review) && i < |src| && src[i].raw.None? && k <= |t.repairs|
    ensures match o
            case FromBatch(b, j) => b < |t.batches| && j < |t.won[b].texts| && j < |t.batches[b].cues|
            case FromReview(b, j) => review && b < |t.reviews| && t.results[b].Some? && j < |t.results[b].value| && j < |t.reviews[b].cues|
            case FromRepair(r, j) => r < k && j < |t.repairs[r].won.texts| && t.repairs[r].chosen[j] == i
  {
    if k > 0 then
      if i in t.repairs[k - 1].chosen then FromRepair(k - 1, IndexIn(t.repairs[k - 1].chosen, i))
      else OriginOf(t, src, review, i, k - 1)
    else
      NonRawAt(src, i);
      NonRawAt(t.draft, i);
      var at := Locate(BatchCues(t.batches), Rank(src, i));
      if !review then FromBatch(at.0, at.1)
      else
        var r := Locate(BatchCues(t.reviews), Rank(t.draft, i));
        if t.results[r.0].Some? then FromReview(r.0, r.1) else FromBatch(at.0, at.1)
  }

  ghost function OriginText(t: Trace, src: seq<SubLine>, review: bool, i: nat, k: nat): string
    requires Shaped(t, src, review) && i < |src| && src[i].raw.None? && k <= |t.repairs|
  {
    match OriginOf(t, src, review, i, k)
    case FromBatch(b, j) => t.won[b].texts[j]
    case FromReview(b, j) => t.results[b].value[j]
    case FromRepair(r, j) => t.repairs[r].won.texts[j]
  }

  /** A text with the envelope its source asks for. */
  ghost function WithEnvelope(src: SubLine, text: string, cfg: Config): string
  {
    if cfg.envelopes then Preserved(src, Retext(src, text)).text else text
  }

  lemma EnvelopeText(src: SubLine, trn: SubLine, cfg: Config)
    requires trn.raw.None?
    ensures Preserved(src, trn).text == Preserved(src, Retext(src, trn.text)).text
    ensures WithEnvelope(src, WithEnvelope(src, trn.text, cfg), cfg) == WithEnvelope(src, trn.text, cfg)
  {
    PreservedTwice(src, Retext(src, trn.text));
    hide Enclosed, Wrapped;
  }

  /** The batch and line an origin in the translation or the review names hold this very cue. */
  lemma OriginIsThisCue(t: Trace, src: seq<SubLine>, review: bool, i: nat, k: nat)
    requires Shaped(t, src, review) && i < |src| && src[i].raw.None? && k <= |t.repairs|
    ensures match OriginOf(t, src, review, i, k)
            case FromBatch(b, j) => t.batches[b].cues[j] == src[i] && Offset(BatchCues(t.batches), b) + j == Rank(src, i)
            case FromReview(b, j) => t.reviews[b].cues[j] == t.draft[i] && Offset(BatchCues(t.reviews), b) + j == Rank(t.draft, i)
            case FromRepair(r, j) => t.repairs[r].chosen[j] == i
  {
    hide Locate, Flatten, NonRaw, Rank, Offset;
    if k > 0 {
      if i !in t.repairs[k - 1].chosen {
        OriginIsThisCue(t, src, review, i, k - 1);
      }
    } else {
      NonRawAt(src, i);
      NonRawAt(t.draft, i);
      LocateAt(BatchCues(t.batches), Rank(src, i));
      if review {
        LocateAt(BatchCues(t.reviews), Rank(t.draft, i));
      }
    }
  }

  lemma TracedShaped(t: Trace, checked: seq<SubLine>, src: seq<SubLine>, calls: seq<seq<Message>>, replies: Oracle,
                     pro: Pronouns, cfg: Config)
    requires Traced(t, checked, src, calls, replies, pro, cfg)
    ensures Shaped(t, src, cfg.review)
  {
    hide Flatten, NonRaw, Filled, InPlace, Accepted, AllReviewed, Corrections, RepairStep, Reviewed, PromptOf;
    forall b | 0 <= b < |t.won|
      ensures |t.won[b].texts| == |t.batches[b].cues|
    {
      AcceptedCount(t.won[b], calls, replies, PromptOf(t.batches[b], t.hints[b], None, cfg), t.batches[b].cues);
    }
    forall k | 0 <= k < |t.repairs|
      ensures |t.repairs[k].won.texts| == |t.repairs[k].chosen|
    {
      assert RepairStep(t.repairs[k], src, t.shown[k], t.shown[k + 1], calls, replies, pro, cfg);
      RepairCount(t.repairs[k], src, t.shown[k], t.shown[k + 1], calls, replies, pro, cfg);
    }
    forall i | 0 <= i < |src|
      ensures t.draft[i].raw.None? <==> src[i].raw.None?
    {
      assert SameFrameLine(src[i], t.draft[i]);
    }
    if cfg.review {
      ReviewCount(t.results, t.reviews, t.reviewStart, calls, replies, cfg);
    }
  }

  lemma AcceptedCount(w: Won, calls: seq<seq<Message>>, replies: Oracle, prompt: string, cues: seq<SubLine>)
    requires Accepted(w, calls, replies, prompt, cues)
    ensures |w.texts| == |cues|
  {
  }

  lemma RepairCount(r: Repair, src: seq<SubLine>, lines: seq<SubLine>, next: seq<SubLine>, calls: seq<seq<Message>>,
                    replies: Oracle, pro: Pronouns, cfg: Config)
    requires RepairStep(r, src, lines, next, calls, replies, pro, cfg)
    ensures |r.won.texts| == |r.chosen|
  {
    hide Validate, Repaired, Judge, Prepare, RepairPrompt;
  }

  lemma ReviewCount(results: seq<Option<seq<string>>>, batches: seq<Batch>, start: nat, calls: seq<seq<Message>>,
                    replies: Oracle, cfg: Config)
    requires AllReviewed(results, batches, start, calls, replies, cfg)
    ensures forall b :: 0 <= b < |results| && results[b].Some? ==> |results[b].value| == |batches[b].cues|
  {
    hide Reviewed, Prepare, ReviewPrompt;
  }

  // ---- the theorem -----------------------------------------------------------------------

  /** The text of a translatable cue in the draft is the line at its own place in its batch's reply. */
  lemma DraftOrigin(t: Trace, src: seq<SubLine>, i: nat)
    requires Flatten(BatchCues(t.batches)) == NonRaw(src) && |t.won| == |t.batches|
    requires forall b :: 0 <= b < |t.won| ==> |t.won[b].texts| == |t.batches[b].cues|
    requires |Flatten(WonTexts(t.won))| == |NonRaw(src)| && t.draft == Filled(src, Flatten(WonTexts(t.won)))
    requires i < |src| && src[i].raw.None?
    ensures Rank(src, i) < |Flatten(BatchCues(t.batches))|
    ensures var at := Locate(BatchCues(t.batches), Rank(src, i));
            at.1 < |t.won[at.0].texts| && t.draft[i].text == t.won[at.0].texts[at.1]
  {
    hide Flatten, NonRaw, Rank, Locate;
    NonRawAt(src, i);
    FilledNonRaw(src, Flatten(WonTexts(t.won)), i);
    LocateSame(WonTexts(t.won), BatchCues(t.batches), Rank(src, i));
  }

  lemma {:induction false} CorrectionAt(batches: seq<seq<SubLine>>, results: seq<Option<seq<string>>>, b: nat, j: nat)
    requires |batches| == |results| && b < |batches| && j < |batches[b]|
    ensures Offset(batches, b) + j < |Corrections(batches, results)|
    ensures Corrections(batches, results)[Offset(batches, b) + j] == BatchCorrections(batches[b], results[b])[j]
  {
    var n := |batches| - 1;
    CorrectionsAlign(batches[..n], results[..n]);
    hide BatchCorrections, Flatten;
    if b < n {
      CorrectionAt(batches[..n], results[..n], b, j);
      assert batches[..n][..b] == batches[..b];
    }
  }

  /** ... after the review, the line at its own place in its review batch, if that was corrected. */
  lemma CheckedOrigin(t: Trace, checked: seq<SubLine>, i: nat)
    requires Flatten(BatchCues(t.reviews)) == NonRaw(t.draft) && Spliced(t.draft, t.reviews, t.results, checked)
    requires forall b :: 0 <= b < |t.results| && t.results[b].Some? ==> |t.results[b].value| == |t.reviews[b].cues|
    requires i < |t.draft| && t.draft[i].raw.None?
    ensures Rank(t.draft, i) < |Flatten(BatchCues(t.reviews))|
    ensures var r := Locate(BatchCues(t.reviews), Rank(t.draft, i));
            checked[i].text == if t.results[r.0].Some? then t.results[r.0].value[r.1] else t.draft[i].text
  {
    hide Flatten, NonRaw, Rank, Locate, Corrections;
    NonRawAt(t.draft, i);
    var r := Locate(BatchCues(t.reviews), Rank(t.draft, i));
    CorrectionAt(BatchCues(t.reviews), t.results, r.0, r.1);
    assert checked[i] == SplicedAt(t.draft, Corrections(BatchCues(t.reviews), t.results), i);
  }

  /** One repair and the envelope pass after it, cue by cue. */
  lemma RepairedOrigin(r: Repair, src: seq<SubLine>, lines: seq<SubLine>, next: seq<SubLine>, cfg: Config, i: nat, text: string)
    requires SameFrame(src, lines) && Repaired(lines, r.chosen, r.won.texts, r.fixed) && next == Enveloped(src, r.fixed, cfg)
    requires i < |src| && src[i].raw.None? && lines[i].text == WithEnvelope(src[i], text, cfg)
    ensures |next| == |src|
    ensures next[i].text == if i in r.chosen then WithEnvelope(src[i], r.won.texts[IndexIn(r.chosen, i)], cfg)
                            else WithEnvelope(src[i], text, cfg)
  {
    hide Preserved, Enclosed, IndexIn;
    assert SameFrameLine(src[i], lines[i]);
    if i in r.chosen {
      var j := IndexIn(r.chosen, i);
      assert r.fixed[r.chosen[j]] == Retext(lines[i], r.won.texts[j]);
      EnvelopeText(src[i], r.fixed[i], cfg);
    } else {
      EnvelopeText(src[i], lines[i], cfg);
      EnvelopeText(src[i], Retext(src[i], text), cfg);
    }
  }

  /** Whatever the model says, the text of every translatable cue of every document the gate sees is,
      up to the envelope its source asks for, the line at that very cue's place in the accepted reply
      that `OriginOf` names. */
  lemma {:induction false} TextOrigin(t: Trace, checked: seq<SubLine>, src: seq<SubLine>, calls: seq<seq<Message>>,
                                      replies: Oracle, pro: Pronouns, cfg: Config, i: nat, k: nat)
    requires Traced(t, checked, src, calls, replies, pro, cfg) && Shaped(t, src, cfg.review)
    requires i < |src| && src[i].raw.None? && k < |t.shown|
    ensures |t.shown[k]| == |src|
    ensures t.shown[k][i].text == WithEnvelope(src[i], OriginText(t, src, cfg.review, i, k), cfg)
  {
    hide Drafted, Checked, Shaped, WithEnvelope, Enveloped, SameFrame, OriginText, Gated;
    TracedGated(t, checked, src, calls, replies, pro, cfg);
    if k == 0 {
      FirstOrigin(t, checked, src, calls, replies, pro, cfg, i);
    } else {
      TextOrigin(t, checked, src, calls, replies, pro, cfg, i, k - 1);
      NextOrigin(t, src, calls, replies, pro, cfg, i, k);
    }
  }

  lemma TracedGated(t: Trace, checked: seq<SubLine>, src: seq<SubLine>, calls: seq<seq<Message>>, replies: Oracle,
                    pro: Pronouns, cfg: Config)
    requires Traced(t, checked, src, calls, replies, pro, cfg)
    ensures Gated(src, t.shown, t.repairs, calls, replies, pro, cfg) && |t.shown| == |t.repairs| + 1
  {
    hide Drafted, Checked, RepairStep, SameFrame;
  }

  lemma NextOrigin(t: Trace, src: seq<SubLine>, calls: seq<seq<Message>>, replies: Oracle, pro: Pronouns, cfg: Config,
                   i: nat, k: nat)
    requires Gated(src, t.shown, t.repairs, calls, replies, pro, cfg) && Shaped(t, src, cfg.review)
    requires i < |src| && src[i].raw.None? && 0 < k < |t.shown| && |t.shown[k - 1]| == |src|
    requires t.shown[k - 1][i].text == WithEnvelope(src[i], OriginText(t, src, cfg.review, i, k - 1), cfg)
    ensures |t.shown[k]| == |src|
    ensures t.shown[k][i].text == WithEnvelope(src[i], OriginText(t, src, cfg.review, i, k), cfg)
  {
    hide Shaped, RepairStep, WithEnvelope, Enveloped, SameFrame, IndexIn, OriginText;
    var r := t.repairs[k - 1];
    assert RepairStep(r, src, t.shown[k - 1], t.shown[k - 1 + 1], calls, replies, pro, cfg);
    hide *;
    OriginStep(t, src, cfg.review, i, k);
    StepRepairs(r, src, t.shown[k - 1], t.shown[k], calls, replies, pro, cfg);
    RepairedOrigin(r, src, t.shown[k - 1], t.shown[k], cfg, i, OriginText(t, src, cfg.review, i, k - 1));
  }

  lemma StepRepairs(r: Repair, src: seq<SubLine>, lines: seq<SubLine>, next: seq<SubLine>, calls: seq<seq<Message>>,
                    replies: Oracle, pro: Pronouns, cfg: Config)
    requires RepairStep(r, src, lines, next, calls, replies, pro, cfg)
    ensures Repaired(lines, r.chosen, r.won.texts, r.fixed) && next == Enveloped(src, r.fixed, cfg)
  {
    hide Validate, Repaired, Accepted, RepairPrompt, Enveloped;
  }

  lemma OriginStep(t: Trace, src: seq<SubLine>, review: bool, i: nat, k: nat)
    requires Shaped(t, src, review) && i < |src| && src[i].raw.None? && 0 < k <= |t.repairs|
    ensures var r := t.repairs[k - 1];
            OriginText(t, src, review, i, k)
              == if i in r.chosen then r.won.texts[IndexIn(r.chosen, i)] else OriginText(t, src, review, i, k - 1)
  {
    hide IndexIn, Locate, Flatten, NonRaw;
  }

  lemma FirstOrigin(t: Trace, checked: seq<SubLine>, src: seq<SubLine>, calls: seq<seq<Message>>, replies: Oracle,
                    pro: Pronouns, cfg: Config, i: nat)
    requires Traced(t, checked, src, calls, replies, pro, cfg) && Shaped(t, src, cfg.review)
    requires i < |src| && src[i].raw.None?
    ensures |t.shown[0]| == |src|
    ensures t.shown[0][i].text == WithEnvelope(src[i], OriginText(t, src, cfg.review, i, 0), cfg)
  {
    hide Flatten, NonRaw, Rank, Locate, Gated, Corrections, AllAccepted, AllReviewed, Filled, Preserved, Spliced;
    DraftOrigin(t, src, i);
    if cfg.review {
      CheckedOrigin(t, checked, i);
    }
    assert checked[i].text == OriginText(t, src, cfg.review, i, 0);
    assert SameFrameLine(src[i], checked[i]);
    EnvelopeText(src[i], checked[i], cfg);
  }
}
