# Trezarr: a verified model

Trezarr translates subtitle files into Vietnamese with a language model it does not trust. This
project models the parts that do not look at the wire, and proves what they promise for every
behaviour of the model, every file and every order of events.

* **Cue pipeline** (`Subtitles`, `Batching`, `Sentinel*`, `Numbered*`, `Conversation`, `Envelopes`,
  `Gate`, `Reassembly`, `Provenance`, `Pipeline`, `BlankReplies`, `ReplyLaws`, `FileRun`). The model is an oracle:
  each call returns an arbitrary string or raises. The attribution pass, the packer, the tag tokens, the numbered-line protocol, the bounded correction loop, the
  reassembly around opaque cues, the review splice, the bracket pass, the twelve checks of the gate
  and the repair loop are methods over that oracle; one theorem follows every written text back to the
  reply it was accepted from.
* **Series Bible and pronouns** (`BibleStore`, `BibleTables`, `Analysis*`, `Attribution`, `NameLaws`,
  `Reconcile*`, `Episodes`, `Renderings`). Rows, locks and the audit log are a value; the store's operations are
  functions on it, and a class performs them in place, method by method, against those functions.
  An episode is a merge of an arbitrary analysis followed by the reconciliation of arbitrary
  attributions; runs interleave episodes, API traffic and human edits.
* **Job queue** (`Worker*`). One step per transaction or stretch of code between two awaits, with a
  crash possible between any two. An invariant is kept by every step; the theorems are about all runs.
* **Codecs** (`Text`, `TextLines`, `Blocks`, `BlockCuts`, `Srt*`, `Vtt*`, `Ass*`). Parsers and printers on decoded
  text, with the regular expressions written as recognisers.
* **Eligibility** (`Eligibility`). The ledger, the gap detector, the entry checks of a translation,
  and runs between which anything may happen to the disk.

The code is followed where its comments promise more. Where a promise fails, there is a lemma with
an input that shows it, and the exact condition under which it holds:

* `POST /jobs/{id}/retry` has no dedup guard, so two rows of one path can be active
  (`RetryBreaksDedup`; exactly the colliding retries do it, `OneActiveIff`).
* An ASS text that ends in a line break other than CRLF, LF or CR (a vertical tab, a form feed, NEL)
  is not recovered after a replacement (`ExoticBreakLost`, `LensIff`). Under a Format of three fields
  the text is also read as the end time (`Retimed`).
* SRT loses a separator of a file that is white space beginning with blank lines (`GapExample`), and
  normalises padded index lines, arrow spacing and mixed line endings; otherwise it is exact
  (`SrtRoundTrip.WriteReadIff`).
* Once an attempt on a source has failed, a sidecar another tool writes later is overwritten by the
  next attempt on that source (`RetryClobbers`, `OverwritesIff`), though by no other source's
  (`RicherIff`, `FailuresDisclaim`).
* A VTT text that holds a blank line, or is empty before the next cue, does not come back from the file
  it is written to (`VttLens.ReplaceIff`).
* A suppressed term inference, or a term first stored without a rendering, breaks the audit chain of
  that rendering (`TermChainIff`).
* If the dictionary could not be read, the auto-lock step overwrites a human-locked rendering, exactly
  where a planned spec selects one with another value (`LockStepKeepsIff`, `LockStepNeedsRead`); if the
  Bible could not be read, the merge overwrites stored pairs (`PairStepKeepsIff`).
* A stored pair with a missing or empty term may be replaced by the safe default; when, is exact
  (`StoredPairMovesIff`, `StoredPairSurvivesIff`, and a run that does it, `BlankedPairRun`).
* The context window before a batch is wrong exactly when a raw cue lies inside the batch
  (`WindowsSurroundBatch`); the hint of a repaired cue belongs to another cue exactly when a raw cue
  precedes it (`RepairHintAligned`).
* A reply with nothing but tokens and white space for an untagged cue passes the batch checks and
  leaves that cue empty (`BlankAcceptedIff`, `BlankReplyAccepted`). The gate refuses such a document
  (`GateRefusesBlank`), unless the source cue is one bracketed whole: then the envelope pass has made it
  an empty pair of brackets (`EnvelopeHidesBlank`).

## Model

| member | source | states |
|---|---|---|
| Batching.BatchSubdoc | trezarr/translate/batching.py:103-177 | the batches are feasible, maximal and contiguous, concatenate to exactly the translatable cues in order, none is empty, and each carries the window the code attaches |
| Batching.GreedyStaysAhead | trezarr/translate/batching.py:137-177 | a greedy packing of what is left needs no more batches than any packing that starts earlier |
| Batching.GreedyIsOptimal | trezarr/translate/batching.py:137-177 | no packing within both caps that respects scene gaps has fewer batches |
| Batching.GreedyIsUnique | trezarr/translate/batching.py:137-177 | feasible, maximal and complete determines the packing |
| Batching.PackedOnLines | trezarr/translate/batching.py:103-177 | on the document: a batch of several cues keeps both caps, no scene gap, measured from the line before, raw or not, lies inside a batch, and a batch ends only at a scene gap or where the next cue would break a cap |
| Batching.WindowStart | trezarr/translate/batching.py:67-100 | the computed first line is the batch's first line exactly when no raw cue lies inside the batch |
| Batching.WindowsSurroundBatch | trezarr/translate/batching.py:67-100 | the context windows are the lines on either side of the batch if and only if no raw cue lies inside it; otherwise the window before starts late |
| Subtitles.NonRawAt | trezarr/translate/engine.py:2018-2056 | a translatable cue sits at its rank among the translatable cues, the alignment every queue of texts relies on |
| Sentinel.ExtractSentinels | trezarr/translate/sentinel.py:25-57 | the scan yields the text with each tag, by the three patterns in order, replaced by the next key, and the tags in order |
| Sentinel.ReinsertSentinels | trezarr/translate/sentinel.py:60-118 | orphans dropped, keys restored one by one, a missing key or a leftover token fails |
| SentinelLaws.CleanTokens | trezarr/translate/sentinel.py:46-57 | the tokens found in an extracted text are exactly the keys put there, in order: no literal text can join a key to form another token |
| SentinelLaws.RoundTripIff | trezarr/translate/sentinel.py:25-118 | reinsert after extract is the identity with success if and only if the text contains no token of its own |
| SentinelOrder.AnyOrderIff | trezarr/translate/sentinel.py:60-118 | for a text without an opener, whatever order the tokens come back in between ordinary words: success if and only if each came back once, and then each tag stands where its token stood |
| SentinelOrder.UntaggedNeverFails | trezarr/translate/sentinel.py:69-82 | a cue without tags never fails reinsertion whatever tokens are invented, none survives, and a reply without tokens is untouched |
| BlankReplies.BlankIff | trezarr/translate/sentinel.py:60-118 | for a cue without tags, what is put back is blank if and only if the reply had nothing but tokens and white space for it |
| BlankReplies.BlankAcceptedIff | trezarr/translate/engine.py:1058-1119 | a batch is accepted with a blank text for a cue exactly when the reply reads as one text per cue, every tagged cue got its tags back, the cue has no tags, and the reply had only tokens and white space for it |
| BlankReplies.BlankReplyAccepted | trezarr/translate/engine.py:1058-1119 | a concrete reply that is accepted and leaves a cue empty |
| BlankReplies.EnvelopeHidesBlank | trezarr/translate/engine.py:1321-1379 | after the envelope pass the cue is still blank exactly if its source is not one bracketed whole; otherwise it is an empty pair of brackets |
| BlankReplies.GateRefusesBlank | trezarr/translate/validate.py:480-570 | check 2 fails exactly if some translatable cue is blank, and its failures are never repaired |
| NumberedLines.ParseNumberedResponse | trezarr/translate/engine.py:790-908 | the two loops of the parser compute the specified reading, first error first |
| NumberedLaws.AcceptedIff | trezarr/translate/engine.py:828-908 | a reply is accepted exactly when its numbers are 1 to n, once each in any order, each with content after cleaning; each cue gets the cleaned text of its own marker and continuation lines |
| NumberedLaws.ProseIgnored | trezarr/translate/engine.py:838-857 | with no multi-line cue, unnumbered lines change nothing |
| NumberedEcho.LineReads | trezarr/translate/engine.py:461-470 | the prompt's encoding of a cue is one line that reads back as its number and its marked text |
| NumberedEcho.CleanIff | trezarr/translate/engine.py:872-895 | cleaning undoes the marking of newlines exactly for texts without a break marker inside a line and without an echoed instruction at the start |
| NumberedEcho.EchoIff | trezarr/translate/engine.py:790-908 | the parser inverts the encoding for every order of the lines and every set of multi-line cues, if and only if no text looks like protocol itself |
| NumberedScaffold.HintIff | trezarr/translate/engine.py:722-726 | the cleaning takes a beginning for an echoed pronoun hint if and only if it is one: white space, a parenthesis that starts with "speaker says:" in any case and spacing, up to the first closing one, and the white space after it |
| NumberedScaffold.VnHintIff | trezarr/translate/engine.py:765-772 | the same for the hint with Vietnamese labels, in round brackets first, else in square ones: the label before the first closing bracket and after no other opening one |
| NumberedScaffold.DirectiveIff | trezarr/translate/engine.py:736-740 | the same for an echoed repair directive: a square bracket with just "correction required", and the rest of its line |
| ReplyLaws.RefusedFor | trezarr/translate/engine.py:828-908 | a refused reply is refused for the first repeated number; with none, for a number out of range; with none of those, for the first cue without a marker or without content |
| Conversation.TranslateBatch | trezarr/translate/engine.py:989-1119 | at most retries + 1 calls; all but the last reply were invalid; the first valid reply is the result; each call is the original prompt followed by every bad reply and its correction |
| ReplyLaws.JudgedFor | trezarr/translate/engine.py:1058-1119 | a reply is a valid batch if and only if it is read as one text per cue and every cue got all its tags back; else the defect is what the parser refused it for, or the first cue that lost a tag |
| ReplyLaws.MultilineIff | trezarr/translate/engine.py:1058-1080 | a cue may take continuation lines if and only if its text without its tags spans lines |
| Conversation.FirstMessageStays | trezarr/translate/engine.py:1058-1119 | no reply can alter the first message of the conversation, which grows by two messages a turn |
| Conversation.AcceptedHasNoToken | trezarr/translate/engine.py:1079-1092 | no text of an accepted batch carries a token, so the closed-token half of gate check 6 cannot be caused by a batch |
| Conversation.ReviewBatch | trezarr/translate/engine.py:608-695 | one call, and either one text per cue or no correction at all; never an error |
| ReplyLaws.ReviewedCues | trezarr/translate/engine.py:608-695 | in a review that changes a batch each cue carries its own line of the reply with its own tags, and a line of scaffolding leaves its cue as it was |
| Envelopes.IsEnclosed | trezarr/translate/engine.py:1321-1357 | the loop with its early exit decides enclosure |
| Envelopes.EnclosedIff | trezarr/translate/engine.py:1321-1357 | the scan accepts a text exactly when its first character is a bracket whose match, by bracket matching with a stack, is its last character |
| Envelopes.PreserveSourceEnvelopes | trezarr/translate/engine.py:1285-1389 | cue by cue, raw cues, cues without an enclosed source and cues already wrapped stay as they are |
| Envelopes.PassIdempotent | trezarr/translate/engine.py:1321-1379 | the pass is idempotent and changes exactly the cues that need wrapping |
| Envelopes.WrapsIn | trezarr/translate/engine.py:1321-1379 | a translatable cue whose stripped source is one whole in round or square brackets, and which is not in that bracket already, gets its text between that bracket and its own closing one; every other cue stays |
| Gate.ValidateSubdoc | trezarr/translate/validate.py:480-759 | the twelve checks in order, first failure wins, leak indices accumulated per check with priority 9, 11, 12, 10 |
| Gate.CheckUntranslated | trezarr/translate/validate.py:380-431 | check 3 over the lines that carry language, naming all of those without Vietnamese |
| Gate.FrameNeverFails | trezarr/translate/validate.py:523-570 | a document in the frame of its source never fails checks 1, 4 and 5 |
| Gate.RepairableFailure | trezarr/translate/validate.py:608-759 | a repairable failure names distinct ascending cues of the document, none raw, exactly those on which its test fires |
| Gate.RatioIff | trezarr/translate/validate.py:380-431 | check 3 lets a document through if and only if no cue carries language or at least the threshold share of those that do is Vietnamese |
| Gate.PassIff | trezarr/translate/validate.py:480-759 | a document passes if and only if it has as many cues as its source, each in frame for index, timecodes and times, writable, without token, scaffolding or leak and, if translatable, with content, and enough of it is Vietnamese |
| Gate.FirstRefusal | trezarr/translate/validate.py:480-759 | the verdict is the first check, in the order 1 to 9, 11, 12, 10, that refuses the document, each check being said cue by cue |
| Reassembly.Reassemble | trezarr/translate/engine.py:2018-2056 | text k goes to the k-th translatable cue, raw cues stay, the queue neither runs dry nor has anything left |
| Reassembly.FilledNonRaw | trezarr/translate/engine.py:2018-2056 | the text of a translatable cue is the one of its rank, and no other cue shares that rank |
| Reassembly.CorrectionsAlign | trezarr/translate/engine.py:1241-1254 | the flattened corrections line up one to one with the batched cues |
| Reassembly.SpliceReviewCorrections | trezarr/translate/engine.py:1224-1277 | corrections land on the cues they were made for, raw cues are skipped, the iterator never runs dry and the frame is kept |
| Reassembly.SpliceRepair | trezarr/translate/engine.py:1533-1573 | only the chosen cues change, each to its own new text |
| Reassembly.RepairKeepsFrame | trezarr/translate/engine.py:1533-1573 | a repair keeps count, indexes, timecodes and raw cues |
| Reassembly.EnvelopesKeepFrame | trezarr/translate/engine.py:1359-1379 | the envelope pass keeps the frame |
| Pipeline.TranslateBatches | trezarr/translate/engine.py:1960-2024 | at most (retries + 1) calls a batch, every call starts with the prompt of its batch; on success the stretch of texts at the place of batch b is what an accepted reply to the prompt of batch b holds; it fails exactly when the conversation of the first batch not won used every attempt, and breaks exactly when a call of it raised |
| Pipeline.ReviewDocument | trezarr/translate/engine.py:2066-2168 | one call a review batch; cue by cue, the correction at its own place in what its batch's reply comes to, or the cue as it was; frame kept |
| Pipeline.RepairHints | trezarr/translate/engine.py:1494-1511 | the hint of a repaired cue is looked up at its document position |
| Pipeline.RepairFailingCues | trezarr/translate/engine.py:1395-1586 | at most retries + 1 calls, all starting with the prompt of this repair; on success every failing translatable cue has the text of its own place in the accepted reply and no other cue changed; otherwise nothing was chosen and no call made, every attempt missed, or a call raised |
| Pipeline.GateLoop | trezarr/translate/engine.py:2186-2309 | a document is written if and only if the gate passes the last one shown, and then that one; it is quarantined under the last check exactly if that may not be repaired (kind of check, switch, no cue named, budget spent) or the conversation to repair it used every attempt; it propagates exactly if a call of that conversation raised; at most B + 1 validations and B(R + 1) calls; each document shown after the first is the repair of the one just refused; checks 1, 4 and 5 never quarantine |
| Pipeline.SomethingChosen | trezarr/translate/engine.py:2197-2245 | a refused document that may be repaired always names a cue to repair, so the guard for an empty choice never decides |
| Provenance.WonInPlace | trezarr/translate/engine.py:2018-2024 | the texts of batch b stand, among all texts, where the cues of batch b stand among all translatable cues |
| Provenance.OriginIsThisCue | trezarr/translate/engine.py:2018-2056 | the line an origin names, of a translation, review or repair batch, is the line of this very cue |
| Provenance.TextOrigin | trezarr/translate/engine.py:2018-2285 | in every document the gate sees, the text of a translatable cue is, up to its envelope, the line at that cue's place in the last accepted repair that took it, else in the correction of its review batch, else in the accepted reply to its own batch |
| Pipeline.AttributeDocument | trezarr/translate/engine.py:1843-1866 | whatever the replies hold, every cue gets the entry the reply of its own attribution batch has for its place, with one call a batch; there is no list exactly if a call raised, every earlier one having been answered |
| Pipeline.TranslateWith | trezarr/translate/engine.py:1866-2309 | call budgets and first messages of every pass, a trace of what was accepted that explains every document the gate sees, and how it ends: stuck at a batch, or as the file leaves the gate; written if and only if the gate passed the last document shown |
| FileRun.ResolvePronouns | trezarr/translate/engine.py:1800-1866 | merge, attribution and reconciliation take exactly one episode step on the store, whatever fails; stopped exactly if the merge raised, down exactly if a call of the attribution raised; the hints are looked up in the reconciliation of the file's own attributions |
| FileRun.HintFromOwnAttribution | trezarr/translate/engine.py:1843-1905 | the hint of a line of a translation batch comes from the entry its attribution batch has for that same cue |
| FileRun.EstablishedHint | trezarr/translate/engine.py:1866-1905 | a cue whose own attribution names an established pair is prompted with the stored terms |
| FileRun.TranslateDocument | trezarr/translate/engine.py:1715-2309 | a whole run, for every behaviour of the model and every failure: one episode step or none on the store, call budgets and first messages, hints from each cue's own attribution; each way of ending tied to what caused it; a sidecar written if and only if the gate passed the last document shown, exactly as it was, every text explained by its accepted reply |
| Attribution.ApplyNameMatching | trezarr/translate/attribute.py:168-220 | names off the roster become unknown with low confidence, everything else is kept |
| Attribution.FillMissingIndices | trezarr/translate/attribute.py:223-253 | exactly one entry for each line 1 to n whatever the list held, the last one given or unknown |
| Attribution.AttributeBatch | trezarr/translate/attribute.py:256-337 | one settled entry per cue for every reply, well-formed or not |
| NameLaws.SettledLine | trezarr/translate/attribute.py:156-337 | of the last entry the reply has for a line, the names on the roster are kept, with its confidence if both are and low if not; a line without an entry is nobody with low confidence |
| NameLaws.ResolveIff | trezarr/translate/engine.py:115-126 | a name stands for a character if and only if it is its exact name, trimmed and lowered, or nobody's exact name and the character's alias; of several of one name the last one counts |
| NameLaws.OwnNameWins | trezarr/translate/engine.py:115-126 | two characters whose exact names differ are told apart by them even if one alias covers both |
| NameLaws.KeptNameResolves | trezarr/translate/engine.py:1866-1905 | a name the attribution kept always stands for a character |
| Attribution.BuildHints | trezarr/translate/engine.py:1866-1905 | line i of batch b gets the hint of the entry at its place in the document-wide list, and no other line has one |
| Attribution.HintFromSameCue | trezarr/translate/engine.py:1843-1905 | although the two packings use different caps, for every line of every translation batch the entry used is the one that cue's attribution batch has at its place |
| Attribution.RepairHintAligned | trezarr/translate/engine.py:1500-1503 | the entry found by document position belongs to the repaired cue if and only if no raw cue precedes it |
| BibleTables.ComputeFieldChanges | trezarr/bible/merge.py:49-90 | the loop computes the list of changes |
| BibleTables.ChangesExact | trezarr/bible/merge.py:82-90 | a change is listed exactly if it was proposed, its field is unlocked, and its value differs from the stored one |
| BibleTables.TwoPassMerge | trezarr/bible/store.py:364-411 | computing all changes first and applying them afterwards equals merging field by field |
| BibleTables.Tables.MergeRow | trezarr/bible/store.py:364-411 | the in-place merge produces the specified rows and audit events |
| BibleTables.Tables.MergeInferredInto | trezarr/bible/store.py:1809-1903 | rejected without any write for a missing row or a field off the whitelist, otherwise merged |
| BibleTables.Tables.UpsertAddressPair | trezarr/bible/store.py:704-820 | create or merge one pair in place, logging exactly the changes |
| BibleTables.Tables.UpsertCharacterRow | trezarr/bible/store.py:414-510 | the oldest case-insensitive match is merged, a new name is created, several matches raise |
| BibleTables.Tables.UpsertTermRow | trezarr/bible/store.py:513-701 | term upsert in place with the carry-forward guard |
| BibleTables.Tables.HumanEdit | trezarr/bible/store.py:1063-1142 | a human edit writes through the lock and sets or clears it |
| BibleTables.Tables.HumanEditTermBySource | trezarr/bible/store.py:1257-1373 | edit or create a term by its source text, with its lock |
| BibleTables.Tables.HumanEditPair | trezarr/bible/store.py:1145-1254 | edit a pair and lock or unlock it as a unit |
| BibleTables.Tables.RecordRelationshipEvent | trezarr/bible/store.py:1738-1787 | append an event unless that directed pair has one in that episode |
| BibleStore.MergedValue | trezarr/bible/store.py:394-411 | after proposals each unlocked field has the last value offered and every other field is as before |
| BibleStore.ProposeLogs | trezarr/bible/store.py:364-411 | each event a merge logs is of this row, source and episode, from the value it replaced to another one that was offered, and never of a locked field |
| BibleStore.UpsertPairSafe | trezarr/bible/store.py:760-820 | locks hold, the tables stay valid and the audit log stays sound |
| BibleStore.UpsertCharacterSafe | trezarr/bible/store.py:458-503 | the same for characters |
| BibleStore.UpsertTermSafe | trezarr/bible/store.py:570-701 | locks hold and pairs are untouched for term upserts |
| BibleStore.TermFound | trezarr/bible/store.py:588-597 | an upsert touches the oldest stored term whose source reads the same, or a new one if none does |
| BibleStore.UpsertTermEffect | trezarr/bible/store.py:570-701 | an inference never replaces a rendering that is not blank and does fill a blank unlocked one; any other source replaces an unlocked one; the category follows the offer unless locked; a new term holds what was offered; no other row changes |
| BibleStore.UpsertTermKeepsAudit | trezarr/bible/store.py:570-701 | term upserts keep every audited chain |
| BibleStore.TermChainIff | trezarr/bible/store.py:661-675 | the audit chain of a rendering survives an upsert exactly when no differing inference is suppressed and a new term comes with a rendering |
| BibleStore.MergeInferredSafe | trezarr/bible/store.py:298-411 | locks, validity and audit through inferred merges |
| BibleStore.EditPairEffect | trezarr/bible/store.py:1193-1233 | a pair edit touches no other row and never locks a blank pair |
| BibleStore.EditPairLeaves | trezarr/bible/store.py:1145-1254 | an edit that would lock a blank term is refused; else each term given is stored trimmed, the other stays, both locks are set or both cleared, and nothing else of the row changes |
| BibleStore.EditFieldLeaves | trezarr/bible/store.py:1063-1142 | an edit writes one field through its lock, sets or clears that lock alone, and is logged as a lock or as an import |
| BibleStore.EditTermBySourceEffect | trezarr/bible/store.py:1300-1373 | an edit by source text writes at most one row |
| Analysis.PlanCharacterNameTerms | trezarr/bible/analyze.py:140-249 | the loops compute the plan |
| Analysis.PlanFresh | trezarr/bible/analyze.py:140-249 | planned sources are new to the dictionary and pairwise distinct, and none stands for a locked character |
| AnalysisLaws.LockStepOnlyCreates | trezarr/bible/analyze.py:757-774 | with the dictionary read, the lock-bypassing step only creates rows: every old row is exactly as it was |
| AnalysisLaws.LockStepKeepsIff | trezarr/bible/analyze.py:757-774 | with or without that read, the step keeps every lock if and only if no planned spec selects a row whose rendering is locked with another value |
| AnalysisLaws.LockStepNeedsRead | trezarr/bible/analyze.py:757-774 | without that read one inferred character is enough to overwrite a locked rendering of its name |
| AnalysisLaws.PairStepKeepsIff | trezarr/bible/analyze.py:829-850 | a stored unlocked pair is left alone if and only if it was seen by the read at the start or the inference agrees with it |
| AnalysisLaws.MergeKeepsGood | trezarr/bible/analyze.py:586-935 | a whole merge keeps the tables valid and the log sound, for every analysis and every failing call |
| AnalysisLaws.MergeHoldsLocks | trezarr/bible/analyze.py:586-935 | a whole merge changes no locked field if the dictionary could be read |
| AnalysisLaws.MergeKeepsPairs | trezarr/bible/analyze.py:829-850 | a whole merge changes no stored pair if the Bible could be read |
| AnalysisEffects.CharacterUpserted | trezarr/bible/analyze.py:679-718 | an inferred character is merged into the one stored under its name, added if there is none, and fails if there are several; gender, age and role each go to their own unlocked column |
| AnalysisEffects.RegisterMerged | trezarr/bible/analyze.py:628-648 | the register becomes the one found, trimmed, unless that is blank, the call fails or the field is locked |
| AnalysisEffects.PairMerged | trezarr/bible/analyze.py:788-868 | a pair that was not in the Bible gets its two terms in their places and the marker of the episode, in the row of its speaker and addressee; a known one is offered nothing |
| AnalysisEffects.EventsMerged | trezarr/bible/analyze.py:876-935 | the stored events are those that were and exactly the ones found between two known characters, in the order named, of this episode |
| AnalysisEffects.PlanCovers | trezarr/bible/analyze.py:140-249 | every planned name belongs to a character of the analysis, under its script or else its Latin name, with the rendering the dictionary has, else the inferred one, else the Latin name; and every character is planned, locked, or in the dictionary |
| AnalysisEffects.NamesLocked | trezarr/bible/analyze.py:748-785 | each planned name whose call does not fail gets a row of its own locked to that rendering |
| Renderings.MergeKeepsRenderings | trezarr/bible/analyze.py:586-935 | a whole merge changes no rendering that is not blank, locked or not, if the dictionary could be read |
| AnalysisPass.MergeBibleAnalysis | trezarr/bible/analyze.py:586-935 | the five steps over the live tables, with failing calls, compute the specified state and error |
| Reconcile.ReconcileAttributions | trezarr/translate/reconcile.py:333-607 | visiting the dyads in any order returns the specified map and performs exactly the specified writes, once each |
| ReconcileLaws.AuthorizedIff | trezarr/translate/reconcile.py:260-279 | a transition is authorised for a dyad if and only if events are on, the episode is known and it is the first stored event of this very episode between the two, in either order |
| ReconcileLaws.ConfidentIff | trezarr/translate/reconcile.py:185-209 | a dyad counts as confident if and only if some line attributed to it meets the threshold: high meets all, medium all but "high", low only "low", any other word being read as "medium" |
| ReconcileLaws.DefaultTerms | trezarr/translate/reconcile.py:214-257 | the default of a dyad: the user's pair if there is one, else by the register of the series and the stored gender of the one addressed |
| ReconcileLaws.StoredTerms | trezarr/translate/reconcile.py:421-553 | what a stored dyad is translated with: a locked pair; else what the first event suggests; else its own terms unless one is missing, or empty beside an event; else the default |
| ReconcileLaws.NewDyad | trezarr/translate/reconcile.py:421-553 | a dyad heard for the first time is translated with what its first event suggests, else with the default, and stored with those terms if and only if an event or a confident line vouches for it, dated in the first case alone |
| ReconcileLaws.CoversEveryDyad | trezarr/translate/reconcile.py:415-430 | every observed and every stored dyad is in the map |
| ReconcileLaws.ClosedUnderReciprocity | trezarr/translate/reconcile.py:555-607 | for every kinship pair in the map its reverse is in the map, and a mirrored pair has the exchanged terms |
| ReconcileLaws.MirrorsTouchNoRow | trezarr/translate/reconcile.py:555-607 | reciprocal writes go only to dyads that were neither stored nor observed |
| ReconcileLaws.OrderDoesNotMatter | trezarr/translate/reconcile.py:421-607 | any two orders of the same writes leave the same rows |
| ReconcileLaws.UpsertAllSafe | trezarr/translate/reconcile.py:421-607 | reconciliation holds locks, validity and the audit log |
| ReconcileLaws.StoredRowAfter | trezarr/translate/reconcile.py:415-553 | every column of any stored row after a pass, locked or not, by the guards of the ladder |
| ReconcileLaws.StoredPairMovesIff | trezarr/translate/reconcile.py:260-553 | a stored unlocked pair moves if and only if the first event of this very episode between the two suggests other terms, or suggests none and finds a term missing or empty while the default differs, or there is no such event and a confident line finds a term missing; the marker moves exactly with an event |
| ReconcileLaws.EstablishedMovesIff | trezarr/translate/reconcile.py:260-500 | an established unlocked pair moves if and only if the first event of this very episode between the two suggests other terms |
| ReconcileLaws.EstablishedIsCarried | trezarr/translate/reconcile.py:421-605 | without suggestions an established pair is used as stored and its row does not change |
| Episodes.AuditReplays | trezarr/bible/store.py:394-411 | over any run, replaying the log of a field (first prior value absent, each prior the previous next) gives the stored value |
| Episodes.LocksSurviveRuns | trezarr/bible/store.py:298-411 | over any run without human edits, with the dictionary readable, no locked field changes value and no lock is lost |
| Episodes.PronounsNeverDrift | trezarr/translate/reconcile.py:421-605 | over any run of episodes, API calls and edits of other rows, an established pair keeps terms, marker and locks |
| Episodes.TranslationUsesStoredTerms | trezarr/translate/reconcile.py:421-605 | every episode translates an established pair with its stored terms |
| Renderings.RenderingsNeverDrift | trezarr/bible/store.py:570-701 | over any run, a rendering that is not blank stays, locked or not, as long as no person, import or other source sets that term and each merge could read the dictionary |
| Episodes.StoredPairSurvivesIff | trezarr/translate/reconcile.py:260-553 | over a whole episode a stored unlocked pair keeps its two terms, whatever they are, unless a stored event of this episode between the two finds one missing or empty while the default differs, or, without one, a confident line finds one missing |
| Episodes.BlankedPairRun | trezarr/bible/store.py:1145-1254 | in any Bible, blanking a stored pair by hand and then translating an episode whose analysis finds an event between the two leaves the safe default |
| Episodes.TranslateEpisode | trezarr/translate/engine.py:1800-1860 | merge, reload and reconcile over the live tables run one episode step, keep the store good, and return the stored terms of every established pair |
| WorkerInvariant.InsertTable | trezarr/web/worker.py:252-295 | an admitted enqueue keeps one enqueued row per path and the bound on unfinished rows |
| WorkerRuns.SelectsOwnRow | trezarr/web/worker.py:297-310 | the row an enqueue selects again after its commit is the one it inserted, and there always is one |
| WorkerRuns.RestartRecovers | trezarr/web/worker.py:318-427 | after a crash anywhere and both startup arms, every row that had not ended is queued with its id on the queue exactly once, nothing else is on the queue, and every in_progress ledger row has a job row |
| WorkerRuns.StepKeeps | trezarr/web/worker.py:183-662 | every step keeps the queue invariant |
| WorkerLaws.RunKeeps | trezarr/web/worker.py:183-662 | so does every run |
| WorkerLaws.ChainsEnd | trezarr/web/worker.py:264-288 | in every run the rows of a path not ended in done number at most the largest automatic cap plus the manual and startup enqueues |
| WorkerLaws.OnePerSeries | trezarr/web/worker.py:512-556 | in every run at most one coroutine is inside the lock of a series |
| WorkerLaws.OneActiveIff | trezarr/web/routes/jobs.py:57-85 | at most one active row per path survives a step exactly when the step is not a manual retry beside an active row of that path |
| WorkerLaws.DedupHolds | trezarr/web/worker.py:252-262 | runs without such retries keep at most one active row per path |
| WorkerLaws.RetryBreaksDedup | trezarr/web/routes/jobs.py:57-85 | a run of six steps that leaves two active rows of one path |
| WorkerLaws.StrandedIff | trezarr/web/worker.py:641-656 | short of a crash, an active row loses everything that would move it exactly when its coroutine died without marking it |
| WorkerHistory.EndedIff | trezarr/web/worker.py:558-656 | in every run a row stands done, quarantined or failed if and only if some step ended it so (its own coroutine reported done or skipped, quarantined or an error, or died and was marked failed) and nobody asked to retry it since |
| WorkerHistory.AttemptsCount | trezarr/web/worker.py:495-510 | in every run the attempts of a row are the times it was begun since it was last reset, through crashes and restarts |
| WorkerHistory.TimersScheduled | trezarr/web/worker.py:582-639 | in every run each waiting timer was set, since the process last started, by a transient quarantine of a row of its file and series that had attempts to spare |
| WorkerHistory.QueueInOrder | trezarr/web/worker.py:691-703 | short of a stop or a start the queue only loses its head, to a coroutine that carries that row, or gains one row at its end |
| WorkerDaemon.Daemon.EnqueueTransaction | trezarr/web/worker.py:252-295 | a row is inserted, queued and without attempts, if and only if the path has no queued or running row and, for an automatic trigger with a cap, fewer failed and quarantined rows than the cap; else nothing changes |
| WorkerDaemon.Daemon.EnqueueFlush | trezarr/web/worker.py:297-310 | a queued row of the path and trigger goes to the end of the queue if there is one, and the call ends |
| WorkerDaemon.Daemon.ReconcileInProgress | trezarr/web/worker.py:318-359 | the loops of the first startup arm |
| WorkerDaemon.Daemon.ReconcileFromLedger | trezarr/web/worker.py:365-427 | the loop of the second startup arm |
| WorkerDaemon.Daemon.DispatchOne | trezarr/web/worker.py:691-703 | the head of the queue leaves it, no row changes, and under the queue's invariant only the new coroutine can reach that row from then on |
| WorkerDaemon.Daemon.BeginJob | trezarr/web/worker.py:495-510 | the row runs with one attempt more, no other row changes, and still only this coroutine reaches it |
| WorkerDaemon.Daemon.AskLock | trezarr/web/worker.py:512-516 | the coroutine waits for the lock of its own series, or of all movies: the one that was there, else one that is nobody else's |
| WorkerDaemon.Daemon.EnterSeries | trezarr/web/worker.py:518-552 | whoever enters the region that processes an item is alone in its series |
| WorkerDaemon.Daemon.LeaveSeries | trezarr/web/worker.py:518-556 | leaving it frees the lock and leaves nobody inside the series |
| WorkerDaemon.Daemon.FinishJob | trezarr/web/worker.py:558-639 | done exactly for done and skipped items, quarantined exactly for quarantined ones, failed exactly for errors; path, series, attempts and every other row kept; one timer for the same file and series exactly for a transient quarantine with attempts to spare |
| Blocks.SplitWeaves | trezarr/subtitles/srt.py:106-115 | splitting at blank-line runs loses nothing |
| Blocks.InnerBlocksFull | trezarr/subtitles/srt.py:106-115 | separators never touch, so only the first and the last block can be empty |
| BlockCuts.CutIff | trezarr/subtitles/srt.py:106-115 | blocks and separators are the cut of the text they make up if and only if each separator is one, none begins inside a block, and no block after the first begins with a blank line |
| Srt.ReadSrt | trezarr/subtitles/srt.py:63-152 | the reader's loops compute the specified document |
| Srt.WriteSrt | trezarr/subtitles/srt.py:218-248 | the writer's loop computes the specified text |
| SrtCues.ParseTimesIff | trezarr/subtitles/srt.py:46-50 | a timing line is split if and only if it is two timecodes (two digits each of hours, minutes and seconds, a comma or period, more digits) with an arrow and any white space between them, and into those two |
| SrtCues.BlockReads | trezarr/subtitles/srt.py:155-215 | a block put together from an index, two times and a text, with white space about them and a break after each header line, is read with exactly that index and those times; its text is cut free if and only if both breaks are the line ending of the block, else the block is kept whole |
| SrtLaws.StructureWhole | trezarr/subtitles/srt.py:96-140 | leading blank lines, blocks, separators and trailer always make up the file |
| SrtRoundTrip.BlockRendered | trezarr/subtitles/srt.py:155-262 | a block is rendered back exactly if it is canonical, and otherwise differs from its rendering at some character |
| SrtRoundTrip.WriteReadIff | trezarr/subtitles/srt.py:63-262 | write after read is the identity if and only if every block is canonical and the file is not white space that starts with blank lines and goes on |
| SrtRoundTrip.GapExample | trezarr/subtitles/srt.py:142-145 | two newlines and a space do not come back |
| Vtt.ReadVtt | trezarr/subtitles/vtt.py:116-177 | the reader's loops compute the specified document |
| Vtt.WriteVtt | trezarr/subtitles/vtt.py:180-223 | the writer's loop computes the specified text |
| Vtt.ExtractPayload | trezarr/subtitles/vtt.py:322-364 | the position arithmetic of the payload |
| VttCues.SplitTimesIff | trezarr/subtitles/vtt.py:64-69 | a timing line is split if and only if it has the shape word, arrow with any white space around it, word; and of all the ways to see that shape it takes the one with the longest start |
| VttCues.BlockReads | trezarr/subtitles/vtt.py:236-319 | a block put together from an optional identifier line, start, white space, arrow, white space, end, settings, a line ending and a text is a cue with exactly that start, end and text, its identifier and timing line kept |
| VttCues.OpaqueReads | trezarr/subtitles/vtt.py:236-293 | a block that starts with a keyword, or has no arrow, is no cue |
| VttLens.FileReads | trezarr/subtitles/vtt.py:116-177 | a file put together from a header, such blocks and separators, cut at those separators, reads as exactly the cues of its blocks, in order |
| VttLaws.BlockRendered | trezarr/subtitles/vtt.py:205-223 | writing a cue block back never shortens it, and reproduces it if and only if every header line is followed, inside the block, by the file's line ending |
| VttLaws.WriteReadIff | trezarr/subtitles/vtt.py:116-364 | write after read is the identity if and only if in every cue block every header line is followed, inside the block, by the file's line ending |
| VttLens.TextsComeBack | trezarr/subtitles/vtt.py:116-223 | in a file that is written as it was read, replaced texts that open no separator early are written and read back exactly, with everything else unchanged |
| VttLens.ReplaceIff | trezarr/subtitles/vtt.py:116-223 | such a document with replaced texts is written and read back as the very same document if and only if no separator begins early in a cue block and the text written has the line ending of the file |
| AssCodec.ParseEventsSection | trezarr/subtitles/ass.py:227-409 | the line loop computes the specified segments and cues, and fails where a Dialogue line meets a two-field Format |
| AssCodec.ReadAss | trezarr/subtitles/ass.py:95-185 | the reader's loops compute the specified document |
| AssCodec.WriteAss | trezarr/subtitles/ass.py:188-220 | the writer's loop computes the specified text |
| AssCues.EventsAtIff | trezarr/subtitles/ass.py:126-163 | the section of events is the first piece that opens with its title, only white space between that and the end of its first line |
| AssCues.SpecialIff | trezarr/subtitles/ass.py:48-55 | a text is kept from translation if and only if a karaoke or drawing tag stands in it somewhere |
| AssCues.ForceIs | trezarr/subtitles/ass.py:267-285 | the last Format line of two names or more says how many fields a Dialogue line has |
| AssCues.DialogueReads | trezarr/subtitles/ass.py:303-409 | a Dialogue line put together from comma-free fields and a text is a slot with those fields as its prefix, and a cue with exactly its second and third field, white space taken off, as times and exactly that text |
| AssCues.ShortReads | trezarr/subtitles/ass.py:329-372 | a Dialogue line of too few commas is kept whole |
| AssCues.FileReads | trezarr/subtitles/ass.py:95-185 | in a whole file put together from sections and lines, the document has at the place of such a line its slot, and as the cue of that slot, numbered by the Dialogue lines before it, exactly its times and its text |
| AssCues.RestVerbatim | trezarr/subtitles/ass.py:95-185 | every other line of the events, and every other section, is kept verbatim at its place |
| AssRoundTrip.WriteAfterRead | trezarr/subtitles/ass.py:118-220 | write after read is the identity on every text that can be read |
| AssRoundTrip.ReadsIff | trezarr/subtitles/ass.py:272-409 | an Events section is read if and only if no Dialogue line with a comma stands under a Format of exactly two fields |
| AssRoundTrip.ReadFailsIff | trezarr/subtitles/ass.py:95-185 | reading a file raises exactly if its first Events section holds such a line |
| AssLens.LineReplaced | trezarr/subtitles/ass.py:329-388 | a Dialogue line with another break-free text is read as the same slot with that text |
| AssLensLaws.LensOne | trezarr/subtitles/ass.py:118-220 | replacing one text in a closed slot, writing and reading gives the same document with that text |
| AssLensLaws.OpenEndsInBreak | trezarr/subtitles/ass.py:246-266 | in a document that was read, a slot without a recognised ending that is not last has its break at the end of its text |
| AssLensLaws.LensIff | trezarr/subtitles/ass.py:118-220 | replacing any texts by break-free ones, writing and reading gives exactly those texts and everything else unchanged, if and only if every replaced slot ended in a recognised break or ended the file |
| AssWitness.ExoticBreakLost | trezarr/subtitles/ass.py:246-266 | a four-line file on which the replacement is lost |
| Eligibility.DecisionsAgree | trezarr/discover/gap.py:105-162 | the gap detector and the entry checks decide alike in every state with a readable source |
| Eligibility.NeverClobbers | trezarr/translate/engine.py:1660-1713 | a file that existed before the ledger knew any source of its name is never overwritten over any runs while it stays on disk |
| Eligibility.OverwritesIff | trezarr/translate/engine.py:1660-1713 | exactly when a run overwrites an existing sidecar |
| Eligibility.RetryClobbers | trezarr/translate/engine.py:1660-1713 | a failed attempt, then a foreign sidecar, then a retry: the foreign file is overwritten |
| Eligibility.LedgerTells | trezarr/translate/engine.py:1660-1713 | in every run from an empty ledger a source has an entry if and only if it was attempted, and the entry is what its last attempt left: a failure claims no sidecar, any other ending claims its own |
| Eligibility.ClaimedIff | trezarr/output/ledger.py:181-201 | in every such run a sidecar is claimed if and only if it is the sidecar of a source whose last attempt did not fail |
| Eligibility.RicherIff | trezarr/translate/engine.py:1660-1683 | in every such run a source without an entry whose sidecar exists gets past the checks if and only if another source's last attempt with that sidecar did not fail |
| Eligibility.FailuresDisclaim | trezarr/translate/engine.py:1660-1683 | a sidecar on disk while every entry that maps to it is quarantined is never touched by a run on a source without an entry |
| Eligibility.SecondSourceSkips | trezarr/translate/engine.py:1660-1683 | a failed source, a foreign sidecar, then a second source of that name: the foreign file stays |
| Eligibility.DoneStaysDone | trezarr/discover/gap.py:127-143 | a finished source is never entered or listed again while its content and its sidecar stay, so sources sharing a sidecar cannot take turns |
| Eligibility.Ledger.CheckByOutputPath | trezarr/output/ledger.py:181-201 | the first entry in insertion order with that output, none exactly if no entry claims it |
| Eligibility.Ledger.Record | trezarr/output/ledger.py:203-227 | insert or replace by source path, insertion order kept |
| Eligibility.Translator.IsEligible | trezarr/discover/gap.py:105-162 | the decision over the live ledger and disk |
| Eligibility.Translator.TranslateFile | trezarr/translate/engine.py:1660-1713 | entry checks, in_progress record and final record over the live ledger and disk |

## Left out

- FileRun.TranslateDocument: batches run one after another; the source runs them in groups, concurrently, and cancels siblings, which the arbitrary replies cover batch by batch but not the order of calls between batches.
- Conversation.TranslateBatch: prompt wording, model overrides and metrics; the correction text is a function of the defect.
- Gate.ValidateSubdoc: the Vietnamese, CJK, credit, honorific and gloss patterns are arbitrary predicates per cue; the ratio of check 3 is compared in exact arithmetic where the source uses floating point; timecode parsing is a given function.
- NumberedLines.ParseNumberedResponse: the interpreter's limit on the number of digits of an integer, which raises another error; decimal digits are those of Unicode 15.
- Batching.BatchSubdoc: the character budget is a setting; the source derives it from token and window settings.
- BibleTables.Tables.UpsertCharacterRow: names are looked up by trimmed keys and stored as given, as in the source; the laws about created names assume trimmed ones.
- Episodes.PronounsNeverDrift: the analysis, the merge and the reconciliation of one episode are not interleaved with other writers; the source holds the series lock across them. The premise that the merge could read the Bible is needed, as PairStepKeepsIff shows.
- Episodes.AuditReplays: not for term renderings, for which TermChainIff gives the exact condition.
- Worker steps: transactions are atomic and serialised; an exception after the last commit of a job may mark a finished job failed; job logs and the media snapshot are not modelled; no caller passes the manual-retry trigger to an enqueue.
- WorkerLaws.OnePerSeries: an edit waits for its lock in one step with taking it.
- Eligibility.NeverClobbers: the disk changes only between runs, and a content stands for its own hash.
- Eligibility.Ledger.CheckByOutputPath: the database ledger raises when two sources share an output; this is the file ledger's first match.
- Srt.ReadSrt, Vtt.ReadVtt and AssCodec.ReadAss: encoding detection and byte decoding; the laws are on decoded text.
- Attribution prompts and response models: a reply is read as a list of any shape or as unusable; a client in plain-text mode, which skips the calls and takes every line as unknown, is the same as unusable replies except for the calls.
- The chunked analysis of long files before the merge, title canonicalisation and the seeded prompts.
- delete_address_pair, delete_term and dedup_canonical_name_terms.
- Persistence and recovery of the ledger file, quarantine artifacts, the web frontend, settings, schedulers and path mapping.
