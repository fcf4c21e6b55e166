/** Talking to the model: an oracle that may say anything or fail, and the bounded correction loop
    that gets one valid batch out of it or gives up. */
module Conversation {
  import opened Options
  import opened Subtitles
  import Sentinel
  import N = NumberedLines
  import opened Attribution

  datatype Message = User(text: string) | Assistant(text: string)

  /** A call returns some text, or raises. */
  datatype Reply = Said(text: string) | Raises

  /** The model: any reply to any call, and the calls made so far. */
  class Llm {
    const replies: nat -> Reply
    var calls: seq<seq<Message>>

    constructor (replies: nat -> Reply)
      ensures this.replies == replies && calls == []
    {
      this.replies, calls := replies, [];
    }

    method Call(messages: seq<Message>) returns (r: Reply)
      modifies this
      ensures calls == old(calls) + [messages] && r == replies(|old(calls)|)
    {
      r := replies(|calls|);
      calls := calls + [messages];
    }
  }

  datatype Defect = Structure(why: N.Failure) | LostToken(cue: nat)

  /** Prompt wording and the parser of structured attribution replies are outside the model. */
  datatype Prompts = Prompts(
    attribute: (seq<SubLine>, seq<SubLine>, seq<SubLine>) -> string,
    entries: string -> Attribution.Reply,
    translate: (seq<string>, seq<SubLine>, seq<SubLine>, Option<map<nat, Terms>>, Option<nat>) -> string,
    review: seq<string> -> string,
    correction: (Defect, nat) -> string,
    scaffold: string -> bool)

  // ---- one reply -------------------------------------------------------------------------

  datatype Attempt = Good(texts: seq<string>) | Bad(defect: Defect)

  /** The batch texts with their tags replaced by tokens, and the sentinel map of each. */
  datatype Prepared = Prepared(cleaned: seq<string>, maps: seq<seq<Sentinel.Entry>>)

  function Prepare(cues: seq<SubLine>): (p: Prepared)
    ensures |p.cleaned| == |p.maps| == |cues|
  {
    Prepared(seq(|cues|, k requires 0 <= k < |cues| => Sentinel.Clean(cues[k].text, 0)),
             seq(|cues|, k requires 0 <= k < |cues| => Sentinel.Keyed(Sentinel.Tags(cues[k].text), 0)))
  }

  /** Only cues that span lines may have continuation lines. */
  function Multiline(cleaned: seq<string>): set<nat>
  {
    set i: nat | i < |cleaned| && '\n' in cleaned[i] :: i + 1
  }

  /** Tags put back cue by cue; the first cue that lost one fails the batch. */
  function ReinsertAll(texts: seq<string>, maps: seq<seq<Sentinel.Entry>>): (r: Attempt)
    requires |texts| == |maps|
    ensures r.Good? ==> |r.texts| == |texts|
  {
    if |texts| == 0 then Good([])
    else
      var n := |texts| - 1;
      var front := ReinsertAll(texts[..n], maps[..n]);
      if front.Bad? then front
      else
        var (text, ok) := Sentinel.Reinsert(texts[n], maps[n]);
        if ok then Good(front.texts + [text]) else Bad(LostToken(n))
  }

  function Judge(p: Prepared, raw: string): (r: Attempt)
    requires |p.cleaned| == |p.maps|
    ensures r.Good? ==> |r.texts| == |p.cleaned|
  {
    var parsed := N.Read(raw, |p.cleaned|, Some(Multiline(p.cleaned)));
    if parsed.Rejected? then Bad(Structure(parsed.why))
    else ReinsertAll(parsed.texts, p.maps)
  }

  // ---- the correction loop ---------------------------------------------------------------

  /** The messages of attempt `i`: the prompt, then every bad reply with its correction turn. */
  function Thread(prompt: string, p: Prepared, prompts: Prompts, replies: nat -> Reply, start: nat, i: nat): (m: seq<Message>)
    requires |p.cleaned| == |p.maps|
    ensures |m| == 2 * i + 1 && m[0] == User(prompt)
  {
    if i == 0 then [User(prompt)]
    else
      var r := replies(start + i - 1);
      var raw := if r.Said? then r.text else [];
      var judged := Judge(p, raw);
      var defect := if judged.Bad? then judged.defect else LostToken(0);
      Thread(prompt, p, prompts, replies, start, i - 1)
        + [Assistant(raw), User(prompts.correction(defect, |p.cleaned|))]
  }

  /** Attempt `i` got a reply that is no valid batch. */
  predicate Misses(p: Prepared, replies: nat -> Reply, k: nat)
    requires |p.cleaned| == |p.maps|
  {
    replies(k).Said? && Judge(p, replies(k).text).Bad?
  }

  datatype BatchResult = Texts(texts: seq<string>) | Invalid(defect: Defect) | Raised

  /** A batch conversation that began at call `start` and took `count` calls: all but the last reply
      missed, and the last one decides. */
  ghost predicate Concluded(r: BatchResult, p: Prepared, replies: nat -> Reply, start: nat, count: nat, attempts: nat)
    requires |p.cleaned| == |p.maps|
  {
    && 1 <= count <= attempts
    && (forall k :: start <= k < start + count - 1 ==> Misses(p, replies, k))
    && match replies(start + count - 1)
       case Raises => r == Raised
       case Said(raw) =>
         match Judge(p, raw)
         case Good(texts) => r == Texts(texts)
         case Bad(defect) => count == attempts && r == Invalid(defect)
  }

  /** The calls a batch conversation made. */
  ghost predicate Recorded(calls: seq<seq<Message>>, prompt: string, p: Prepared, prompts: Prompts, replies: nat -> Reply,
                           start: nat, count: nat)
    requires |p.cleaned| == |p.maps|
  {
    && |calls| == start + count
    && forall k :: start <= k < start + count ==> calls[k] == Thread(prompt, p, prompts, replies, start, k - start)
  }

  /** A conversation that began at call `start` used every attempt it had, and every reply missed. */
  ghost predicate Exhausted(cues: seq<SubLine>, prompt: string, calls: seq<seq<Message>>, prompts: Prompts,
                            replies: nat -> Reply, start: nat, retries: nat)
  {
    && |calls| == start + retries + 1
    && (forall k :: start <= k < |calls| ==> Misses(Prepare(cues), replies, k))
    && Recorded(calls, prompt, Prepare(cues), prompts, replies, start, retries + 1)
  }

  /** A conversation that began at call `start` ended in a call that raised. */
  ghost predicate Interrupted(cues: seq<SubLine>, prompt: string, calls: seq<seq<Message>>, prompts: Prompts,
                              replies: nat -> Reply, start: nat, retries: nat)
  {
    && start < |calls| <= start + retries + 1 && replies(|calls| - 1).Raises?
    && (forall k :: start <= k < |calls| - 1 ==> Misses(Prepare(cues), replies, k))
    && Recorded(calls, prompt, Prepare(cues), prompts, replies, start, |calls| - start)
  }

  /** A conversation without texts was exhausted or interrupted. */
  lemma NoTexts(r: BatchResult, cues: seq<SubLine>, prompt: string, calls: seq<seq<Message>>, prompts: Prompts,
                replies: nat -> Reply, start: nat, retries: nat)
    requires start <= |calls| && Concluded(r, Prepare(cues), replies, start, |calls| - start, retries + 1)
    requires Recorded(calls, prompt, Prepare(cues), prompts, replies, start, |calls| - start)
    ensures r.Invalid? <==> Exhausted(cues, prompt, calls, prompts, replies, start, retries)
    ensures r.Raised? <==> Interrupted(cues, prompt, calls, prompts, replies, start, retries)
  {
    hide Judge, Recorded, Prepare;
    var p, last := Prepare(cues), |calls| - 1;
    assert r.Invalid? <==> Misses(p, replies, last);
  }

  /** One batch: at most `retries` + 1 calls, each carrying the original prompt as its first message
      and every earlier bad reply with its correction; the first valid reply wins. */
  method TranslateBatch(cues: seq<SubLine>, prompt: string, llm: Llm, prompts: Prompts, retries: nat)
    returns (r: BatchResult)
    modifies llm
    ensures var start := |old(llm.calls)|;
            && old(llm.calls) <= llm.calls
            && Concluded(r, Prepare(cues), llm.replies, start, |llm.calls| - start, retries + 1)
            && Recorded(llm.calls, prompt, Prepare(cues), prompts, llm.replies, start, |llm.calls| - start)
    ensures r.Texts? ==> |r.texts| == |cues|
  {
    hide Judge;
    var p := Prepare(cues);
    var messages := [User(prompt)];
    var attempts := retries + 1;
    ghost var start := |llm.calls|;
    var attempt := 0;
    while true
      invariant 0 <= attempt < attempts
      invariant old(llm.calls) <= llm.calls && Recorded(llm.calls, prompt, p, prompts, llm.replies, start, attempt)
      invariant messages == Thread(prompt, p, prompts, llm.replies, start, attempt)
      invariant forall k :: start <= k < start + attempt ==> Misses(p, llm.replies, k)
      decreases attempts - attempt
    {
      var reply := llm.Call(messages);
      assert llm.replies(start + attempt) == reply;
      assert llm.calls[start + attempt] == messages;
      if reply.Raises? {
        return Raised;
      }
      var judged := Judge(p, reply.text);
      if judged.Good? {
        return Texts(judged.texts);
      }
      if attempt == attempts - 1 {
        return Invalid(judged.defect);
      }
      assert Misses(p, llm.replies, start + attempt);
      messages := messages + [Assistant(reply.text)];
      messages := messages + [User(prompts.correction(judged.defect, |cues|))];
      attempt := attempt + 1;
    }
  }

  /** Whatever the model says, a batch conversation never alters its first message, and grows by two
      messages a turn. */
  lemma FirstMessageStays(calls: seq<seq<Message>>, prompt: string, p: Prepared, prompts: Prompts, replies: nat -> Reply,
                          start: nat, count: nat)
    requires |p.cleaned| == |p.maps| && Recorded(calls, prompt, p, prompts, replies, start, count)
    ensures forall k :: start <= k < start + count ==> |calls[k]| == 2 * (k - start) + 1 && calls[k][0] == User(prompt)
    ensures forall k :: start <= k < start + count - 1 ==> calls[k] <= calls[k + 1]
  {
    forall k | start <= k < start + count
      ensures |calls[k]| == 2 * (k - start) + 1 && calls[k][0] == User(prompt)
      ensures k < start + count - 1 ==> calls[k] <= calls[k + 1]
    {
      assert calls[k] == Thread(prompt, p, prompts, replies, start, k - start);
      if k < start + count - 1 {
        assert calls[k + 1] == Thread(prompt, p, prompts, replies, start, k + 1 - start);
      }
    }
  }

  /** A text that was accepted carries no token. */
  lemma {:induction false} AcceptedHasNoToken(texts: seq<string>, maps: seq<seq<Sentinel.Entry>>, k: nat)
    requires |texts| == |maps| && ReinsertAll(texts, maps).Good? && k < |texts|
    ensures !Sentinel.HasToken(ReinsertAll(texts, maps).texts[k])
  {
    hide Sentinel.HasToken, Sentinel.Restore, Sentinel.Unorphaned;
    var n := |texts| - 1;
    if k < n {
      AcceptedHasNoToken(texts[..n], maps[..n], k);
    }
  }

  // ---- review ----------------------------------------------------------------------------

  /** What a review reply changes a batch to; `None` where the pass keeps the batch as it is. */
  function Reviewed(p: Prepared, reply: Reply, scaffold: string -> bool): (r: Option<seq<string>>)
    requires |p.cleaned| == |p.maps|
    ensures r.Some? ==> |r.value| == |p.cleaned|
  {
    if reply.Raises? then None
    else
      var parsed := N.Read(reply.text, |p.cleaned|, Some(Multiline(p.cleaned)));
      if parsed.Rejected? then None
      else
        var kept := seq(|p.cleaned|, k requires 0 <= k < |p.cleaned| =>
          if scaffold(parsed.texts[k]) then p.cleaned[k] else parsed.texts[k]);
        var r := ReinsertAll(kept, p.maps);
        if r.Good? then Some(r.texts) else None
  }

  /** One review batch is one call, and never fails the file. */
  method ReviewBatch(cues: seq<SubLine>, llm: Llm, prompts: Prompts) returns (r: Option<seq<string>>)
    modifies llm
    ensures var p := Prepare(cues);
            && llm.calls == old(llm.calls) + [[User(prompts.review(p.cleaned))]]
            && r == Reviewed(p, llm.replies(|old(llm.calls)|), prompts.scaffold)
  {
    var p := Prepare(cues);
    var reply := llm.Call([User(prompts.review(p.cleaned))]);
    r := Reviewed(p, reply, prompts.scaffold);
  }
}
