/** The usual optional value. */
module Options {
  datatype Option<+T> = None | Some(value: T)
}

/** The format-agnostic cue model every other module shares. */
module Subtitles {

  import opened Options

  /** One timed block of text.  `raw` set means the codec re-emits that string verbatim and no
      pass of the pipeline may touch the cue. */
  datatype SubLine = SubLine(index: string, startTc: string, endTc: string, text: string, raw: Option<string>)

  /** One stretch of an ASS file: verbatim text, or the slot of a Dialogue line's Text field. */
  datatype AssSegment =
    | AssOpaque(raw: string)
    | AssSlot(prefix: string, lineEnding: string, subIndex: nat)

  /** One block of a VTT file with the blank-line run that follows it. */
  datatype VttBlock =
    | VttOpaque(raw: string, trailingSep: string)
    | VttCue(identifier: Option<string>, timing: string, subIndex: nat, trailingSep: string)

  /** What a codec keeps besides the cues; the pipeline carries it along unread. */
  datatype Envelope = NoEnvelope | AssDoc(segments: seq<AssSegment>) | VttDoc(blocks: seq<VttBlock>)

  datatype SubDoc = SubDoc(
    lines: seq<SubLine>,
    lineEnding: string,
    separators: seq<string>,
    leading: string,
    trailer: string,
    envelope: Envelope)

  /** The cues the model is asked about, in document order. */
  function NonRaw(lines: seq<SubLine>): (r: seq<SubLine>)
    ensures |r| <= |lines|
    ensures forall l :: l in r ==> l.raw.None? && l in lines
  {
    if |lines| == 0 then [] else
      var front := NonRaw(lines[..|lines| - 1]);
      if lines[|lines| - 1].raw.None? then front + [lines[|lines| - 1]] else front
  }

  /** How many cues of the first `i` are translatable: the index a non-raw cue at position `i`
      has among the non-raw cues. */
  function Rank(lines: seq<SubLine>, i: nat): (r: nat)
    requires i <= |lines|
    ensures r <= i
  {
    |NonRaw(lines[..i])|
  }

  lemma RankStep(lines: seq<SubLine>, i: nat)
    requires i < |lines|
    ensures Rank(lines, i + 1) == Rank(lines, i) + (if lines[i].raw.None? then 1 else 0)
    ensures NonRaw(lines[..i + 1]) == NonRaw(lines[..i]) + (if lines[i].raw.None? then [lines[i]] else [])
  {
    assert lines[..i + 1][..i] == lines[..i];
  }

  /** The non-raw cues of a prefix are a prefix of the non-raw cues. */
  lemma {:induction false} NonRawPrefix(lines: seq<SubLine>, i: nat)
    requires i <= |lines|
    ensures Rank(lines, i) <= |NonRaw(lines)|
    ensures NonRaw(lines)[..Rank(lines, i)] == NonRaw(lines[..i])
    decreases |lines| - i
  {
    if i == |lines| {
      assert lines[..i] == lines;
    } else {
      RankStep(lines, i);
      NonRawPrefix(lines, i + 1);
      assert NonRaw(lines)[..Rank(lines, i)] == NonRaw(lines)[..Rank(lines, i + 1)][..Rank(lines, i)];
    }
  }

  /** A translatable cue sits at its rank among the translatable cues. */
  lemma NonRawAt(lines: seq<SubLine>, i: nat)
    requires i < |lines| && lines[i].raw.None?
    ensures Rank(lines, i) < |NonRaw(lines)| && NonRaw(lines)[Rank(lines, i)] == lines[i]
  {
    RankStep(lines, i);
    NonRawPrefix(lines, i + 1);
    assert NonRaw(lines)[Rank(lines, i)] == NonRaw(lines)[..Rank(lines, i + 1)][Rank(lines, i)];
  }

  lemma {:induction false} RankMonotone(lines: seq<SubLine>, i: nat, j: nat)
    requires i <= j <= |lines|
    ensures Rank(lines, i) <= Rank(lines, j) <= Rank(lines, i) + (j - i)
    decreases j - i
  {
    if i < j {
      RankStep(lines, j - 1);
      RankMonotone(lines, i, j - 1);
    }
  }

  /** `flat` is the concatenation of `parts`. */
  function Flatten<T>(parts: seq<seq<T>>): seq<T>
  {
    if |parts| == 0 then [] else Flatten(parts[..|parts| - 1]) + parts[|parts| - 1]
  }

  lemma FlattenAppend<T>(parts: seq<seq<T>>, last: seq<T>)
    ensures Flatten(parts + [last]) == Flatten(parts) + last
  {
    assert (parts + [last])[..|parts|] == parts;
  }

  lemma {:induction false} FlattenCons<T>(first: seq<T>, rest: seq<seq<T>>)
    ensures Flatten([first] + rest) == first + Flatten(rest)
  {
    if |rest| == 0 {
      assert ([first] + rest)[..0] == [];
      assert [first] + rest == [first];
    } else {
      var n := |rest| - 1;
      assert ([first] + rest)[..|[first] + rest| - 1] == [first] + rest[..n];
      FlattenCons(first, rest[..n]);
    }
  }
}
