/** Speaker/addressee attribution of cues, and the pronoun hints derived from it. */
module Attribution {
  import opened Options
  import opened Text
  import opened Subtitles
  import opened BibleStore

  datatype Confidence = High | Medium | Low

  /** `lineIndex` is 1-based within the batch the model was asked about. */
  datatype LineAttribution = LineAttribution(lineIndex: int, speaker: Option<string>, addressee: Option<string>,
                                             confidence: Confidence)

  type Terms = (string, string)

  // ---- resolving names to characters -----------------------------------------------------

  /** Exact-keyed index over the roster; a later character with the same key wins. */
  function NameIndex(names: seq<string>, lower: string -> string): map<string, nat>
  {
    if |names| == 0 then map[] else
      NameIndex(names[..|names| - 1], lower)[lower(Strip(names[|names| - 1])) := |names|]
  }

  /** Exact name first, honorific-stripped alias as a fallback. */
  function ResolveCharId(index: map<string, nat>, rules: NameRules, name: Option<string>): Option<nat>
  {
    if name.None? || name.value == [] then None
    else if rules.lower(Strip(name.value)) in index then Some(index[rules.lower(Strip(name.value))])
    else if rules.alias(name.value) in index then Some(index[rules.alias(name.value)])
    else None
  }

  function PairOf(index: map<string, nat>, rules: NameRules, attr: LineAttribution): (r: Option<EntityId>)
    ensures r.Some? ==> r.value.Pair?
  {
    var speaker := ResolveCharId(index, rules, attr.speaker);
    var addressee := ResolveCharId(index, rules, attr.addressee);
    if speaker.Some? && addressee.Some? then Some(Pair(speaker.value, addressee.value)) else None
  }

  /** The names an attribution may use. */
  function Roster(names: seq<string>, lower: string -> string): set<string>
  {
    set i | 0 <= i < |names| :: lower(Strip(names[i]))
  }

  // ---- repairing what the model answered -------------------------------------------------

  function Unknown(i: int): LineAttribution { LineAttribution(i, None, None, Low) }

  /** A name off the roster becomes unknown, and the line's confidence drops to low. */
  function MatchNames(attr: LineAttribution, known: set<string>, lower: string -> string): LineAttribution
  {
    var badSpeaker := attr.speaker.Some? && lower(Strip(attr.speaker.value)) !in known;
    var badAddressee := attr.addressee.Some? && lower(Strip(attr.addressee.value)) !in known;
    LineAttribution(attr.lineIndex,
                    if badSpeaker then None else attr.speaker,
                    if badAddressee then None else attr.addressee,
                    if badSpeaker || badAddressee then Low else attr.confidence)
  }

  /** The last entry for line `i`, or unknown. */
  function EntryFor(attrs: seq<LineAttribution>, i: int): (r: LineAttribution)
    ensures r.lineIndex == i
  {
    if |attrs| == 0 then Unknown(i)
    else if attrs[|attrs| - 1].lineIndex == i then attrs[|attrs| - 1]
    else EntryFor(attrs[..|attrs| - 1], i)
  }

  method ApplyNameMatching(attrs: seq<LineAttribution>, known: set<string>, lower: string -> string)
    returns (result: seq<LineAttribution>)
    ensures |result| == |attrs|
    ensures forall k :: 0 <= k < |attrs| ==> result[k] == MatchNames(attrs[k], known, lower)
  {
    result := [];
    for i := 0 to |attrs|
      invariant |result| == i
      invariant forall k :: 0 <= k < i ==> result[k] == MatchNames(attrs[k], known, lower)
    {
      var speaker, addressee, confidence := attrs[i].speaker, attrs[i].addressee, attrs[i].confidence;
      if speaker.Some? && lower(Strip(speaker.value)) !in known {
        speaker, confidence := None, Low;
      }
      if addressee.Some? && lower(Strip(addressee.value)) !in known {
        addressee, confidence := None, Low;
      }
      result := result + [LineAttribution(attrs[i].lineIndex, speaker, addressee, confidence)];
    }
  }

  /** Exactly one entry per line 1..n, whatever the list held. */
  method FillMissingIndices(attrs: seq<LineAttribution>, batchSize: nat) returns (result: seq<LineAttribution>)
    ensures |result| == batchSize
    ensures forall k :: 0 <= k < batchSize ==> result[k] == EntryFor(attrs, k + 1)
  {
    var byIndex: map<int, LineAttribution> := map[];
    for i := 0 to |attrs|
      invariant forall n :: n in byIndex ==> byIndex[n] == EntryFor(attrs[..i], n)
      invariant forall n :: n !in byIndex ==> EntryFor(attrs[..i], n) == Unknown(n)
    {
      assert attrs[..i + 1][..i] == attrs[..i];
      byIndex := byIndex[attrs[i].lineIndex := attrs[i]];
    }
    assert attrs[..|attrs|] == attrs;
    result := [];
    for i := 1 to batchSize + 1
      invariant |result| == i - 1
      invariant forall k :: 0 <= k < i - 1 ==> result[k] == EntryFor(attrs, k + 1)
    {
      if i in byIndex {
        result := result + [byIndex[i]];
      } else {
        result := result + [Unknown(i)];
      }
    }
  }

  /** The model's reply to one attribution batch: a list of any shape, or nothing usable. */
  datatype Reply = Entries(attrs: seq<LineAttribution>) | Unusable

  /** What a batch of `n` cues ends up with for its line `k + 1`. */
  function Settled(reply: Reply, k: nat, known: set<string>, lower: string -> string): LineAttribution
  {
    match reply
    case Unusable => Unknown(k + 1)
    case Entries(attrs) => EntryFor(seq(|attrs|, j requires 0 <= j < |attrs| => MatchNames(attrs[j], known, lower)), k + 1)
  }

  method AttributeBatch(batchSize: nat, reply: Reply, known: set<string>, lower: string -> string)
    returns (result: seq<LineAttribution>)
    ensures |result| == batchSize
    ensures forall k :: 0 <= k < batchSize ==> result[k] == Settled(reply, k, known, lower)
  {
    match reply
    case Unusable =>
      result := [];
      for i := 1 to batchSize + 1
        invariant |result| == i - 1
        invariant forall k :: 0 <= k < i - 1 ==> result[k] == Unknown(k + 1)
      {
        result := result + [Unknown(i)];
      }
    case Entries(attrs) =>
      var matched := ApplyNameMatching(attrs, known, lower);
      assert matched == seq(|attrs|, j requires 0 <= j < |attrs| => MatchNames(attrs[j], known, lower));
      result := FillMissingIndices(matched, batchSize);
  }

  // ---- hints -----------------------------------------------------------------------------

  function HintOf(index: map<string, nat>, rules: NameRules, resolved: map<EntityId, Terms>, attr: LineAttribution): Option<Terms>
  {
    var pair := PairOf(index, rules, attr);
    if pair.Some? && pair.value in resolved then Some(resolved[pair.value]) else None
  }

  function HintAt(hints: Option<map<nat, Terms>>, i: nat): Option<Terms>
  {
    if hints.Some? && i in hints.value then Some(hints.value[i]) else None
  }

  /** Where batch `b` starts in the concatenation of `parts`. */
  function Offset<T>(parts: seq<seq<T>>, b: nat): (r: nat)
    requires b <= |parts|
  {
    |Flatten(parts[..b])|
  }

  lemma {:induction false} FlattenAt<T>(parts: seq<seq<T>>, b: nat, i: nat)
    requires b < |parts| && i < |parts[b]|
    ensures Offset(parts, b) + i < |Flatten(parts)|
    ensures Flatten(parts)[Offset(parts, b) + i] == parts[b][i]
    ensures Offset(parts, b + 1) == Offset(parts, b) + |parts[b]|
  {
    var n := |parts| - 1;
    assert parts[..b + 1][..b] == parts[..b];
    if b < n {
      FlattenAt(parts[..n], b, i);
      assert parts[..n][..b] == parts[..b];
    }
  }

  lemma {:induction false} OffsetBound<T>(parts: seq<seq<T>>, b: nat)
    requires b <= |parts|
    ensures Offset(parts, b) <= |Flatten(parts)|
    ensures b < |parts| ==> Offset(parts, b + 1) == Offset(parts, b) + |parts[b]| <= |Flatten(parts)|
  {
    if b == |parts| {
      assert parts[..b] == parts;
    } else {
      assert parts[..b + 1][..b] == parts[..b];
      var n := |parts| - 1;
      if b < n {
        OffsetBound(parts[..n], b);
        assert parts[..n][..b] == parts[..b];
        assert parts[..n][..b + 1] == parts[..b + 1];
      } else {
        assert parts[..b + 1] == parts;
      }
    }
  }

  /** Which part of a concatenation position `k` falls in, and where in it. */
  function Locate<T>(parts: seq<seq<T>>, k: nat): (r: (nat, nat))
    requires k < |Flatten(parts)|
    ensures r.0 < |parts| && r.1 < |parts[r.0]|
    ensures Offset(parts, r.0) + r.1 == k
  {
    var n := |parts| - 1;
    var front := Flatten(parts[..n]);
    if k < |front| then
      var r := Locate(parts[..n], k);
      assert parts[..n][..r.0] == parts[..r.0];
      r
    else (n, k - |front|)
  }

  function LineHint(window: seq<LineAttribution>, i: nat, index: map<string, nat>, rules: NameRules,
                    resolved: map<EntityId, Terms>): Option<Terms>
  {
    if 1 <= i <= |window| then HintOf(index, rules, resolved, window[i - 1]) else None
  }

  /** The hints of a window of attributions, by 1-based line; lines without a hint are absent. */
  function HintEntries(window: seq<LineAttribution>, index: map<string, nat>, rules: NameRules, resolved: map<EntityId, Terms>)
    : map<nat, Terms>
  {
    map i: nat | 1 <= i <= |window| && LineHint(window, i, index, rules, resolved).Some?
      :: LineHint(window, i, index, rules, resolved).value
  }

  /** No hint at all is written as none. */
  function OrNone(hints: map<nat, Terms>): Option<map<nat, Terms>>
  {
    if |hints| > 0 then Some(hints) else None
  }

  lemma OrNoneAt(hints: map<nat, Terms>, i: nat)
    ensures HintAt(OrNone(hints), i) == if i in hints then Some(hints[i]) else None
  {
    if |hints| == 0 { assert hints == map[]; }
  }

  method BatchHints(window: seq<LineAttribution>, index: map<string, nat>, rules: NameRules, resolved: map<EntityId, Terms>)
    returns (hints: Option<map<nat, Terms>>)
    ensures hints == OrNone(HintEntries(window, index, rules, resolved))
  {
    hide ResolveCharId;
    var batchHints: map<nat, Terms> := map[];
    for i := 1 to |window| + 1
      invariant forall j: nat :: j in batchHints <==> j < i && LineHint(window, j, index, rules, resolved).Some?
      invariant forall j: nat :: j in batchHints ==> batchHints[j] == LineHint(window, j, index, rules, resolved).value
    {
      var attr := window[i - 1];
      var speaker := ResolveCharId(index, rules, attr.speaker);
      var addressee := ResolveCharId(index, rules, attr.addressee);
      if speaker.Some? && addressee.Some? && Pair(speaker.value, addressee.value) in resolved {
        assert LineHint(window, i, index, rules, resolved) == Some(resolved[Pair(speaker.value, addressee.value)]);
        batchHints := batchHints[i := resolved[Pair(speaker.value, addressee.value)]];
      } else {
        assert LineHint(window, i, index, rules, resolved) == None;
      }
    }
    assert batchHints == HintEntries(window, index, rules, resolved);
    hints := if |batchHints| > 0 then Some(batchHints) else None;
  }

  /** Line `k` (counting all translatable cues) gets the hint of entry `k`, if there is one. */
  function ExpectedHint(flat: seq<LineAttribution>, k: nat, index: map<string, nat>, rules: NameRules,
                        resolved: map<EntityId, Terms>): Option<Terms>
  {
    if k < |flat| then HintOf(index, rules, resolved, flat[k]) else None
  }

  /** The stretch of the document-wide list for a batch; a list that is too short leaves the tail of
      the document without. */
  function Window(flat: seq<LineAttribution>, at: nat, size: nat): seq<LineAttribution>
  {
    if at >= |flat| then [] else if at + size > |flat| then flat[at..] else flat[at..at + size]
  }

  /** The hints of batch `b`. */
  function HintsOf(cueBatches: seq<seq<SubLine>>, flat: seq<LineAttribution>, index: map<string, nat>, rules: NameRules,
                   resolved: map<EntityId, Terms>, b: nat): Option<map<nat, Terms>>
    requires b < |cueBatches|
  {
    OrNone(HintEntries(Window(flat, Offset(cueBatches, b), |cueBatches[b]|), index, rules, resolved))
  }

  /** The hint slicing: the document-wide attribution list is cut into windows of each translation
      batch's size. */
  method BuildHints(cueBatches: seq<seq<SubLine>>, flat: seq<LineAttribution>, index: map<string, nat>, rules: NameRules,
                    resolved: map<EntityId, Terms>)
    returns (hints: seq<Option<map<nat, Terms>>>)
    ensures |hints| == |cueBatches|
    ensures forall b :: 0 <= b < |cueBatches| ==> hints[b] == HintsOf(cueBatches, flat, index, rules, resolved, b)
    ensures forall b, i: nat :: 0 <= b < |cueBatches| && 1 <= i <= |cueBatches[b]| ==>
              HintAt(hints[b], i) == ExpectedHint(flat, Offset(cueBatches, b) + i - 1, index, rules, resolved)
  {
    hide HintOf, Flatten, HintEntries, OrNone, ExpectedHint;
    hints := [];
    var docOffset := 0;
    EmptyOffset(cueBatches);
    for b := 0 to |cueBatches|
      invariant docOffset == Offset(cueBatches, b)
      invariant |hints| == b
      invariant forall c :: 0 <= c < b ==> hints[c] == HintsOf(cueBatches, flat, index, rules, resolved, c)
    {
      OffsetBound(cueBatches, b);
      var size := |cueBatches[b]|;
      var window := if docOffset >= |flat| then [] else if docOffset + size > |flat| then flat[docOffset..]
                    else flat[docOffset..docOffset + size];
      var batchHints := BatchHints(window, index, rules, resolved);
      hints := hints + [batchHints];
      docOffset := docOffset + size;
    }
    forall b, i: nat | 0 <= b < |cueBatches| && 1 <= i <= |cueBatches[b]|
      ensures HintAt(hints[b], i) == ExpectedHint(flat, Offset(cueBatches, b) + i - 1, index, rules, resolved)
    {
      WindowHint(flat, Offset(cueBatches, b), |cueBatches[b]|, i, index, rules, resolved);
    }
  }

  lemma WindowHint(flat: seq<LineAttribution>, at: nat, size: nat, i: nat, index: map<string, nat>, rules: NameRules,
                   resolved: map<EntityId, Terms>)
    requires 1 <= i <= size
    ensures HintAt(OrNone(HintEntries(Window(flat, at, size), index, rules, resolved)), i)
         == ExpectedHint(flat, at + i - 1, index, rules, resolved)
  {
    hide HintOf;
    OrNoneAt(HintEntries(Window(flat, at, size), index, rules, resolved), i);
    var w := Window(flat, at, size);
    assert i <= |w| <==> at + i - 1 < |flat|;
    assert i <= |w| ==> w[i - 1] == flat[at + i - 1];
  }

  lemma EmptyOffset<T>(parts: seq<seq<T>>)
    ensures Offset(parts, 0) == 0
  {
  }

  /** Attribution batches and translation batches pack the same translatable cues with different
      caps.  For every line of every translation batch, the entry used is the attribution of that
      same cue: the one its attribution batch has at that cue's place. */
  lemma HintFromSameCue(lines: seq<SubLine>, attrBatches: seq<seq<SubLine>>, cueBatches: seq<seq<SubLine>>,
                        attrs: seq<seq<LineAttribution>>, b: nat, i: nat)
    requires Flatten(attrBatches) == NonRaw(lines) && Flatten(cueBatches) == NonRaw(lines)
    requires |attrs| == |attrBatches| && forall k :: 0 <= k < |attrs| ==> |attrs[k]| == |attrBatches[k]|
    requires b < |cueBatches| && 1 <= i <= |cueBatches[b]|
    ensures var at := Offset(cueBatches, b) + i - 1;
            at < |Flatten(attrBatches)| && at < |Flatten(attrs)|
            && var r := Locate(attrBatches, at);
               attrBatches[r.0][r.1] == cueBatches[b][i - 1]
               && r.1 < |attrs[r.0]| && Flatten(attrs)[at] == attrs[r.0][r.1]
  {
    hide *;
    var at := Offset(cueBatches, b) + i - 1;
    FlattenAt(cueBatches, b, i - 1);
    assert at < |Flatten(attrBatches)| && Flatten(attrBatches)[at] == cueBatches[b][i - 1];
    LocateAt(attrBatches, at);
    LocateSame(attrs, attrBatches, at);
  }

  lemma LocateAt<T>(parts: seq<seq<T>>, k: nat)
    requires k < |Flatten(parts)|
    ensures var r := Locate(parts, k); Flatten(parts)[k] == parts[r.0][r.1]
  {
    hide *;
    var r := Locate(parts, k);
    FlattenAt(parts, r.0, r.1);
  }

  /** Lists of the same shape have position `k` in the same place. */
  lemma LocateSame<S, T>(xs: seq<seq<S>>, ys: seq<seq<T>>, k: nat)
    requires |xs| == |ys| && (forall i :: 0 <= i < |xs| ==> |xs[i]| == |ys[i]|) && k < |Flatten(ys)|
    ensures k < |Flatten(xs)|
    ensures var r := Locate(ys, k); r.1 < |xs[r.0]| && Flatten(xs)[k] == xs[r.0][r.1]
  {
    hide *;
    var r := Locate(ys, k);
    FlattenAt(xs, r.0, r.1);
    SameShapeOffsets(xs, ys, r.0);
  }

  lemma {:induction false} SameShapeOffsets<S, T>(xs: seq<seq<S>>, ys: seq<seq<T>>, b: nat)
    requires |xs| == |ys| && (forall k :: 0 <= k < |xs| ==> |xs[k]| == |ys[k]|) && b <= |xs|
    ensures Offset(xs, b) == Offset(ys, b)
  {
    if b > 0 {
      SameShapeOffsets(xs, ys, b - 1);
      assert xs[..b][..b - 1] == xs[..b - 1];
      assert ys[..b][..b - 1] == ys[..b - 1];
    }
  }

  /** The repair pass looks an attribution up by document position.  The entry it finds belongs to
      the cue being repaired if and only if no raw cue comes before it. */
  lemma RepairHintAligned(lines: seq<SubLine>, d: nat)
    requires d < |lines| && lines[d].raw.None?
    ensures Rank(lines, d) == d <==> forall k :: 0 <= k < d ==> lines[k].raw.None?
    ensures Rank(lines, d) <= d
  {
    RankFull(lines, d);
  }

  lemma {:induction false} RankFull(lines: seq<SubLine>, d: nat)
    requires d <= |lines|
    ensures Rank(lines, d) == d <==> forall k :: 0 <= k < d ==> lines[k].raw.None?
  {
    hide Rank, NonRaw;
    if d > 0 {
      RankFull(lines, d - 1);
      RankStep(lines, d - 1);
    }
  }
}
