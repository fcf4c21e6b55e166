/** The document gate: twelve checks, the first failure wins. */
module Gate {
  import opened Options
  import opened Subtitles
  import opened Text
  import opened Envelopes

  /** The pattern checks, cue by cue.  `neutral` texts carry no language; `passthrough` already knows
      the pinned names. */
  datatype Language = Language(
    neutral: string -> bool,
    vietnamese: string -> bool,
    token: string -> bool,
    encodable: string -> bool,
    scaffold: string -> bool,
    cjk: string -> bool,
    credit: (string, string) -> bool,
    gloss: string -> bool,
    honorific: string -> bool,
    passthrough: (string, string) -> bool,
    ratio: real,
    ms: string -> int)

  datatype Verdict = Pass | Fail(check: nat, failing: seq<nat>)

  /** Checks whose failures the repair loop may work on. */
  predicate Repairable(check: nat)
  {
    check == 3 || check == 9 || check == 10 || check == 11 || check == 12
  }

  // ---- checks that stop at the first bad cue ---------------------------------------------

  datatype Kind = EmptyText | Mutated | Retimed | OrphanToken | Unencodable | Scaffolding

  predicate Bad(kind: Kind, src: SubLine, trn: SubLine, lang: Language)
  {
    match kind
    case EmptyText => trn.raw.None? && Strip(trn.text) == []
    case Mutated => src.index != trn.index || src.startTc != trn.startTc || src.endTc != trn.endTc
    case Retimed => lang.ms(trn.startTc) != lang.ms(src.startTc) || lang.ms(trn.endTc) != lang.ms(src.endTc)
    case OrphanToken => lang.token(trn.text)
    case Unencodable => !lang.encodable(trn.text)
    case Scaffolding => lang.scaffold(trn.text)
  }

  function Shorter(a: seq<SubLine>, b: seq<SubLine>): nat
  {
    if |a| <= |b| then |a| else |b|
  }

  /** First bad cue, or the number of cues. */
  function FirstBad(kind: Kind, src: seq<SubLine>, trn: seq<SubLine>, lang: Language, i: nat): (k: nat)
    requires i <= Shorter(src, trn)
    ensures i <= k <= Shorter(src, trn)
    ensures k < Shorter(src, trn) ==> Bad(kind, src[k], trn[k], lang)
    ensures forall j :: i <= j < k ==> !Bad(kind, src[j], trn[j], lang)
    decreases Shorter(src, trn) - i
  {
    if i == Shorter(src, trn) || Bad(kind, src[i], trn[i], lang) then i else FirstBad(kind, src, trn, lang, i + 1)
  }

  method FindBad(kind: Kind, src: seq<SubLine>, trn: seq<SubLine>, lang: Language) returns (k: nat)
    ensures k == FirstBad(kind, src, trn, lang, 0)
  {
    k := 0;
    while k < Shorter(src, trn)
      invariant k <= Shorter(src, trn) && FirstBad(kind, src, trn, lang, 0) == FirstBad(kind, src, trn, lang, k)
    {
      if Bad(kind, src[k], trn[k], lang) {
        return;
      }
      k := k + 1;
    }
  }

  // ---- check 3: the share of Vietnamese lines --------------------------------------------

  predicate Counts(l: SubLine, lang: Language)
  {
    l.raw.None? && Strip(l.text) != [] && !lang.neutral(Strip(l.text))
  }

  predicate Foreign(l: SubLine, lang: Language)
  {
    Counts(l, lang) && !lang.vietnamese(Strip(l.text))
  }

  /** Ascending positions below `n` of the cues that satisfy one of the cue tests. */
  datatype Test = CountsTest | ForeignTest | CjkTest | GlossTest | HonorificTest | PassthroughTest

  /** The order of the per-cue tests: the first that fires settles the cue. */
  predicate Fires(t: Test, src: SubLine, trn: SubLine, lang: Language)
  {
    var text := Strip(trn.text);
    var live := trn.raw.None? && text != [];
    match t
    case CountsTest => Counts(trn, lang)
    case ForeignTest => Foreign(trn, lang)
    case CjkTest => live && lang.cjk(text) && !lang.credit(src.text, text)
    case GlossTest => live && !lang.cjk(text) && lang.gloss(text)
    case HonorificTest => live && !lang.cjk(text) && !lang.gloss(text) && lang.honorific(text)
    case PassthroughTest =>
      live && !lang.cjk(text) && !lang.gloss(text) && !lang.honorific(text) && lang.passthrough(src.text, text)
  }

  function Firing(t: Test, src: seq<SubLine>, trn: seq<SubLine>, lang: Language, n: nat): (r: seq<nat>)
    requires n <= Shorter(src, trn)
  {
    if n == 0 then []
    else Firing(t, src, trn, lang, n - 1) + (if Fires(t, src[n - 1], trn[n - 1], lang) then [n - 1] else [])
  }

  ghost predicate Ascending(xs: seq<nat>, n: nat)
  {
    (forall k :: 0 <= k < |xs| ==> xs[k] < n) && (forall k, l :: 0 <= k < l < |xs| ==> xs[k] < xs[l])
  }

  /** `r` lists, in order, exactly the cues below `n` on which the test fires. */
  ghost predicate ListsFiring(r: seq<nat>, t: Test, src: seq<SubLine>, trn: seq<SubLine>, lang: Language, n: nat)
    requires n <= Shorter(src, trn)
  {
    && Ascending(r, n)
    && (forall i :: i in r ==> i < n && Fires(t, src[i], trn[i], lang))
    && (forall i: nat :: i < n && Fires(t, src[i], trn[i], lang) ==> i in r)
  }

  lemma {:induction false} FiringFacts(t: Test, src: seq<SubLine>, trn: seq<SubLine>, lang: Language, n: nat)
    requires n <= Shorter(src, trn)
    ensures ListsFiring(Firing(t, src, trn, lang, n), t, src, trn, lang, n)
  {
    hide Fires;
    if n > 0 {
      hide ListsFiring;
      FiringFacts(t, src, trn, lang, n - 1);
      ListsOneMore(Firing(t, src, trn, lang, n - 1), t, src, trn, lang, n);
    }
  }

  lemma AscendingMore(r: seq<nat>, n: nat)
    requires n > 0 && Ascending(r, n - 1)
    ensures Ascending(r, n) && Ascending(r + [n - 1], n)
    ensures forall i :: i in r + [n - 1] <==> i in r || i == n - 1
  {
  }

  lemma ListsOneMore(r: seq<nat>, t: Test, src: seq<SubLine>, trn: seq<SubLine>, lang: Language, n: nat)
    requires 0 < n <= Shorter(src, trn) && ListsFiring(r, t, src, trn, lang, n - 1)
    ensures ListsFiring(r + (if Fires(t, src[n - 1], trn[n - 1], lang) then [n - 1] else []), t, src, trn, lang, n)
  {
    hide Fires, Ascending;
    AscendingMore(r, n);
    if !Fires(t, src[n - 1], trn[n - 1], lang) {
      assert r + [] == r;
    }
  }

  /** How the per-cue tests settle one more cue. */
  lemma FiringStep(src: seq<SubLine>, trn: seq<SubLine>, lang: Language, i: nat)
    requires i < Shorter(src, trn)
    ensures var text := Strip(trn[i].text);
            var live := trn[i].raw.None? && text != [];
            && Firing(CjkTest, src, trn, lang, i + 1) ==
                 Firing(CjkTest, src, trn, lang, i) + (if live && lang.cjk(text) && !lang.credit(src[i].text, text) then [i] else [])
            && Firing(GlossTest, src, trn, lang, i + 1) ==
                 Firing(GlossTest, src, trn, lang, i) + (if live && !lang.cjk(text) && lang.gloss(text) then [i] else [])
            && Firing(HonorificTest, src, trn, lang, i + 1) ==
                 Firing(HonorificTest, src, trn, lang, i)
                 + (if live && !lang.cjk(text) && !lang.gloss(text) && lang.honorific(text) then [i] else [])
            && Firing(PassthroughTest, src, trn, lang, i + 1) ==
                 Firing(PassthroughTest, src, trn, lang, i)
                 + (if live && !lang.cjk(text) && !lang.gloss(text) && !lang.honorific(text)
                       && lang.passthrough(src[i].text, text) then [i] else [])
  {
    hide Strip;
  }

  lemma CountingStep(src: seq<SubLine>, trn: seq<SubLine>, lang: Language, i: nat)
    requires i < Shorter(src, trn)
    ensures Firing(CountsTest, src, trn, lang, i + 1) ==
              Firing(CountsTest, src, trn, lang, i) + (if Counts(trn[i], lang) then [i] else [])
    ensures Firing(ForeignTest, src, trn, lang, i + 1) ==
              Firing(ForeignTest, src, trn, lang, i) + (if Foreign(trn[i], lang) then [i] else [])
    ensures Foreign(trn[i], lang) <==> Counts(trn[i], lang) && !lang.vietnamese(Strip(trn[i].text))
  {
    hide Strip;
  }

  /** Too few of the lines that carry language are Vietnamese. */
  predicate RatioFails(counting: nat, foreign: nat, threshold: real)
  {
    counting > 0 && (counting - foreign) as real / counting as real < threshold
  }

  function Untranslated(src: seq<SubLine>, trn: seq<SubLine>, lang: Language): Verdict
  {
    var n := Shorter(src, trn);
    var counting, foreign := Firing(CountsTest, src, trn, lang, n), Firing(ForeignTest, src, trn, lang, n);
    if RatioFails(|counting|, |foreign|, lang.ratio) then Fail(3, foreign) else Pass
  }

  // ---- the gate --------------------------------------------------------------------------

  function Stop(kind: Kind, check: nat, src: seq<SubLine>, trn: seq<SubLine>, lang: Language): Verdict
  {
    var k := FirstBad(kind, src, trn, lang, 0);
    if k < Shorter(src, trn) then Fail(check, [k]) else Pass
  }

  function Leaks(t: Test, check: nat, src: seq<SubLine>, trn: seq<SubLine>, lang: Language): Verdict
  {
    var failing := Firing(t, src, trn, lang, Shorter(src, trn));
    if failing != [] then Fail(check, failing) else Pass
  }

  function Then(a: Verdict, b: Verdict): Verdict
  {
    if a == Pass then b else a
  }

  function Validate(src: seq<SubLine>, trn: seq<SubLine>, lang: Language): Verdict
  {
    if |trn| != |src| then Fail(1, [])
    else
      Then(Stop(EmptyText, 2, src, trn, lang), Then(Untranslated(src, trn, lang),
      Then(Stop(Mutated, 4, src, trn, lang), Then(Stop(Retimed, 5, src, trn, lang),
      Then(Stop(OrphanToken, 6, src, trn, lang), Then(Stop(Unencodable, 7, src, trn, lang),
      Then(Stop(Scaffolding, 8, src, trn, lang), Then(Leaks(CjkTest, 9, src, trn, lang),
      Then(Leaks(HonorificTest, 11, src, trn, lang), Then(Leaks(GlossTest, 12, src, trn, lang),
      Leaks(PassthroughTest, 10, src, trn, lang)))))))))))
  }

  // ---- as loops --------------------------------------------------------------------------

  method CheckUntranslated(src: seq<SubLine>, trn: seq<SubLine>, lang: Language) returns (v: Verdict)
    ensures v == Untranslated(src, trn, lang)
  {
    hide Firing, Counts, Foreign, Strip;
    var n := Shorter(src, trn);
    var translatable: seq<nat>, viCount := [], 0;
    NoneFiring(src, trn, lang);
    for i := 0 to n
      invariant translatable == Firing(CountsTest, src, trn, lang, i)
      invariant viCount == |translatable| - |Firing(ForeignTest, src, trn, lang, i)|
    {
      CountingStep(src, trn, lang, i);
      if Counts(trn[i], lang) {
        translatable := translatable + [i];
        if lang.vietnamese(Strip(trn[i].text)) {
          viCount := viCount + 1;
        }
      }
    }
    if |translatable| == 0 {
      return Pass;
    }
    if viCount as real / |translatable| as real < lang.ratio {
      var failing: seq<nat> := [];
      for i := 0 to n
        invariant failing == Firing(ForeignTest, src, trn, lang, i)
      {
        CountingStep(src, trn, lang, i);
        if Counts(trn[i], lang) && !lang.vietnamese(Strip(trn[i].text)) {
          failing := failing + [i];
        }
      }
      return Fail(3, failing);
    }
    v := Pass;
  }

  lemma NoneFiring(src: seq<SubLine>, trn: seq<SubLine>, lang: Language)
    ensures forall t :: Firing(t, src, trn, lang, 0) == []
  {
  }

  method CheckLeaks(src: seq<SubLine>, trn: seq<SubLine>, lang: Language) returns (v: Verdict)
    ensures v == Then(Leaks(CjkTest, 9, src, trn, lang), Then(Leaks(HonorificTest, 11, src, trn, lang),
                 Then(Leaks(GlossTest, 12, src, trn, lang), Leaks(PassthroughTest, 10, src, trn, lang))))
  {
    hide Firing, Strip, Fires;
    var n := Shorter(src, trn);
    var fail9: seq<nat>, fail10: seq<nat>, fail11: seq<nat>, fail12: seq<nat> := [], [], [], [];
    NoneFiring(src, trn, lang);
    for i := 0 to n
      invariant fail9 == Firing(CjkTest, src, trn, lang, i)
      invariant fail10 == Firing(PassthroughTest, src, trn, lang, i)
      invariant fail11 == Firing(HonorificTest, src, trn, lang, i)
      invariant fail12 == Firing(GlossTest, src, trn, lang, i)
    {
      FiringStep(src, trn, lang, i);
      var text := Strip(trn[i].text);
      if trn[i].raw.Some? || text == [] {
        continue;
      }
      if lang.cjk(text) {
        if !lang.credit(src[i].text, text) {
          fail9 := fail9 + [i];
        }
      } else if lang.gloss(text) {
        fail12 := fail12 + [i];
      } else if lang.honorific(text) {
        fail11 := fail11 + [i];
      } else if lang.passthrough(src[i].text, text) {
        fail10 := fail10 + [i];
      }
    }
    if fail9 != [] {
      return Fail(9, fail9);
    }
    if fail11 != [] {
      return Fail(11, fail11);
    }
    if fail12 != [] {
      return Fail(12, fail12);
    }
    if fail10 != [] {
      return Fail(10, fail10);
    }
    v := Pass;
  }

  method StopAt(kind: Kind, check: nat, src: seq<SubLine>, trn: seq<SubLine>, lang: Language) returns (v: Verdict)
    ensures v == Stop(kind, check, src, trn, lang)
  {
    var k := FindBad(kind, src, trn, lang);
    v := if k < Shorter(src, trn) then Fail(check, [k]) else Pass;
  }

  method ValidateSubdoc(src: seq<SubLine>, trn: seq<SubLine>, lang: Language) returns (v: Verdict)
    ensures v == Validate(src, trn, lang)
  {
    hide Stop, Untranslated, Leaks;
    if |trn| != |src| {
      return Fail(1, []);
    }
    v := StopAt(EmptyText, 2, src, trn, lang);
    if v != Pass { return; }
    v := CheckUntranslated(src, trn, lang);
    if v != Pass { return; }
    v := StopAt(Mutated, 4, src, trn, lang);
    if v != Pass { return; }
    v := StopAt(Retimed, 5, src, trn, lang);
    if v != Pass { return; }
    v := StopAt(OrphanToken, 6, src, trn, lang);
    if v != Pass { return; }
    v := StopAt(Unencodable, 7, src, trn, lang);
    if v != Pass { return; }
    v := StopAt(Scaffolding, 8, src, trn, lang);
    if v != Pass { return; }
    v := CheckLeaks(src, trn, lang);
  }

  // ---- what the verdict says -------------------------------------------------------------

  /** The document keeps the frame of its source: as many cues, each with the source's index and
      timecodes, raw cues verbatim. */
  ghost predicate SameFrame(src: seq<SubLine>, trn: seq<SubLine>)
  {
    |trn| == |src| && forall i :: 0 <= i < |src| ==> SameFrameLine(src[i], trn[i])
  }

  /** A document in the frame of its source never fails the count, timecode or timing checks. */
  lemma FrameNeverFails(src: seq<SubLine>, trn: seq<SubLine>, lang: Language)
    requires SameFrame(src, trn)
    ensures var v := Validate(src, trn, lang); v.Fail? ==> v.check != 1 && v.check != 4 && v.check != 5
    ensures Stop(Mutated, 4, src, trn, lang) == Pass && Stop(Retimed, 5, src, trn, lang) == Pass
  {
    assert forall i :: 0 <= i < |src| ==> SameFrameLine(src[i], trn[i]);
    hide Untranslated, Leaks;
  }

  lemma FiresNonRaw(t: Test, src: SubLine, trn: SubLine, lang: Language)
    requires Fires(t, src, trn, lang)
    ensures trn.raw.None?
  {
  }

  /** The cues a repairable failure names: distinct, ascending, inside the document, none of them
      raw; for the leak checks, exactly the cues that leak. */
  lemma RepairableFailure(src: seq<SubLine>, trn: seq<SubLine>, lang: Language)
    requires var v := Validate(src, trn, lang); v.Fail? && Repairable(v.check)
    ensures var v := Validate(src, trn, lang);
            && |trn| == |src| && Ascending(v.failing, |src|)
            && forall i :: i in v.failing ==> i < |trn| && trn[i].raw.None?
    ensures var v := Validate(src, trn, lang);
            v.failing == Firing(if v.check == 3 then ForeignTest else if v.check == 9 then CjkTest
                                else if v.check == 10 then PassthroughTest else if v.check == 11 then HonorificTest
                                else GlossTest, src, trn, lang, |src|)
  {
    hide FirstBad, RatioFails, Firing, Ascending;
    var v := Validate(src, trn, lang);
    FiringSound(ForeignTest, src, trn, lang);
    FiringSound(CjkTest, src, trn, lang);
    FiringSound(HonorificTest, src, trn, lang);
    FiringSound(GlossTest, src, trn, lang);
    FiringSound(PassthroughTest, src, trn, lang);
    assert v == Untranslated(src, trn, lang) || v == Leaks(CjkTest, 9, src, trn, lang) || v == Leaks(HonorificTest, 11, src, trn, lang)
      || v == Leaks(GlossTest, 12, src, trn, lang) || v == Leaks(PassthroughTest, 10, src, trn, lang);
  }

  lemma FiringSound(t: Test, src: seq<SubLine>, trn: seq<SubLine>, lang: Language)
    ensures Ascending(Firing(t, src, trn, lang, Shorter(src, trn)), Shorter(src, trn))
    ensures forall i :: i in Firing(t, src, trn, lang, Shorter(src, trn)) ==> i < |trn| && trn[i].raw.None?
  {
    hide Fires, Firing;
    FiringFacts(t, src, trn, lang, Shorter(src, trn));
    forall i | i in Firing(t, src, trn, lang, Shorter(src, trn))
      ensures i < |trn| && trn[i].raw.None?
    {
      FiresNonRaw(t, src[i], trn[i], lang);
    }
  }

  /** What every cue of a document that passes is: in frame for index, timecodes and times, writable,
      without token or scaffolding, and, if it is translatable, with content that shows no leak. */
  predicate Clean(src: SubLine, trn: SubLine, lang: Language)
  {
    var text := Strip(trn.text);
    && trn.index == src.index && trn.startTc == src.startTc && trn.endTc == src.endTc
    && lang.ms(trn.startTc) == lang.ms(src.startTc) && lang.ms(trn.endTc) == lang.ms(src.endTc)
    && !lang.token(trn.text) && lang.encodable(trn.text) && !lang.scaffold(trn.text)
    && (trn.raw.None? ==>
          && text != []
          && (lang.cjk(text) ==> lang.credit(src.text, text))
          && (!lang.cjk(text) ==> !lang.gloss(text) && !lang.honorific(text) && !lang.passthrough(src.text, text)))
  }

  /** The cues whose text carries language, and those of them that are Vietnamese. */
  function Speaking(trn: seq<SubLine>, lang: Language): set<nat>
  {
    set i: nat | i < |trn| && trn[i].raw.None? && Strip(trn[i].text) != [] && !lang.neutral(Strip(trn[i].text))
  }

  function Vietnamese(trn: seq<SubLine>, lang: Language): set<nat>
  {
    set i: nat | i in Speaking(trn, lang) && lang.vietnamese(Strip(trn[i].text))
  }

  /** At least the threshold share of the cues that carry language is Vietnamese. */
  predicate VietnameseEnough(trn: seq<SubLine>, lang: Language)
  {
    Speaking(trn, lang) == {} || |Vietnamese(trn, lang)| as real >= lang.ratio * |Speaking(trn, lang)| as real
  }

  lemma {:induction false} AscendingCount(r: seq<nat>, n: nat, s: set<nat>)
    requires Ascending(r, n) && forall i: nat :: i in r <==> i in s
    ensures |r| == |s|
  {
    if |r| == 0 {
      assert s == {};
    } else {
      var m := |r| - 1;
      forall i: nat
        ensures i in r[..m] <==> i in s - {r[m]}
      {
        assert i in r <==> i in r[..m] || i == r[m];
      }
      AscendingCount(r[..m], n, s - {r[m]});
      assert r[m] in r;
    }
  }

  lemma FiringCount(t: Test, src: seq<SubLine>, trn: seq<SubLine>, lang: Language, s: set<nat>)
    requires |src| == |trn| && forall i: nat :: i in s <==> i < |src| && Fires(t, src[i], trn[i], lang)
    ensures |Firing(t, src, trn, lang, |src|)| == |s|
  {
    hide Firing, Fires;
    FiringFacts(t, src, trn, lang, |src|);
    AscendingCount(Firing(t, src, trn, lang, |src|), |src|, s);
  }

  /** Check 3 lets a document through exactly when enough of it is Vietnamese. */
  lemma RatioIff(src: seq<SubLine>, trn: seq<SubLine>, lang: Language)
    requires |src| == |trn|
    ensures Untranslated(src, trn, lang) == Pass <==> VietnameseEnough(trn, lang)
  {
    hide *;
    var c, v := Speaking(trn, lang), Vietnamese(trn, lang);
    CountingFires(src, trn, lang);
    FiringCount(CountsTest, src, trn, lang, c);
    FiringCount(ForeignTest, src, trn, lang, c - v);
    SubsetCount(c, v, trn, lang);
    if |c| > 0 {
      Share(|v|, |c|, lang.ratio);
    }
    RatioSays(src, trn, lang);
  }

  lemma CountingFires(src: seq<SubLine>, trn: seq<SubLine>, lang: Language)
    requires |src| == |trn|
    ensures forall i: nat :: i in Speaking(trn, lang) <==> i < |src| && Fires(CountsTest, src[i], trn[i], lang)
    ensures forall i: nat :: i in Speaking(trn, lang) - Vietnamese(trn, lang) <==> i < |src| && Fires(ForeignTest, src[i], trn[i], lang)
  {
    hide Strip;
  }

  lemma SubsetCount(c: set<nat>, v: set<nat>, trn: seq<SubLine>, lang: Language)
    requires c == Speaking(trn, lang) && v == Vietnamese(trn, lang)
    ensures |c - v| == |c| - |v|
  {
    hide Strip;
    assert v <= c;
    assert c == (c - v) + v;
  }

  lemma Share(v: nat, c: nat, ratio: real)
    requires c > 0
    ensures v as real / c as real < ratio <==> !(v as real >= ratio * c as real)
  {
    var x, y := v as real, c as real;
    assert x == x / y * y;
    if x / y < ratio {
      assert x / y * y < ratio * y;
    } else {
      assert x / y * y >= ratio * y;
    }
  }

  lemma RatioSays(src: seq<SubLine>, trn: seq<SubLine>, lang: Language)
    requires |src| == |trn|
    ensures var counting, foreign := Firing(CountsTest, src, trn, lang, |src|), Firing(ForeignTest, src, trn, lang, |src|);
            Untranslated(src, trn, lang) == Pass <==> |counting| == 0 || !((|counting| - |foreign|) as real / |counting| as real < lang.ratio)
    ensures VietnameseEnough(trn, lang) <==>
              |Speaking(trn, lang)| == 0 || |Vietnamese(trn, lang)| as real >= lang.ratio * |Speaking(trn, lang)| as real
  {
    hide Firing, Speaking, Vietnamese;
  }

  /** A document passes if and only if it has as many cues as its source, each of them clean, and enough
      of it is Vietnamese. */
  lemma PassIff(src: seq<SubLine>, trn: seq<SubLine>, lang: Language)
    ensures Validate(src, trn, lang) == Pass <==>
      |trn| == |src| && (forall i :: 0 <= i < |src| ==> Clean(src[i], trn[i], lang)) && VietnameseEnough(trn, lang)
  {
    if |trn| == |src| {
      RatioIff(src, trn, lang);
      StopsIff(src, trn, lang);
      LeaksIff(src, trn, lang);
      PassParts(src, trn, lang);
      hide *;
      forall i: nat | i < |src|
        ensures Clean(src[i], trn[i], lang) <==> NotBad(src[i], trn[i], lang) && NoLeak(src[i], trn[i], lang)
      {
        CleanIff(src[i], trn[i], lang);
      }
    }
  }

  predicate NotBad(src: SubLine, trn: SubLine, lang: Language)
  {
    && !Bad(EmptyText, src, trn, lang) && !Bad(Mutated, src, trn, lang) && !Bad(Retimed, src, trn, lang)
    && !Bad(OrphanToken, src, trn, lang) && !Bad(Unencodable, src, trn, lang) && !Bad(Scaffolding, src, trn, lang)
  }

  predicate NoLeak(src: SubLine, trn: SubLine, lang: Language)
  {
    && !Fires(CjkTest, src, trn, lang) && !Fires(HonorificTest, src, trn, lang)
    && !Fires(GlossTest, src, trn, lang) && !Fires(PassthroughTest, src, trn, lang)
  }

  lemma CleanIff(src: SubLine, trn: SubLine, lang: Language)
    ensures Clean(src, trn, lang) <==> NotBad(src, trn, lang) && NoLeak(src, trn, lang)
  {
    hide Strip;
  }

  predicate Stops(src: seq<SubLine>, trn: seq<SubLine>, lang: Language)
  {
    || Stop(EmptyText, 2, src, trn, lang) != Pass || Stop(Mutated, 4, src, trn, lang) != Pass || Stop(Retimed, 5, src, trn, lang) != Pass
    || Stop(OrphanToken, 6, src, trn, lang) != Pass || Stop(Unencodable, 7, src, trn, lang) != Pass
    || Stop(Scaffolding, 8, src, trn, lang) != Pass
  }

  predicate LeakFound(src: seq<SubLine>, trn: seq<SubLine>, lang: Language)
  {
    || Leaks(CjkTest, 9, src, trn, lang) != Pass || Leaks(HonorificTest, 11, src, trn, lang) != Pass
    || Leaks(GlossTest, 12, src, trn, lang) != Pass || Leaks(PassthroughTest, 10, src, trn, lang) != Pass
  }

  lemma PassParts(src: seq<SubLine>, trn: seq<SubLine>, lang: Language)
    requires |src| == |trn|
    ensures Validate(src, trn, lang) == Pass <==>
              !Stops(src, trn, lang) && Untranslated(src, trn, lang) == Pass && !LeakFound(src, trn, lang)
  {
    hide Stop, Untranslated, Leaks;
  }

  lemma StopsIff(src: seq<SubLine>, trn: seq<SubLine>, lang: Language)
    requires |src| == |trn|
    ensures !Stops(src, trn, lang) <==> forall i: nat :: i < |src| ==> NotBad(src[i], trn[i], lang)
  {
    hide Bad;
    if forall i: nat :: i < |src| ==> NotBad(src[i], trn[i], lang) {
      forall i: nat | i < |src|
        ensures !Bad(EmptyText, src[i], trn[i], lang) && !Bad(Mutated, src[i], trn[i], lang) && !Bad(Retimed, src[i], trn[i], lang)
        ensures !Bad(OrphanToken, src[i], trn[i], lang) && !Bad(Unencodable, src[i], trn[i], lang)
        ensures !Bad(Scaffolding, src[i], trn[i], lang)
      {
        assert NotBad(src[i], trn[i], lang);
      }
    }
  }

  lemma LeakFreeIff(t: Test, check: nat, src: seq<SubLine>, trn: seq<SubLine>, lang: Language)
    requires |src| == |trn|
    ensures Leaks(t, check, src, trn, lang) == Pass <==> forall i: nat :: i < |src| ==> !Fires(t, src[i], trn[i], lang)
  {
    hide Fires, Firing;
    FiringFacts(t, src, trn, lang, |src|);
    var r := Firing(t, src, trn, lang, |src|);
    if r != [] {
      assert r[0] in r;
    }
  }

  lemma LeaksIff(src: seq<SubLine>, trn: seq<SubLine>, lang: Language)
    requires |src| == |trn|
    ensures !LeakFound(src, trn, lang) <==> forall i: nat :: i < |src| ==> NoLeak(src[i], trn[i], lang)
  {
    LeakFreeIff(CjkTest, 9, src, trn, lang);
    LeakFreeIff(HonorificTest, 11, src, trn, lang);
    LeakFreeIff(GlossTest, 12, src, trn, lang);
    LeakFreeIff(PassthroughTest, 10, src, trn, lang);
    hide Leaks, Fires;
    if forall i: nat :: i < |src| ==> NoLeak(src[i], trn[i], lang) {
      forall i: nat | i < |src|
        ensures !Fires(CjkTest, src[i], trn[i], lang) && !Fires(HonorificTest, src[i], trn[i], lang)
        ensures !Fires(GlossTest, src[i], trn[i], lang) && !Fires(PassthroughTest, src[i], trn[i], lang)
      {
        assert NoLeak(src[i], trn[i], lang);
      }
    }
  }

  // ---- which check refuses first ---------------------------------------------------------

  /** The checks in the order in which they are tried. */
  const CHECKS: seq<nat> := [1, 2, 3, 4, 5, 6, 7, 8, 9, 11, 12, 10]

  /** What a check refuses, in a document with as many cues as its source. */
  ghost predicate Refuses(check: nat, src: seq<SubLine>, trn: seq<SubLine>, lang: Language)
  {
    if check == 1 then |trn| != |src|
    else if check == 3 then |trn| == |src| && !VietnameseEnough(trn, lang)
    else |trn| == |src| && exists i :: 0 <= i < |src| && Offends(check, src[i], trn[i], lang)
  }

  predicate Offends(check: nat, src: SubLine, trn: SubLine, lang: Language)
  {
    var text := Strip(trn.text);
    var live := trn.raw.None? && text != [];
    match check
    case 2 => trn.raw.None? && text == []
    case 4 => trn.index != src.index || trn.startTc != src.startTc || trn.endTc != src.endTc
    case 5 => lang.ms(trn.startTc) != lang.ms(src.startTc) || lang.ms(trn.endTc) != lang.ms(src.endTc)
    case 6 => lang.token(trn.text)
    case 7 => !lang.encodable(trn.text)
    case 8 => lang.scaffold(trn.text)
    case 9 => live && lang.cjk(text) && !lang.credit(src.text, text)
    case 12 => live && !lang.cjk(text) && lang.gloss(text)
    case 11 => live && !lang.cjk(text) && !lang.gloss(text) && lang.honorific(text)
    case 10 => live && !lang.cjk(text) && !lang.gloss(text) && !lang.honorific(text) && lang.passthrough(src.text, text)
    case _ => false
  }

  lemma StopRefuses(kind: Kind, check: nat, src: seq<SubLine>, trn: seq<SubLine>, lang: Language)
    requires |src| == |trn| && check == (match kind case EmptyText => 2 case Mutated => 4 case Retimed => 5 case OrphanToken => 6
                                                    case Unencodable => 7 case Scaffolding => 8)
    ensures var v := Stop(kind, check, src, trn, lang);
            (v == Pass <==> !Refuses(check, src, trn, lang)) && (v.Fail? ==> v.check == check)
  {
    hide Strip;
  }

  lemma FiresOffends(t: Test, check: nat, src: SubLine, trn: SubLine, lang: Language)
    requires (t == CjkTest && check == 9) || (t == HonorificTest && check == 11) || (t == GlossTest && check == 12)
             || (t == PassthroughTest && check == 10)
    ensures Fires(t, src, trn, lang) <==> Offends(check, src, trn, lang)
  {
    hide Strip;
  }

  lemma CueRefuses(check: nat, src: seq<SubLine>, trn: seq<SubLine>, lang: Language)
    requires |src| == |trn| && check != 1 && check != 3
    ensures Refuses(check, src, trn, lang) <==> exists i: nat :: i < |src| && Offends(check, src[i], trn[i], lang)
  {
    hide Offends, VietnameseEnough;
  }

  lemma LeaksRefuse(t: Test, check: nat, src: seq<SubLine>, trn: seq<SubLine>, lang: Language)
    requires |src| == |trn|
    requires (t == CjkTest && check == 9) || (t == HonorificTest && check == 11) || (t == GlossTest && check == 12)
             || (t == PassthroughTest && check == 10)
    ensures var v := Leaks(t, check, src, trn, lang);
            (v == Pass <==> !Refuses(check, src, trn, lang)) && (v.Fail? ==> v.check == check)
  {
    hide Fires, Offends, Firing, Refuses;
    LeakFreeIff(t, check, src, trn, lang);
    CueRefuses(check, src, trn, lang);
    forall i: nat | i < |src|
      ensures Fires(t, src[i], trn[i], lang) <==> Offends(check, src[i], trn[i], lang)
    {
      FiresOffends(t, check, src[i], trn[i], lang);
    }
  }

  /** The first failing check of the chain, written out. */
  lemma Chain(src: seq<SubLine>, trn: seq<SubLine>, lang: Language)
    ensures var v := Validate(src, trn, lang);
            if Refuses(1, src, trn, lang) then v.Fail? && v.check == 1
            else if Refuses(2, src, trn, lang) then v.Fail? && v.check == 2
            else if Refuses(3, src, trn, lang) then v.Fail? && v.check == 3
            else if Refuses(4, src, trn, lang) then v.Fail? && v.check == 4
            else if Refuses(5, src, trn, lang) then v.Fail? && v.check == 5
            else if Refuses(6, src, trn, lang) then v.Fail? && v.check == 6
            else if Refuses(7, src, trn, lang) then v.Fail? && v.check == 7
            else if Refuses(8, src, trn, lang) then v.Fail? && v.check == 8
            else if Refuses(9, src, trn, lang) then v.Fail? && v.check == 9
            else if Refuses(11, src, trn, lang) then v.Fail? && v.check == 11
            else if Refuses(12, src, trn, lang) then v.Fail? && v.check == 12
            else if Refuses(10, src, trn, lang) then v.Fail? && v.check == 10
            else v == Pass
  {
    hide Refuses, Stop, Leaks, Untranslated, VietnameseEnough;
    CountRefuses(src, trn, lang);
    if |src| == |trn| {
      StopRefuses(EmptyText, 2, src, trn, lang);
      StopRefuses(Mutated, 4, src, trn, lang);
      StopRefuses(Retimed, 5, src, trn, lang);
      StopRefuses(OrphanToken, 6, src, trn, lang);
      StopRefuses(Unencodable, 7, src, trn, lang);
      StopRefuses(Scaffolding, 8, src, trn, lang);
      RatioIff(src, trn, lang);
      RatioCheck(src, trn, lang);
      LeaksRefuse(CjkTest, 9, src, trn, lang);
      LeaksRefuse(HonorificTest, 11, src, trn, lang);
      LeaksRefuse(GlossTest, 12, src, trn, lang);
      LeaksRefuse(PassthroughTest, 10, src, trn, lang);
    }
  }

  /** The verdict is the first check, in this order, that refuses the document. */
  lemma FirstRefusal(src: seq<SubLine>, trn: seq<SubLine>, lang: Language, k: nat)
    requires k < |CHECKS|
    ensures var v := Validate(src, trn, lang);
            && (v.Fail? && v.check == CHECKS[k] <==>
                  Refuses(CHECKS[k], src, trn, lang) && forall j :: 0 <= j < k ==> !Refuses(CHECKS[j], src, trn, lang))
            && (v == Pass <==> forall j :: 0 <= j < |CHECKS| ==> !Refuses(CHECKS[j], src, trn, lang))
  {
    hide Refuses, Validate;
    Chain(src, trn, lang);
    assert CHECKS[0] == 1 && CHECKS[1] == 2 && CHECKS[2] == 3 && CHECKS[3] == 4 && CHECKS[4] == 5 && CHECKS[5] == 6;
    assert CHECKS[6] == 7 && CHECKS[7] == 8 && CHECKS[8] == 9 && CHECKS[9] == 11 && CHECKS[10] == 12 && CHECKS[11] == 10;
  }

  lemma CountRefuses(src: seq<SubLine>, trn: seq<SubLine>, lang: Language)
    ensures Refuses(1, src, trn, lang) <==> |src| != |trn|
    ensures |src| == |trn| ==> (Refuses(3, src, trn, lang) <==> !VietnameseEnough(trn, lang))
  {
  }

  lemma RatioCheck(src: seq<SubLine>, trn: seq<SubLine>, lang: Language)
    ensures Untranslated(src, trn, lang).Fail? ==> Untranslated(src, trn, lang).check == 3
  {
    hide RatioFails, Firing;
  }
}
