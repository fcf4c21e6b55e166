/** When a reply that the batch checks accept leaves a cue without text. */
module BlankReplies {
  import opened Options
  import opened Text
  import opened Subtitles
  import opened Sentinel
  import opened SentinelLaws
  import opened SentinelOrder
  import N = NumberedLines
  import NumberedEcho
  import opened Conversation
  import opened Envelopes
  import opened Gate

  /** Nothing but tokens and white space. */
  predicate OnlyTokens(s: string)
    decreases |s|
  {
    |s| == 0 || (if TokenLen(s) > 0 then OnlyTokens(s[TokenLen(s)..]) else IsSpace(s[0]) && OnlyTokens(s[1..]))
  }

  predicate Blank(s: string)
  {
    forall k :: 0 <= k < |s| ==> IsSpace(s[k])
  }

  // ---- dropping the orphans --------------------------------------------------------------

  lemma SpaceIsNoToken(s: string)
    requires |s| > 0 && IsSpace(s[0])
    ensures TokenLen(s) == 0
  {
    TokenShape(s);
    hide TokenLen;
    assert !IsSpace('<');
  }

  lemma {:induction false} SpacesSkip(s: string, j: nat)
    requires j <= |s| && forall k :: 0 <= k < j ==> IsSpace(s[k])
    ensures OnlyTokens(s) == OnlyTokens(s[j..])
  {
    hide IsSpace, TokenLen;
    if j > 0 {
      SpaceIsNoToken(s);
      SpacesSkip(s[1..], j - 1);
      assert s[1..][j - 1..] == s[j..];
    } else {
      assert s[0..] == s;
    }
  }

  lemma TokenSkip(s: string)
    requires TokenLen(s) > 0
    ensures OnlyTokens(s) == OnlyTokens(s[TokenLen(s)..])
  {
    hide TokenLen;
  }

  lemma OrphanSkip(s: string, orphans: set<string>)
    requires OrphanLen(s, orphans) > 0
    ensures OnlyTokens(s) == OnlyTokens(s[OrphanLen(s, orphans)..])
  {
    hide TokenLen, OnlyTokens, IsSpace, SpaceRun;
    var w := SpaceRun(s);
    var m := TokenLen(s[w..]);
    SpacesSkip(s, w);
    if m > 0 {
      TokenSkip(s[w..]);
      assert s[w..][m..] == s[w + m..];
      SpacesSkip(s[w + m..], SpaceRun(s[w + m..]));
      assert s[w + m..][SpaceRun(s[w + m..])..] == s[w + m + SpaceRun(s[w + m..])..];
    }
  }

  lemma BlankCons(c: char, rest: string)
    ensures Blank([c] + rest) <==> IsSpace(c) && Blank(rest)
  {
    var s := [c] + rest;
    assert s[0] == c;
    if Blank(s) {
      forall k | 0 <= k < |rest|
        ensures IsSpace(rest[k])
      {
        assert s[k + 1] == rest[k];
      }
    }
  }

  lemma LiteralKept(s: string, orphans: set<string>)
    requires Covers(orphans, s) && |s| > 0 && OrphanLen(s, orphans) == 0
    ensures OnlyTokens(s) <==> IsSpace(s[0]) && OnlyTokens(s[1..])
  {
    if IsSpace(s[0]) {
      SpaceIsNoToken(s);
    } else if TokenLen(s) > 0 {
      TokenDrops(s, orphans);
    }
  }

  lemma TokenDrops(s: string, orphans: set<string>)
    requires Covers(orphans, s) && |s| > 0 && TokenLen(s) > 0 && !IsSpace(s[0])
    ensures OrphanLen(s, orphans) > 0
  {
    CoversStart(s, orphans);
    hide TokenLen;
    assert SpaceRun(s) == 0 && s[0..] == s;
  }

  /** The kept text is blank exactly if the original was nothing but tokens and white space. */
  lemma {:induction false} DropBlank(s: string, orphans: set<string>)
    requires Covers(orphans, s)
    ensures Blank(DropOrphans(s, orphans)) <==> OnlyTokens(s)
    decreases |s|
  {
    hide TokenLen, IsSpace, Covers, OrphanLen, OnlyTokens, Blank;
    if |s| == 0 {
      NothingIsBlank();
    } else if OrphanLen(s, orphans) > 0 {
      var n := OrphanLen(s, orphans);
      CoversSuffix(orphans, s, n);
      DropBlank(s[n..], orphans);
      OrphanSkip(s, orphans);
      BlankCons(' ', DropOrphans(s[n..], orphans));
      SpaceIsSpace();
      assert [' '] + DropOrphans(s[n..], orphans) == " " + DropOrphans(s[n..], orphans);
    } else {
      CoversSuffix(orphans, s, 1);
      DropBlank(s[1..], orphans);
      LiteralKept(s, orphans);
      BlankCons(s[0], DropOrphans(s[1..], orphans));
    }
  }

  lemma NothingIsBlank()
    ensures Blank([]) && OnlyTokens([])
  {
  }

  lemma SpaceIsSpace()
    ensures IsSpace(' ')
  {
  }

  lemma AllCovered(s: string)
    ensures Covers(Orphans(s, []), s)
  {
    hide TokenLen, Tokens;
    forall i | 0 <= i < |s| && TokenLen(s[i..]) > 0
      ensures s[i..][..TokenLen(s[i..])] in Orphans(s, [])
    {
      TokensComplete(s, i);
    }
  }

  lemma {:induction false} DropNone(s: string)
    ensures DropOrphans(s, {}) == s
  {
    if |s| > 0 {
      assert OrphanLen(s, {}) == 0;
      hide OrphanLen;
      DropNone(s[1..]);
    }
  }

  /** For a cue without tags, what reaches the document is blank exactly if the reply had nothing but
      tokens and white space for it. */
  lemma BlankIff(s: string)
    ensures Strip(Reinsert(s, []).0) == [] <==> OnlyTokens(s)
  {
    hide Strip, OnlyTokens, TokenLen, Tokens, Orphans, DropOrphans, HasToken;
    var orphans := Orphans(s, []);
    AllCovered(s);
    DropBlank(s, orphans);
    var kept := DropOrphans(s, orphans);
    StripBlank(kept);
    StripTrimmed(kept);
    if orphans == {} {
      DropNone(s);
    }
  }

  // ---- cues with tags --------------------------------------------------------------------

  predicate Solid(tag: string)
  {
    |tag| > 0 && !IsSpace(tag[0])
  }

  /** A tag opens with a bracket or a backslash. */
  lemma {:induction false} TagsSolid(text: string)
    ensures forall t :: t in Tags(text) ==> Solid(t)
    decreases |text|
  {
    if |text| > 0 {
      if TagLen(text) > 0 {
        TagOpens(text);
        hide TagLen, IsSpace;
        TagsSolid(text[TagLen(text)..]);
        assert text[..TagLen(text)][0] == text[0];
      } else {
        hide TagLen, IsSpace;
        TagsSolid(text[1..]);
      }
    }
  }

  lemma TagOpens(text: string)
    requires TagLen(text) > 0
    ensures |text| > 0 && !IsSpace(text[0])
  {
  }

  lemma ReplaceKeeps(s: string, key: string, tag: string)
    requires Contains(s, key) && Solid(tag)
    ensures !Blank(ReplaceFirst(s, key, tag))
  {
    hide IsSpace, Find;
    var f := Find(s, key);
    assert ReplaceFirst(s, key, tag)[f] == tag[0];
  }

  /** A cue that gets a tag back is not blank. */
  lemma {:induction false} RestoredSolid(s: string, entries: seq<Entry>)
    requires |entries| > 0 && (forall k :: 0 <= k < |entries| ==> Solid(entries[k].tag)) && Restore(s, entries).1
    ensures !Blank(Restore(s, entries).0)
    decreases |entries|
  {
    hide Contains, ReplaceFirst, Solid, Blank;
    var t := ReplaceFirst(s, entries[0].key, entries[0].tag);
    if |entries| == 1 {
      ReplaceKeeps(s, entries[0].key, entries[0].tag);
      assert entries[1..] == [];
    } else {
      RestoredSolid(t, entries[1..]);
    }
  }

  // ---- accepted batches ------------------------------------------------------------------

  /** The texts of a reply that was read as one text per cue. */
  function Parsed(cues: seq<SubLine>, raw: string): N.Reading
  {
    var p := Prepare(cues);
    N.Read(raw, |p.cleaned|, Some(Multiline(p.cleaned)))
  }

  lemma {:induction false} ReinsertedAt(texts: seq<string>, maps: seq<seq<Entry>>)
    requires |texts| == |maps|
    ensures ReinsertAll(texts, maps).Good? <==> forall k :: 0 <= k < |texts| ==> Reinsert(texts[k], maps[k]).1
    ensures ReinsertAll(texts, maps).Good? ==>
              forall k :: 0 <= k < |texts| ==> ReinsertAll(texts, maps).texts[k] == Reinsert(texts[k], maps[k]).0
  {
    hide Reinsert;
    if |texts| > 0 {
      var n := |texts| - 1;
      ReinsertedAt(texts[..n], maps[..n]);
      assert forall k :: 0 <= k < n ==> texts[..n][k] == texts[k] && maps[..n][k] == maps[k];
    }
  }

  /** What an accepted reply makes of one cue: tagged cues keep their tags, and an untagged cue is
      blank exactly if the reply had only tokens and white space for it. */
  lemma BlankCueIff(text: string, s: string)
    requires Reinsert(s, Keyed(Tags(text), 0)).1
    ensures Strip(Reinsert(s, Keyed(Tags(text), 0)).0) == [] <==> Tags(text) == [] && OnlyTokens(s)
  {
    hide OnlyTokens, TagLen, Unorphaned, HasToken, Restore, Tags, Strip;
    var entries := Keyed(Tags(text), 0);
    if Tags(text) == [] {
      assert entries == [];
      BlankIff(s);
    } else {
      TagsSolid(text);
      assert forall k :: 0 <= k < |entries| ==> entries[k].tag in Tags(text);
      RestoredSolid(Unorphaned(s, entries), entries);
      StripBlank(Reinsert(s, entries).0);
    }
  }

  /** A batch is accepted with a blank text for cue `k` if and only if the reply reads as one text per
      cue, every tagged cue gets its tags back, cue `k` has no tags, and the reply had nothing but
      tokens and white space for it. */
  lemma BlankAcceptedIff(cues: seq<SubLine>, raw: string, k: nat)
    requires k < |cues|
    ensures var judged, parsed := Judge(Prepare(cues), raw), Parsed(cues, raw);
            (judged.Good? && Strip(judged.texts[k]) == [])
            <==> parsed.Texts?
                 && (forall i :: 0 <= i < |cues| && Tags(cues[i].text) != [] ==>
                       Reinsert(parsed.texts[i], Keyed(Tags(cues[i].text), 0)).1)
                 && Tags(cues[k].text) == [] && OnlyTokens(parsed.texts[k])
  {
    hide Reinsert, Tags, OnlyTokens, Strip, N.Read, Multiline;
    var p, parsed := Prepare(cues), Parsed(cues, raw);
    if parsed.Texts? {
      ReinsertedAt(parsed.texts, p.maps);
      forall i | 0 <= i < |cues| && Tags(cues[i].text) == []
        ensures p.maps[i] == [] && Reinsert(parsed.texts[i], p.maps[i]).1
      {
        UntaggedNeverFails(parsed.texts[i]);
      }
      if Reinsert(parsed.texts[k], p.maps[k]).1 {
        BlankCueIff(cues[k].text, parsed.texts[k]);
      }
    }
  }

  // ---- what becomes of a blank text ------------------------------------------------------

  lemma BracketsSolid(c: char)
    requires c == '(' || c == ')' || c == '[' || c == ']'
    ensures !IsSpace(c)
  {
  }

  /** The envelope pass hides a blank text exactly where the source is one bracketed whole: the cue then
      shows an empty pair of brackets. */
  lemma EnvelopeHidesBlank(src: SubLine, trn: SubLine)
    requires trn.raw.None?
    ensures Strip(Preserved(src, trn).text) == [] <==> Strip(trn.text) == [] && !Enclosed(Strip(src.text))
  {
    hide Strip, Scans, Depth;
    var s := Strip(src.text);
    if Enclosed(s) {
      BracketsSolid(s[0]);
      StripBlank(trn.text);
      StripBlank([s[0]] + trn.text + [Closer(s[0])]);
      assert ([s[0]] + trn.text + [Closer(s[0])])[0] == s[0];
      assert Wrapped(trn.text, s[0]) ==> Strip(trn.text) != [];
    }
  }

  /** The gate refuses a document for its second check exactly if some translatable cue is blank, and no
      repair is tried then. */
  lemma GateRefusesBlank(src: seq<SubLine>, trn: seq<SubLine>, lang: Language)
    ensures var v := Validate(src, trn, lang);
            (v.Fail? && v.check == 2)
            <==> |trn| == |src| && exists i :: 0 <= i < |trn| && trn[i].raw.None? && Strip(trn[i].text) == []
    ensures !Repairable(2)
  {
    hide Strip, Untranslated, Leaks;
    CheckNumbers(src, trn, lang);
    if |trn| == |src| {
      var k := FirstBad(EmptyText, src, trn, lang, 0);
      if k == |src| {
        forall i | 0 <= i < |src|
          ensures !(trn[i].raw.None? && Strip(trn[i].text) == [])
        {
          assert !Gate.Bad(EmptyText, src[i], trn[i], lang);
        }
      } else {
        assert Gate.Bad(EmptyText, src[k], trn[k], lang);
      }
    }
  }

  lemma CheckNumbers(src: seq<SubLine>, trn: seq<SubLine>, lang: Language)
    ensures Untranslated(src, trn, lang).Fail? ==> Untranslated(src, trn, lang).check == 3
    ensures forall t, n: nat :: Leaks(t, n, src, trn, lang).Fail? ==> Leaks(t, n, src, trn, lang).check == n
  {
  }

  // ---- a reply that does it --------------------------------------------------------------

  lemma TokenZero()
    ensures Key(0) == "<<T0>>" && TokenLen("<<T0>>") == 6 && NumberedEcho.Sendable("<<T0>>")
  {
    KeyIsToken(0, []);
    assert Key(0) + [] == Key(0);
    assert Decimal(0) == "0";
  }

  lemma TokenIsText()
    ensures NumberedEcho.Unmistakable("<<T0>>") && NumberedEcho.Marked("<<T0>>") == "<<T0>>"
  {
    var s := "<<T0>>";
    assert '\n' !in s[..6];
    NumberedEcho.MarkedPrefix(s, 6);
    assert s[..6] == s && s[6..] == [] && NumberedEcho.Marked([]) == [];
    assert !IsSpace('<') && !IsSpace('T');
    assert SpaceRun(s) == 0;
    forall i | 0 <= i < |s|
      ensures N.BrLen(s[i..]) == 0
    {
      NoBreakMark(s, i);
    }
  }

  lemma NoBreakMark(s: string, i: nat)
    requires s == "<<T0>>" && i < 6
    ensures N.BrLen(s[i..]) == 0
  {
    var t := s[i..];
    assert i > 0 || (t[2] == 'T' && !IsSpace('T'));
    if N.BrLen(t) > 0 {
      var a, b := NumberedEcho.BrParts(t);
    }
  }

  lemma TokenReads(multiline: Option<set<nat>>)
    ensures N.Read("[1] <<T0>>", 1, multiline) == N.Texts(["<<T0>>"])
  {
    hide *;
    TokenZero();
    TokenIsText();
    EchoedReply();
    OneLine();
    var texts: seq<string> := ["<<T0>>"];
    assert forall t :: t in texts ==> t == "<<T0>>";
    NumberedEcho.EchoIff(texts, [1], multiline);
  }

  lemma OneLine()
    ensures NumberedEcho.Permutation([1], 1)
  {
    var order: seq<nat> := [1];
    assert order[0] in order;
  }

  lemma NoTags(cues: seq<SubLine>)
    requires |cues| == 1 && cues[0].text == "Hi"
    ensures |Prepare(cues).cleaned| == 1 && Prepare(cues).maps == [[]]
  {
    Untagged(cues[0].text);
    hide Tags, Sentinel.Clean;
  }

  /** "[1] <<T0>>" is accepted as the translation of "Hi", and leaves the cue empty. */
  lemma BlankReplyAccepted(cues: seq<SubLine>)
    requires |cues| == 1 && cues[0].text == "Hi"
    ensures Judge(Prepare(cues), "[1] <<T0>>") == Good([""])
  {
    hide *;
    NoTags(cues);
    TokenReads(Some(Multiline(Prepare(cues).cleaned)));
    TokenZero();
    InventedTokenEmpties(0);
    JudgedAlone(Prepare(cues), "[1] <<T0>>", "<<T0>>", "");
  }

  lemma EchoedReply()
    ensures NumberedEcho.JoinLines(NumberedEcho.EchoLines(["<<T0>>"], [1])) == "[1] <<T0>>"
  {
    TokenIsText();
    TokenTrimmed();
    hide NumberedEcho.Marked, Strip, Trimmed;
    var lines := NumberedEcho.EchoLines(["<<T0>>"], [1]);
    assert Decimal(1) == "1";
    assert lines[0] == "[" + "1" + "] " + "<<T0>>";
    assert lines == [lines[0]];
  }

  lemma TokenTrimmed()
    ensures Strip("<<T0>>") == "<<T0>>"
  {
    assert Trimmed("<<T0>>");
    StripTrimmed("<<T0>>");
  }

  lemma Untagged(text: string)
    requires text == "Hi"
    ensures Tags(text) == []
  {
    assert text[1..] == "i" && text[1..][1..] == "";
    assert TagLen(text) == 0 && TagLen("i") == 0;
    assert Tags("") == [] && Tags("i") == [];
  }

  lemma JudgedAlone(p: Prepared, raw: string, s: string, text: string)
    requires |p.cleaned| == 1 && p.maps == [[]] && N.Read(raw, 1, Some(Multiline(p.cleaned))) == N.Texts([s])
    requires Reinsert(s, []) == (text, true)
    ensures Judge(p, raw) == Good([text])
  {
    hide Reinsert, N.Read;
    ReinsertedAt([s], p.maps);
  }
}
