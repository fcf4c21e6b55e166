/** A file on which the lens law fails: a cue whose text ends in a vertical tab. */
module AssWitness {
  import opened Options
  import opened Subtitles
  import opened Text
  import opened TextLines
  import opened Blocks
  import opened Ass
  import opened AssRoundTrip
  import opened AssSections
  import opened AssLens
  import opened AssSwap
  import opened AssLensLaws

  const HEAD := "[Events]\n"
  const FORMAT := "Format:,,,\n"
  const CUE := "Dialogue:,,,X\U{b}"
  const LAST := "Y"

  function Four(): seq<string> { [HEAD, FORMAT, CUE, LAST] }

  lemma {:induction false} ExoticLine(content: string, c: char)
    requires NoBreak(content) && IsBreak(c)
    ensures OneLine(content + [c])
  {
    if |content| > 0 {
      assert (content + [c])[1..] == content[1..] + [c];
      ExoticLine(content[1..], c);
    }
  }

  lemma Plain()
    ensures NoBreak("[Events]") && NoBreak("Format:,,,") && NoBreak("Y") && NoBreak("Dialogue:,,,X")
    ensures IsBreak('\U{b}')
  {
  }

  lemma HeadLines()
    ensures OneLine(HEAD) && OneLine(FORMAT) && OneLine(LAST)
    ensures Content(HEAD) == "[Events]" && Content(FORMAT) == "Format:,,," && Content(LAST) == "Y"
  {
    Plain();
    hide NoBreak, OneLine, Ending, Content;
    assert HEAD == "[Events]" + "\n" && FORMAT == "Format:,,," + "\n" && LAST == "Y" + "";
    EndingOf("[Events]", "\n");
    EndingOf("Format:,,,", "\n");
    EndingOf("Y", "");
  }

  lemma CueLine()
    ensures OneLine(CUE) && Ending(CUE) == [] && Content(CUE) == CUE
  {
    Plain();
    hide NoBreak, OneLine, Ending;
    assert CUE == "Dialogue:,,,X" + ['\U{b}'];
    ExoticLine("Dialogue:,,,X", '\U{b}');
    LastOfEnding(CUE);
    assert Ending(CUE) == [];
  }

  lemma ChainOfFour(a: string, b: string, c: string, d: string)
    requires OneLine(a) && OneLine(b) && OneLine(c) && OneLine(d) && MayFollow(a, b) && MayFollow(b, c) && MayFollow(c, d)
    ensures LineChain([a, b, c, d])
  {
    hide OneLine, MayFollow;
  }

  lemma Follows()
    ensures MayFollow(HEAD, FORMAT) && MayFollow(FORMAT, CUE) && MayFollow(CUE, LAST)
  {
  }

  lemma FourLines()
    ensures LineChain(Four())
  {
    HeadLines();
    CueLine();
    Follows();
    hide OneLine, MayFollow, LineChain, Content, Ending;
    ChainOfFour(HEAD, FORMAT, CUE, LAST);
  }

  lemma SplitOnce(b: string, max: nat)
    requires max > 0
    ensures SplitMax("," + b, max) == [""] + SplitMax(b, max - 1)
  {
    assert "" + "," + b == "," + b;
    SplitFirst("", b, max);
  }

  lemma CueSplits()
    ensures SplitMax(CUE, 3) == ["Dialogue:", "", "", "X\U{b}"]
  {
    hide SplitMax;
    assert CUE == "Dialogue:" + "," + ("," + ("," + "X\U{b}"));
    SplitFirst("Dialogue:", "," + ("," + "X\U{b}"), 3);
    SplitOnce("," + "X\U{b}", 2);
    SplitOnce("X\U{b}", 1);
    SplitCases("X\U{b}", 0);
  }

  lemma FormatCounts()
    ensures Commas("Format:,,,"[7..]) == 3
  {
    assert "Format:,,,"[7..] == ",,,";
    assert ",,,"[1..] == ",," && ",,"[1..] == "," && ","[1..] == "";
  }

  lemma Starts()
    ensures !StartsWith("[Events]", "Format:") && !StartsWith("[Events]", "Comment:") && !StartsWith("[Events]", "Dialogue:")
    ensures StartsWith("Format:,,,", "Format:")
    ensures !StartsWith(CUE, "Format:") && !StartsWith(CUE, "Comment:") && StartsWith(CUE, "Dialogue:")
    ensures !StartsWith("Y", "Format:") && !StartsWith("Y", "Comment:") && !StartsWith("Y", "Dialogue:")
  {
    assert "[Events]"[0..7][0] == '[' && "[Events]"[0..8][0] == '[';
    assert "Format:,,,"[0..7] == "Format:";
    assert CUE[0..7][0] == 'D' && CUE[0..8][0] == 'D' && CUE[0..9] == "Dialogue:";
  }

  lemma FourFolded()
    ensures var st := Fold(Four());
            && st.ok && |st.segments| == 4 && |st.lines| == 1
            && st.segments[2] == AssSlot("Dialogue:,,,", [], 0) && st.lines[0].raw.None?
  {
    var ls := Four();
    HeadLines();
    CueLine();
    Starts();
    FormatCounts();
    CueSplits();
    hide LineChain, OneLine, MayFollow, StartsWith, SplitMax, Commas, Ending, Content, Strip;
    assert ls[..0] == [] && ls[..1][..0] == [] && ls[..2][..1] == ls[..1] && ls[..3][..2] == ls[..2];
    var s0 := Fold([]);
    assert s0 == Events(9, [], [], true);
    var s1 := Line(s0, HEAD);
    assert Fold(ls[..1]) == s1 by { assert ls[..1][0] == HEAD; }
    var s2 := Line(s1, FORMAT);
    assert s2.commas == 3;
    assert Fold(ls[..2]) == s2 by { assert ls[..2][1] == FORMAT; }
    var s3 := Line(s2, CUE);
    assert Fold(ls[..3]) == s3 by { assert ls[..3][2] == CUE; }
    var parts := SplitMax(CUE, 3);
    assert parts[..3] == ["Dialogue:", "", ""];
    CuePrefix();
    CuePlain();
    assert s3 == Slot(s2, "Dialogue:,,,", [], Cue(Strip(""), Strip(""), "X\U{b}"));
    var s4 := Line(s3, LAST);
    assert Fold(ls) == s4 by { assert ls[..3] == ls[..|ls| - 1]; }
  }

  lemma CuePrefix()
    ensures Joined(["Dialogue:", "", ""]) == "Dialogue:,,,"
  {
    JoinedCons("Dialogue:", ["", ""]);
    JoinedCons("", [""]);
    JoinedCons("", []);
    assert ["Dialogue:"] + ["", ""] == ["Dialogue:", "", ""] && [""] + [""] == ["", ""] && [""] + [] == [""];
    assert "" + "," + "" == ",";
    assert "" + "," + "," == ",,";
    assert "Dialogue:" + "," + ",," == "Dialogue:,,,";
  }

  lemma CuePlain()
    ensures !IsSpecial("X\U{b}")
  {
    assert "X\U{b}"[1..] == "\U{b}" && "\U{b}"[1..] == "";
  }

  // ---- the file --------------------------------------------------------------------------

  lemma FourIsSection()
    ensures var s := Concat(Four());
            && |s| > 9 && s[0] == '[' && OneSection(s) && !HasCrlf(s) && s[..9] == HEAD && LineEnding(s) == "\n"
  {
    var ls := Four();
    assert ls[1..] == [FORMAT, CUE, LAST] && ls[1..][1..] == [CUE, LAST] && [CUE, LAST][1..] == [LAST];
    assert Concat([LAST]) == LAST by { assert [LAST][1..] == []; }
    var s := HEAD + (FORMAT + (CUE + LAST));
    assert Concat(ls) == s;
    forall k: nat | 0 < k < |s|
      ensures s[k] != '[' && s[k] != '\r'
    {
      if k < 9 {
        assert s[k] == HEAD[k];
      } else if k < 20 {
        assert s[k] == FORMAT[k - 9];
      } else if k < 34 {
        assert s[k] == CUE[k - 20];
      } else {
        assert s[k] == LAST[k - 34];
      }
    }
    ContainsCrlf(s);
  }

  lemma NewlineAt(s: string, n: nat)
    requires n < |s| && s[n] == '\n' && forall k :: 0 <= k < n ==> s[k] != '\n'
    ensures Contains(s, "\n") && Before(s, "\n") == s[..n]
  {
    forall k: nat | k < n
      ensures !At(s, k, "\n")
    {
      assert s[k..k + 1][0] == s[k];
    }
    assert s[n..n + 1] == "\n";
    assert At(s, n, "\n");
  }

  lemma FourIsEvents()
    ensures IsEvents(Concat(Four()), "\n")
  {
    var s := Concat(Four());
    FourIsSection();
    HeadShape();
    StripTrimmed("[Events]");
    hide *;
    assert s[..9][8] == s[8];
    forall k | 0 <= k < 8
      ensures s[k] != '\n'
    {
      assert s[k] == s[..9][k];
    }
    NewlineAt(s, 8);
    assert s[..8] == s[..9][..8];
    IsEventsBy(s);
  }

  lemma HeadShape()
    ensures HEAD[8] == '\n' && HEAD[..8] == "[Events]" && forall k :: 0 <= k < 8 ==> HEAD[k] != '\n'
    ensures Trimmed("[Events]")
  {
  }

  lemma IsEventsBy(s: string)
    requires |s| > 0 && s[0] == '[' && Contains(s, "\n") && Before(s, "\n") == "[Events]" && Strip("[Events]") == "[Events]"
    ensures IsEvents(s, "\n")
  {
  }

  lemma FourRead()
    ensures var st := Fold(Four());
            Read(Concat(Four())) == Some(Document(Verbatim([]) + st.segments + Verbatim([]), st.lines, "\n"))
  {
    var s := Concat(Four());
    FourIsSection();
    FourIsEvents();
    FourLines();
    FourFolded();
    OneSectionFile(s);
    LinesOfChain(Four());
    hide *;
    EventsAtIs([s], "\n", 0);
    assert [s][..0] == [] && [s][0 + 1..] == [];
    ReadsAs(s, [s], 0, Four());
  }

  lemma OneSectionFile(s: string)
    requires OneSection(s)
    ensures Sections(s) == [s]
  {
    assert SectionChain([s]);
    SectionsOfChain([s]);
    assert Concat([s]) == s by { assert [s][1..] == []; }
  }

  /** Replacing the cue's text by `Z` and reading again does not give the document back. */
  lemma ExoticBreakLost()
    ensures Read(Concat(Four())).Some?
    ensures var doc := Read(Concat(Four())).value;
            var news := [None, None, Some("Z"), None];
            && Request(doc, news)
            && var d := Replaced(doc, news, 4); Writable(d) && Read(Write(d)) != Some(d)
  {
    var s := Concat(Four());
    FourRead();
    FourFolded();
    hide Read, Write, Writable, Replaced, Concat, Four, Fold;
    var doc := Read(s).value;
    var news := [None, None, Some("Z"), None];
    assert Segs(doc) == Fold(Four()).segments;
    assert Translatable(doc, 2) && !Closed(doc, 2);
    LensIff(s, news);
  }
}
