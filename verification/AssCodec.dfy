/** The ASS reader and writer as the loops they are. */
module AssCodec {
  import opened Options
  import opened Subtitles
  import opened Text
  import opened Blocks
  import opened Ass

  predicate StartAt(s: string, p: nat)
  {
    p < |s| && s[p] == '[' && (p == 0 || s[p - 1] == '\n')
  }

  /** `starts` lists every section start before `n`, in order. */
  ghost predicate ListsStarts(s: string, starts: seq<nat>, n: nat)
  {
    && (forall i :: 0 <= i < |starts| ==> starts[i] < n && StartAt(s, starts[i]))
    && (forall i, j :: 0 <= i < j < |starts| ==> starts[i] < starts[j])
    && (forall p: nat :: p < n && StartAt(s, p) ==> p in starts)
  }

  function EndOf(s: string, starts: seq<nat>, i: nat): (e: int)
    requires i < |starts|
  {
    if i + 1 < |starts| then starts[i + 1] else |s|
  }

  lemma HeaderIsStart(s: string, from: nat, k: nat)
    requires from <= |s| && 0 < k
    ensures Header(s[from..], k) <==> StartAt(s, from + k) && from + k < |s|
  {
  }

  lemma NoStartBetween(s: string, starts: seq<nat>, i: nat, p: nat)
    requires ListsStarts(s, starts, |s|) && i < |starts| && starts[i] < p < EndOf(s, starts, i)
    ensures !StartAt(s, p)
  {
    forall j | 0 <= j < |starts|
      ensures starts[j] != p
    {
      assert j < i ==> starts[j] < starts[i];
      assert j > i + 1 ==> starts[i + 1] < starts[j];
    }
  }

  /** The next header after a start is the next start. */
  lemma CutAt(s: string, starts: seq<nat>, i: nat)
    requires ListsStarts(s, starts, |s|) && i < |starts|
    ensures starts[i] < EndOf(s, starts, i) <= |s|
    ensures NextHeader(s[starts[i]..], 1) == EndOf(s, starts, i) - starts[i]
  {
    var from, e := starts[i], EndOf(s, starts, i);
    forall k: nat | 0 < k < e - from
      ensures !Header(s[from..], k)
    {
      HeaderIsStart(s, from, k);
      NoStartBetween(s, starts, i, from + k);
    }
    if e < |s| {
      HeaderIsStart(s, from, e - from);
    }
  }

  lemma LeadingCut(s: string, starts: seq<nat>)
    requires |s| > 0 && ListsStarts(s, starts, |s|) && (|starts| > 0 ==> starts[0] > 0)
    ensures NextHeader(s, 1) == if |starts| > 0 then starts[0] else |s|
  {
    var e := if |starts| > 0 then starts[0] else |s|;
    assert s[0..] == s;
    forall k: nat | 0 < k < e
      ensures !Header(s, k)
    {
      HeaderIsStart(s, 0, k);
    }
    if e < |s| {
      HeaderIsStart(s, 0, e);
    }
  }

  method SectionStarts(s: string) returns (starts: seq<nat>)
    ensures ListsStarts(s, starts, |s|)
  {
    starts := [];
    for p := 0 to |s|
      invariant ListsStarts(s, starts, p)
    {
      if s[p] == '[' && (p == 0 || s[p - 1] == '\n') {
        starts := starts + [p];
      }
    }
  }

  lemma NoSections()
    ensures Sections([]) == []
  {
  }

  lemma CutStep(s: string, starts: seq<nat>, i: nat)
    requires ListsStarts(s, starts, |s|) && i < |starts|
    ensures starts[i] < EndOf(s, starts, i) <= |s|
    ensures Sections(s[starts[i]..]) == [s[starts[i]..EndOf(s, starts, i)]] + Sections(s[EndOf(s, starts, i)..])
  {
    hide ListsStarts, NextHeader, Header, EndOf;
    CutAt(s, starts, i);
    var from, e := starts[i], EndOf(s, starts, i);
    assert s[from..][..e - from] == s[from..e] && s[from..][e - from..] == s[e..];
  }

  lemma LeadingStep(s: string, starts: seq<nat>)
    requires |s| > 0 && ListsStarts(s, starts, |s|) && (|starts| > 0 ==> starts[0] > 0)
    ensures var e := if |starts| > 0 then starts[0] else |s|;
            e <= |s| && Sections(s) == [s[..e]] + Sections(s[e..])
  {
    hide ListsStarts, NextHeader, Header;
    LeadingCut(s, starts);
  }

  method CutSections(s: string) returns (pieces: seq<string>)
    requires |s| > 0
    ensures pieces == Sections(s)
  {
    var starts := SectionStarts(s);
    hide Sections, Header, NextHeader, StartAt;
    pieces := [];
    assert s[0..] == s;
    if |starts| == 0 || starts[0] > 0 {
      LeadingStep(s, starts);
      pieces := [s[..if |starts| > 0 then starts[0] else |s|]];
    }
    var i := 0;
    while i < |starts|
      invariant 0 <= i <= |starts|
      invariant Sections(s) == pieces + Sections(s[if i < |starts| then starts[i] else |s|..])
    {
      CutStep(s, starts, i);
      pieces := pieces + [s[starts[i]..EndOf(s, starts, i)]];
      i := i + 1;
    }
    assert s[|s|..] == [];
    NoSections();
  }

  method FindEvents(pieces: seq<string>, le: string) returns (k: nat)
    ensures k == EventsAt(pieces, le)
  {
    k := 0;
    while k < |pieces|
      invariant 0 <= k <= |pieces|
      invariant EventsAt(pieces, le) == k + EventsAt(pieces[k..], le)
    {
      hide IsEvents;
      if IsEvents(pieces[k], le) {
        return;
      }
      assert pieces[k..][1..] == pieces[k + 1..];
      k := k + 1;
    }
  }

  method ParseEventsSection(section: string) returns (segments: seq<AssSegment>, lines: seq<SubLine>, ok: bool)
    ensures var st := Fold(Lines(section)); ok == st.ok && (ok ==> segments == st.segments && lines == st.lines)
  {
    hide Fold, Strip, SplitMax, Cue, Joined, Ending, Content, Lines, StartsWith, Commas;
    var rawLines := Lines(section);
    FoldNothing();
    var commas := 9;
    segments, lines := [], [];
    var i := 0;
    while i < |rawLines|
      invariant 0 <= i <= |rawLines|
      invariant Fold(rawLines[..i]) == Events(commas, segments, lines, true)
    {
      var line := rawLines[i];
      FoldStep(rawLines, i);
      var ending := Ending(line);
      var content := Content(line);
      if StartsWith(content, "Format:") {
        FormatLong(content);
        var fields := Commas(content[7..]) + 1;
        if fields >= 2 {
          commas := fields - 1;
        }
        segments := segments + [AssOpaque(line)];
      } else if StartsWith(content, "Comment:") {
        segments := segments + [AssOpaque(line)];
      } else if StartsWith(content, "Dialogue:") {
        var parts := SplitMax(content, commas);
        if |parts| < commas + 1 {
          segments := segments + [AssSlot([], ending, |lines|)];
          lines := lines + [SubLine([], [], [], content, Some(content))];
        } else if |parts| < 3 {
          assert !Fold(rawLines[..i + 1]).ok;
          FailureStays(rawLines, i + 1);
          return segments, lines, false;
        } else {
          segments := segments + [AssSlot(Joined(parts[..commas]), ending, |lines|)];
          lines := lines + [Cue(Strip(parts[1]), Strip(parts[2]), parts[commas])];
        }
      } else {
        segments := segments + [AssOpaque(line)];
      }
      i := i + 1;
    }
    assert rawLines[..i] == rawLines;
    ok := true;
  }

  lemma FormatLong(content: string)
    requires StartsWith(content, "Format:")
    ensures |content| >= 7
  {
  }

  lemma FoldNothing()
    ensures forall lines: seq<string> :: |lines| == 0 ==> Fold(lines) == Events(9, [], [], true)
  {
  }

  lemma FoldStep(lines: seq<string>, i: nat)
    requires i < |lines|
    ensures Fold(lines[..i + 1]) == Line(Fold(lines[..i]), lines[i])
  {
    hide Line;
    assert lines[..i + 1][..i] == lines[..i];
  }

  lemma {:induction false} FailureStays(lines: seq<string>, n: nat)
    requires n <= |lines| && !Fold(lines[..n]).ok
    ensures !Fold(lines).ok
  {
    if n < |lines| {
      var m := |lines| - 1;
      assert lines[..m][..n] == lines[..n];
      FailureStays(lines[..m], n);
    } else {
      assert lines[..n] == lines;
    }
  }

  method ReadAss(text: string) returns (doc: Option<SubDoc>)
    ensures doc == Read(text)
  {
    hide Lines, Fold, IsEvents, Sections;
    var le := if Contains(text, "\r\n") then "\r\n" else "\n";
    var pieces := [[]];
    if |text| > 0 {
      pieces := CutSections(text);
    }
    var k := FindEvents(pieces, le);
    var segments: seq<AssSegment>, lines: seq<SubLine> := [], [];
    var i := 0;
    while i < |pieces|
      invariant 0 <= i <= |pieces|
      invariant i <= k ==> segments == Verbatim(pieces[..i]) && lines == []
      invariant i > k ==> Fold(Lines(pieces[k])).ok && lines == Fold(Lines(pieces[k])).lines
      invariant i > k ==>
        segments == Verbatim(pieces[..k]) + Fold(Lines(pieces[k])).segments + Verbatim(pieces[k + 1..i])
    {
      if i == k {
        var more, cues, ok := ParseEventsSection(pieces[i]);
        if !ok {
          return None;
        }
        segments, lines := segments + more, cues;
        assert pieces[k + 1..i + 1] == [];
        assert Verbatim([]) == [];
      } else {
        segments := segments + [AssOpaque(pieces[i])];
        VerbatimNext(pieces, i, if i < k then 0 else k + 1);
      }
      i := i + 1;
    }
    assert pieces[..|pieces|] == pieces && (k < |pieces| ==> pieces[k + 1..|pieces|] == pieces[k + 1..]);
    doc := Some(Document(segments, lines, le));
  }

  lemma VerbatimNext(pieces: seq<string>, i: nat, from: nat)
    requires i < |pieces|
    ensures from <= i ==> Verbatim(pieces[from..i + 1]) == Verbatim(pieces[from..i]) + [AssOpaque(pieces[i])]
    ensures pieces[0..i] == pieces[..i] && pieces[0..i + 1] == pieces[..i + 1]
  {
  }

  lemma NothingWritten(lines: seq<SubLine>)
    ensures forall g: seq<AssSegment> :: |g| == 0 ==> Slotted(g, lines) && Written(g, lines) == []
  {
  }

  lemma WrittenStep(segments: seq<AssSegment>, lines: seq<SubLine>, i: nat)
    requires i < |segments| && Slotted(segments, lines)
    ensures segments[i].AssSlot? ==> segments[i].subIndex < |lines|
    ensures Slotted(segments[..i], lines) && Slotted(segments[..i + 1], lines)
    ensures Written(segments[..i + 1], lines) == Written(segments[..i], lines) + Part(segments[i], lines)
  {
    hide Part;
    assert segments[i] in segments;
    assert segments[..i + 1][..i] == segments[..i];
    assert forall g :: g in segments[..i + 1] ==> g in segments;
    assert forall g :: g in segments[..i] ==> g in segments;
  }

  method WriteAss(doc: SubDoc) returns (text: string)
    requires Writable(doc)
    ensures text == Write(doc)
  {
    hide Slotted, Written;
    text := [];
    var segments := doc.envelope.segments;
    NothingWritten(doc.lines);
    var i := 0;
    while i < |segments|
      invariant 0 <= i <= |segments|
      invariant Slotted(segments[..i], doc.lines) && text == Written(segments[..i], doc.lines)
    {
      var g := segments[i];
      WrittenStep(segments, doc.lines, i);
      if g.AssOpaque? {
        text := text + g.raw;
      } else {
        var l := doc.lines[g.subIndex];
        text := text + (g.prefix + (if l.raw.Some? then l.raw.value else l.text) + g.lineEnding);
      }
      i := i + 1;
    }
    assert segments[..i] == segments;
  }
}
