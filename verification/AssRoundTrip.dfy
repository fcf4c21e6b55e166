/** The codec loses nothing: writing what was read gives the file back. */
module AssRoundTrip {
  import opened Options
  import opened Subtitles
  import opened Text
  import opened TextLines
  import opened Blocks
  import opened Ass

  // ---- sections and fields ---------------------------------------------------------------

  lemma {:induction false} SectionsConcat(s: string)
    ensures Concat(Sections(s)) == s
    decreases |s|
  {
    if |s| > 0 {
      SectionsConcat(s[NextHeader(s, 1)..]);
    }
  }

  /** The fields before the last, joined, and the last give the line. */
  ghost predicate Rejoins(s: string, parts: seq<string>)
  {
    |parts| > 0 && s == Joined(parts[..|parts| - 1]) + parts[|parts| - 1]
  }

  lemma RejoinsCons(s: string, c: nat, rest: seq<string>)
    requires c < |s| && s[c] == ',' && Rejoins(s[c + 1..], rest)
    ensures Rejoins(s, [s[..c]] + rest)
  {
    hide Joined;
    var front, last := rest[..|rest| - 1], rest[|rest| - 1];
    assert ([s[..c]] + rest)[..|rest|] == [s[..c]] + front;
    JoinedCons(s[..c], front);
    assert s == s[..c] + "," + s[c + 1..];
    assert s[..c] + "," + (Joined(front) + last) == s[..c] + "," + Joined(front) + last;
  }

  lemma RejoinsOne(s: string)
    ensures Rejoins(s, [s])
  {
    assert [s][..0] == [];
    assert [] + s == s;
  }

  /** Splitting loses nothing. */
  lemma {:induction false} SplitJoins(s: string, max: nat)
    ensures Rejoins(s, SplitMax(s, max))
    decreases max
  {
    hide *;
    SplitStep(s, max);
    if max > 0 && CommaAt(s) < |s| {
      SplitJoins(s[CommaAt(s) + 1..], max - 1);
      RejoinsCons(s, CommaAt(s), SplitMax(s[CommaAt(s) + 1..], max - 1));
    } else {
      RejoinsOne(s);
    }
  }

  lemma SplitStep(s: string, max: nat)
    ensures SplitMax(s, max) == if max == 0 || CommaAt(s) == |s| then [s]
                                else [s[..CommaAt(s)]] + SplitMax(s[CommaAt(s) + 1..], max - 1)
  {
  }

  lemma JoinedCons(head: string, front: seq<string>)
    ensures Joined([head] + front) == head + "," + Joined(front)
    ensures Joined([]) == [] && Commas([]) == 0
  {
    assert ([head] + front)[1..] == front;
  }

  // ---- writing ---------------------------------------------------------------------------

  lemma {:induction false} WrittenAppend(a: seq<AssSegment>, b: seq<AssSegment>, lines: seq<SubLine>)
    requires Slotted(a, lines) && Slotted(b, lines)
    ensures Slotted(a + b, lines) && Written(a + b, lines) == Written(a, lines) + Written(b, lines)
  {
    hide Part;
    if |b| == 0 {
      assert a + b == a;
    } else {
      var n := |b| - 1;
      assert forall g :: g in b[..n] ==> g in b;
      WrittenAppend(a, b[..n], lines);
      assert (a + b)[..|a + b| - 1] == a + b[..n] && (a + b)[|a + b| - 1] == b[n];
      assert Written(a + b, lines) == Written(a + b[..n], lines) + Part(b[n], lines);
    }
  }

  /** More cues at the end do not change what earlier slots write. */
  lemma {:induction false} WrittenMore(g: seq<AssSegment>, lines: seq<SubLine>, more: seq<SubLine>)
    requires Slotted(g, lines)
    ensures Slotted(g, lines + more) && Written(g, lines + more) == Written(g, lines)
  {
    if |g| > 0 {
      var n := |g| - 1;
      assert forall x :: x in g[..n] ==> x in g;
      assert g[n] in g;
      WrittenMore(g[..n], lines, more);
    }
  }

  lemma {:induction false} WrittenVerbatim(pieces: seq<string>, lines: seq<SubLine>)
    ensures Slotted(Verbatim(pieces), lines) && Written(Verbatim(pieces), lines) == Concat(pieces)
  {
    if |pieces| > 0 {
      var n := |pieces| - 1;
      WrittenVerbatim(pieces[..n], lines);
      assert Verbatim(pieces)[..n] == Verbatim(pieces[..n]);
      ConcatAppend(pieces[..n], [pieces[n]]);
      assert pieces[..n] + [pieces[n]] == pieces;
      assert Concat([pieces[n]]) == pieces[n] + Concat([pieces[n]][1..]) == pieces[n];
    }
  }

  // ---- the Events section ----------------------------------------------------------------

  /** What the loop has read so far writes back as the lines it has read. */
  predicate Faithful(st: Events, lines: seq<string>)
  {
    Slotted(st.segments, st.lines) && Written(st.segments, st.lines) == Concat(lines)
  }

  lemma OpaqueFaithful(st: Events, lines: seq<string>, line: string)
    requires Faithful(st, lines)
    ensures Faithful(Opaque(st, line), lines + [line])
  {
    assert Slotted([AssOpaque(line)], st.lines);
    WrittenAppend(st.segments, [AssOpaque(line)], st.lines);
    assert [AssOpaque(line)][..0] == [];
    assert Written([AssOpaque(line)], st.lines) == line;
    ConcatOne(lines, line);
  }

  lemma ConcatOne(lines: seq<string>, line: string)
    ensures Concat(lines + [line]) == Concat(lines) + line
  {
    ConcatAppend(lines, [line]);
    assert [line][1..] == [];
  }

  lemma SlotFaithful(st: Events, lines: seq<string>, line: string, prefix: string, cue: SubLine)
    requires Faithful(st, lines) && line == prefix + TextOut(cue) + Ending(line)
    ensures Faithful(Slot(st, prefix, Ending(line), cue), lines + [line])
  {
    var g := AssSlot(prefix, Ending(line), |st.lines|);
    var cues := st.lines + [cue];
    WrittenMore(st.segments, st.lines, [cue]);
    assert Slotted([g], cues);
    WrittenAppend(st.segments, [g], cues);
    assert [g][..0] == [];
    assert Written([g], cues) == line;
    ConcatOne(lines, line);
  }

  lemma DialogueFaithful(st: Events, lines: seq<string>, line: string)
    requires Faithful(st, lines) && Dialogue(st, line).ok
    ensures Faithful(Dialogue(st, line), lines + [line])
  {
    hide IsSpecial, Faithful, SplitMax, Joined, Strip, Ending;
    var content := Content(line);
    var parts := SplitMax(content, st.commas);
    assert line == content + Ending(line);
    if |parts| < st.commas + 1 {
      SlotFaithful(st, lines, line, [], SubLine([], [], [], content, Some(content)));
    } else if |parts| >= 3 {
      SplitJoins(content, st.commas);
      var cue := Cue(Strip(parts[1]), Strip(parts[2]), parts[st.commas]);
      assert TextOut(cue) == parts[st.commas];
      SlotFaithful(st, lines, line, Joined(parts[..st.commas]), cue);
    }
  }

  lemma LineOk(st: Events, line: string)
    ensures Line(st, line).ok ==> st.ok
  {
  }

  lemma EmptyFaithful()
    ensures Faithful(Events(9, [], [], true), [])
  {
  }

  lemma {:induction false} FoldFaithful(lines: seq<string>)
    requires Fold(lines).ok
    ensures Faithful(Fold(lines), lines)
  {
    hide Line, Faithful;
    assert Faithful(Events(9, [], [], true), []) by { EmptyFaithful(); }
    if |lines| > 0 {
      var n := |lines| - 1;
      var st := Fold(lines[..n]);
      LineOk(st, lines[n]);
      FoldFaithful(lines[..n]);
      assert lines == lines[..n] + [lines[n]];
      DialogueOrOpaque(st, lines[..n], lines[n]);
    }
  }

  lemma DialogueOrOpaque(st: Events, lines: seq<string>, line: string)
    requires st.ok && Faithful(st, lines) && Line(st, line).ok
    ensures Faithful(Line(st, line), lines + [line])
  {
    var content := Content(line);
    if StartsWith(content, "Format:") {
      var fields := Commas(content[7..]) + 1;
      OpaqueFaithful(if fields >= 2 then st.(commas := fields - 1) else st, lines, line);
    } else if !StartsWith(content, "Comment:") && StartsWith(content, "Dialogue:") {
      DialogueFaithful(st, lines, line);
    } else {
      OpaqueFaithful(st, lines, line);
    }
  }

  /** Writing what was read gives back the file, whatever it contains. */
  lemma WriteAfterRead(s: string)
    requires Read(s).Some?
    ensures Writable(Read(s).value) && Write(Read(s).value) == s
  {
    var le := LineEnding(s);
    var pieces := if |s| == 0 then [[]] else Sections(s);
    var k := EventsAt(pieces, le);
    SectionsConcat(s);
    assert |s| == 0 ==> Concat(pieces) == [] + Concat([[]][1..]) == [];
    assert Concat(pieces) == s;
    if k == |pieces| {
      WrittenVerbatim(pieces, []);
    } else {
      var ls := Lines(pieces[k]);
      var st := Fold(ls);
      FoldFaithful(ls);
      LinesConcat(pieces[k]);
      PiecesWritten(pieces, k, st);
    }
  }

  lemma PiecesWritten(pieces: seq<string>, k: nat, st: Events)
    requires k < |pieces| && Slotted(st.segments, st.lines) && Written(st.segments, st.lines) == pieces[k]
    ensures var g := Verbatim(pieces[..k]) + st.segments + Verbatim(pieces[k + 1..]);
            Slotted(g, st.lines) && Written(g, st.lines) == Concat(pieces)
  {
    hide Written, Slotted, Verbatim;
    var a, b := Verbatim(pieces[..k]), Verbatim(pieces[k + 1..]);
    WrittenVerbatim(pieces[..k], st.lines);
    WrittenVerbatim(pieces[k + 1..], st.lines);
    WrittenAppend(a, st.segments, st.lines);
    WrittenAppend(a + st.segments, b, st.lines);
    assert pieces == pieces[..k] + [pieces[k]] + pieces[k + 1..];
    ConcatOne(pieces[..k], pieces[k]);
    ConcatAppend(pieces[..k] + [pieces[k]], pieces[k + 1..]);
  }

  // ---- which files can be read -----------------------------------------------------------

  /** The field separators in force after some lines: those of the last Format line with any. */
  function InForce(lines: seq<string>): nat
  {
    if |lines| == 0 then 9
    else
      var content := Content(lines[|lines| - 1]);
      if StartsWith(content, "Format:") && Commas(content[7..]) > 0 then Commas(content[7..])
      else InForce(lines[..|lines| - 1])
  }

  /** A Dialogue line with a comma, under a Format of exactly two fields. */
  predicate Unreadable(lines: seq<string>, i: nat)
  {
    && i < |lines| && InForce(lines[..i]) == 1
    && StartsWith(Content(lines[i]), "Dialogue:") && CommaAt(Content(lines[i])) < |Content(lines[i])|
  }

  lemma OneKind(content: string)
    ensures StartsWith(content, "Format:") ==> !StartsWith(content, "Dialogue:") && !StartsWith(content, "Comment:")
    ensures StartsWith(content, "Dialogue:") ==> !StartsWith(content, "Comment:")
  {
    assert |content| >= 7 ==> content[0..7][0] == content[0];
    assert |content| >= 8 ==> content[0..8][0] == content[0];
    assert |content| >= 9 ==> content[0..9][0] == content[0];
  }

  /** One line: how it moves the separators in force, and when it cannot be read. */
  lemma LineReads(st: Events, line: string)
    requires st.ok && st.commas >= 1
    ensures var content := Content(line);
            && (Line(st, line).ok <==>
                  !(st.commas == 1 && StartsWith(content, "Dialogue:") && CommaAt(content) < |content|))
            && Line(st, line).commas
                 == if StartsWith(content, "Format:") && Commas(content[7..]) > 0 then Commas(content[7..]) else st.commas
  {
    hide Cue, Joined, Strip, Content, StartsWith, Commas;
    var content := Content(line);
    OneKind(content);
    SplitStep(content, st.commas);
  }

  lemma FailedStays(st: Events, line: string)
    requires !st.ok
    ensures !Line(st, line).ok
  {
  }

  ghost predicate Readable(lines: seq<string>)
  {
    forall i :: 0 <= i < |lines| ==> !Unreadable(lines, i)
  }

  lemma ReadableStep(lines: seq<string>)
    requires |lines| > 0
    ensures Readable(lines) <==> Readable(lines[..|lines| - 1]) && !Unreadable(lines, |lines| - 1)
  {
    hide Unreadable;
    var n := |lines| - 1;
    forall i: nat | i < n
      ensures Unreadable(lines[..n], i) <==> Unreadable(lines, i)
    {
      UnreadablePrefix(lines, n, i);
    }
  }

  lemma UnreadablePrefix(lines: seq<string>, n: nat, i: nat)
    requires i < n <= |lines|
    ensures Unreadable(lines[..n], i) == Unreadable(lines, i)
  {
    hide InForce, Content, StartsWith, CommaAt;
    assert lines[..n][..i] == lines[..i] && lines[..n][i] == lines[i];
  }

  lemma UnreadableLast(lines: seq<string>)
    requires |lines| > 0
    ensures var content := Content(lines[|lines| - 1]);
            Unreadable(lines, |lines| - 1)
              == (InForce(lines[..|lines| - 1]) == 1 && StartsWith(content, "Dialogue:") && CommaAt(content) < |content|)
  {
    hide InForce, Content, StartsWith, CommaAt;
  }

  /** An Events section is read if and only if every line of it can be. */
  lemma {:induction false} ReadsIff(lines: seq<string>)
    ensures Fold(lines).ok <==> Readable(lines)
    ensures Fold(lines).ok ==> Fold(lines).commas == InForce(lines) >= 1
  {
    hide Line, StartsWith, Content, CommaAt, Commas, Readable, Unreadable;
    if |lines| > 0 {
      var n := |lines| - 1;
      ReadsIff(lines[..n]);
      ReadableStep(lines);
      UnreadableLast(lines);
      if Fold(lines[..n]).ok {
        LineReads(Fold(lines[..n]), lines[n]);
      } else {
        FailedStays(Fold(lines[..n]), lines[n]);
      }
    } else {
      NothingUnreadable(lines);
    }
  }

  lemma NothingUnreadable(lines: seq<string>)
    requires |lines| == 0
    ensures Readable(lines)
  {
  }

  /** The reader raises exactly if the first Events section holds an unreadable line. */
  lemma ReadFailsIff(s: string)
    requires |s| > 0
    ensures var pieces := Sections(s);
            var k := EventsAt(pieces, LineEnding(s));
            Read(s).None? <==> k < |pieces| && !Readable(Lines(pieces[k]))
  {
    hide Readable, Sections, EventsAt, LineEnding, Lines, Fold, Verbatim;
    var pieces := Sections(s);
    var k := EventsAt(pieces, LineEnding(s));
    if k < |pieces| {
      ReadsIff(Lines(pieces[k]));
    }
  }
}
