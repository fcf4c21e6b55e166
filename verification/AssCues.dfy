/** What the ASS reader takes from a file: which section holds the events, how many fields a Format line
    announces, and the cue of a Dialogue line put together from its fields. */
module AssCues {
  import opened Options
  import opened Subtitles
  import opened Text
  import opened TextLines
  import opened Blocks
  import opened Ass
  import opened AssRoundTrip
  import opened AssSections
  import opened AssLens
  import opened AssLensLaws

  // ---- stripping -------------------------------------------------------------------------

  ghost predicate Around(x: string, a: string, core: string, b: string)
  {
    x == a + core + b && White(a) && White(b) && Trimmed(core)
  }

  /** White space, a core without white space at its ends, white space. */
  ghost predicate Padded(x: string, core: string)
  {
    exists a, b :: Around(x, a, core, b)
  }

  lemma LStripAround(a: string, rest: string)
    requires White(a) && |rest| > 0 && !IsSpace(rest[0])
    ensures LStrip(a + rest) == rest
  {
    hide IsSpace;
    var x := a + rest;
    var r := LStrip(x);
    assert x[|a|] == rest[0] && x[|a|..] == rest;
    assert forall k :: 0 <= k < |a| ==> IsSpace(x[k]);
    assert forall k :: 0 <= k < |r| ==> r[k] == x[|x| - |r| + k];
  }

  lemma RStripAround(core: string, b: string)
    requires White(b) && |core| > 0 && !IsSpace(core[|core| - 1])
    ensures RStrip(core + b) == core
  {
    hide IsSpace;
    var x := core + b;
    var r := RStrip(x);
    assert x[|core| - 1] == core[|core| - 1] && x[..|core|] == core;
    assert forall k :: |core| <= k < |x| ==> x[k] == b[k - |core|];
    assert forall k :: 0 <= k < |r| ==> r[k] == x[k];
  }

  lemma RStripTailWhite(l: string)
    ensures l == RStrip(l) + l[|RStrip(l)|..] && White(l[|RStrip(l)|..])
  {
    hide IsSpace, RStrip;
    var n := |RStrip(l)|;
    assert forall k :: 0 <= k < |l| - n ==> l[n..][k] == l[n + k];
  }

  lemma LStripHeadWhite(x: string)
    ensures x == x[..|x| - |LStrip(x)|] + LStrip(x) && White(x[..|x| - |LStrip(x)|])
  {
    hide IsSpace, LStrip;
    var n := |x| - |LStrip(x)|;
    assert forall k :: 0 <= k < n ==> x[..n][k] == x[k];
  }

  lemma StripCuts(x: string)
    ensures Padded(x, Strip(x))
  {
    hide IsSpace, LStrip, RStrip, White;
    var l, core := LStrip(x), Strip(x);
    RStripTailWhite(l);
    LStripHeadWhite(x);
    assert Around(x, x[..|x| - |l|], core, l[|core|..]);
  }

  lemma StripAround(x: string, a: string, core: string, b: string)
    requires Around(x, a, core, b)
    ensures Strip(x) == core
  {
    hide IsSpace, LStrip, RStrip;
    if core == [] {
      StripBlank(x);
    } else {
      assert x == a + (core + b) && (core + b)[0] == core[0];
      LStripAround(a, core + b);
      RStripAround(core, b);
    }
  }

  lemma StripIff(x: string, core: string)
    ensures Strip(x) == core <==> Padded(x, core)
  {
    StripCuts(x);
    hide Strip, Around;
    if Padded(x, core) {
      var a, b :| Around(x, a, core, b);
      StripAround(x, a, core, b);
    }
  }

  // ---- fields ----------------------------------------------------------------------------

  predicate Plain(f: string) { forall k :: 0 <= k < |f| ==> f[k] != ',' }

  lemma {:induction false} SplitBuilt(fields: seq<string>, text: string)
    requires forall f :: f in fields ==> Plain(f)
    ensures SplitMax(Joined(fields) + text, |fields|) == fields + [text]
  {
    hide SplitMax;
    if fields == [] {
      assert Joined(fields) + text == text;
      SplitCases(text, 0);
    } else {
      var front := Joined(fields[1..]) + text;
      assert Joined(fields) + text == fields[0] + "," + front;
      SplitBuilt(fields[1..], text);
      assert fields[0] in fields;
      SplitFirst(fields[0], front, |fields|);
      assert [fields[0]] + (fields[1..] + [text]) == fields + [text];
    }
  }

  lemma {:induction false} SplitShort(s: string, max: nat)
    ensures |SplitMax(s, max)| == max + 1 <==> Commas(s) >= max
    decreases max
  {
    hide Commas;
    var c := CommaAt(s);
    if c < |s| {
      assert s == s[..c] + "," + s[c + 1..];
      CountComma(s[..c], s[c + 1..]);
      if max > 0 {
        SplitShort(s[c + 1..], max - 1);
      }
    } else {
      NoCommas(s);
    }
  }

  lemma {:induction false} NoCommas(s: string)
    requires forall k :: 0 <= k < |s| ==> s[k] != ','
    ensures Commas(s) == 0
  {
    if |s| > 0 {
      NoCommas(s[1..]);
    }
  }

  lemma {:induction false} CountFields(fields: seq<string>, last: string)
    requires (forall f :: f in fields ==> Plain(f)) && Plain(last)
    ensures Commas(Joined(fields) + last) == |fields|
  {
    hide Commas;
    if fields == [] {
      assert Joined(fields) + last == last;
      NoCommas(last);
    } else {
      assert Joined(fields) + last == fields[0] + "," + (Joined(fields[1..]) + last);
      CountFields(fields[1..], last);
      assert fields[0] in fields;
      CountComma(fields[0], Joined(fields[1..]) + last);
    }
  }

  // ---- one Dialogue line -----------------------------------------------------------------

  /** What the ending of a line must be for the reader to take all of it off and nothing else. */
  predicate Ends(content: string, e: string)
  {
    && (e == "\r\n" || e == "\n" || e == "\r" || e == [])
    && |content| > 0 && content[|content| - 1] != '\r' && content[|content| - 1] != '\n'
  }

  lemma EndsRead(content: string, e: string)
    requires Ends(content, e)
    ensures Ending(content + e) == e && Content(content + e) == content
  {
    hide Ending, Content;
    var l := content + e;
    EndingCases(l);
    assert l[|content| - 1] == content[|content| - 1];
    assert |e| > 0 ==> l[|content|] == e[0];
    assert |e| > 1 ==> l[|content| + 1] == e[1];
    ContentOf(content, e);
  }

  /** Fields without commas, the first opening with the keyword, then a text with any commas; the second
      and third field are the times with white space around them. */
  ghost predicate Built(fields: seq<string>, start: string, end: string, text: string)
  {
    && |fields| >= 2 && (forall f :: f in fields ==> Plain(f)) && StartsWith(fields[0], "Dialogue:")
    && Padded(fields[1], start) && Padded((fields + [text])[2], end)
  }

  lemma {:induction false} JoinedFirst(fields: seq<string>, text: string)
    requires |fields| > 0 && StartsWith(fields[0], "Dialogue:")
    ensures StartsWith(Joined(fields) + text, "Dialogue:")
  {
    var s := Joined(fields) + text;
    assert s[..9] == fields[0][..9];
    assert fields[0][0..9] == fields[0][..9] && s[0..9] == s[..9];
  }

  /** Such a line is read as a slot with the fields as its prefix, and a cue with exactly these times and
      this text, raw exactly when the text holds a karaoke or drawing tag. */
  lemma DialogueReads(st: Events, fields: seq<string>, start: string, end: string, text: string, e: string)
    requires st.ok && st.commas == |fields| && Built(fields, start, end, text) && Ends(Joined(fields) + text, e)
    ensures var raw := if IsSpecial(text) then Some(text) else None;
            Line(st, Joined(fields) + text + e) == st.(
              segments := st.segments + [AssSlot(Joined(fields), e, |st.lines|)],
              lines := st.lines + [SubLine([], start, end, text, raw)])
  {
    hide SplitMax, Joined, Strip, Content, Ending, StartsWith, IsSpecial, Padded, Commas;
    var content := Joined(fields) + text;
    JoinedFirst(fields, text);
    OneKind(content);
    EndsRead(content, e);
    SplitBuilt(fields, text);
    var parts := fields + [text];
    assert parts[..|fields|] == fields && parts[1] == fields[1];
    StripIff(fields[1], start);
    StripIff(parts[2], end);
  }

  /** A Dialogue line of too few commas is kept whole. */
  lemma ShortReads(st: Events, content: string, e: string)
    requires st.ok && StartsWith(content, "Dialogue:") && Commas(content) < st.commas && Ends(content, e)
    ensures Line(st, content + e) == st.(
              segments := st.segments + [AssSlot([], e, |st.lines|)],
              lines := st.lines + [SubLine([], [], [], content, Some(content))])
  {
    hide SplitMax, Joined, Strip, Content, Ending, StartsWith, Commas;
    OneKind(content);
    EndsRead(content, e);
    SplitShort(content, st.commas);
  }

  // ---- karaoke and drawing tags ----------------------------------------------------------

  predicate Digits(d: string) { |d| > 0 && forall k :: 0 <= k < |d| ==> IsDigit(d[k]) }

  /** `{\k`, possibly one of `f`, `o`, `t`, `i`, digits and `}`; or `{\p`, digits of which the first is
      1 to 9, and `}`. */
  predicate Tag(t: string, marks: string, d: string)
  {
    && t == "{\\" + marks + d + "}" && Digits(d)
    && ((|marks| == 1 && IsK(marks[0])) || (|marks| == 2 && IsK(marks[0]) && IsKind(marks[1])) || (marks == "p" && '1' <= d[0] <= '9'))
  }

  ghost predicate TagAt(text: string, a: string, t: string, rest: string)
  {
    text == a + t + rest && exists marks, d :: Tag(t, marks, d)
  }

  lemma {:induction false} DigitsThenBrace(d: string, rest: string)
    requires forall k :: 0 <= k < |d| ==> IsDigit(d[k])
    ensures DigitRun(d + "}" + rest) == |d|
  {
    hide IsDigit;
    NoDigits();
    var s := d + "}" + rest;
    assert s[|d|] == '}';
    assert forall k :: 0 <= k < |d| ==> s[k] == d[k];
  }

  lemma NoDigits()
    ensures !IsDigit('}') && forall c :: IsKind(c) ==> !IsDigit(c)
  {
  }

  ghost predicate BraceRun(s: string, d: string, rest: string) { s == d + "}" + rest && Digits(d) }

  lemma BraceIff(s: string)
    ensures NumberBrace(s) <==> exists d, rest :: BraceRun(s, d, rest)
  {
    hide IsDigit;
    if NumberBrace(s) {
      var n := DigitRun(s);
      assert BraceRun(s, s[..n], s[n + 1..]);
    }
    if d, rest :| BraceRun(s, d, rest) {
      DigitsThenBrace(d, rest);
    }
  }

  lemma TagHere(s: string, t: string, rest: string, marks: string, d: string)
    requires s == t + rest && Tag(t, marks, d)
    ensures KaraokeHere(s) || DrawingHere(s)
  {
    hide IsDigit, NumberBrace, IsK, IsKind;
    var n := |marks| + 2;
    var numbers := d + "}" + rest;
    assert BraceRun(numbers, d, rest);
    BraceIff(numbers);
    assert s == "{\\" + marks + numbers && s[n..] == numbers;
    assert s[2] == marks[0] && (n == 4 ==> s[3] == marks[1]) && s[n] == d[0];
    if marks == "p" {
      assert s[3..] == numbers;
    }
  }

  lemma HereIsTag(s: string)
    requires KaraokeHere(s) || DrawingHere(s)
    ensures exists t, rest :: TagAt(s, [], t, rest)
  {
    hide IsDigit, NumberBrace, IsK, IsKind;
    var n := if NumberBrace(s[3..]) then 3 else 4;
    BraceIff(s[n..]);
    var d, rest :| BraceRun(s[n..], d, rest);
    var marks := s[2..n];
    var t := "{\\" + marks + d + "}";
    assert s == s[..n] + s[n..] && s[..n] == "{\\" + marks;
    assert s[n..][0] == s[n] && s[n..][0] == d[0];
    assert Tag(t, marks, d);
    assert s == [] + t + rest;
    assert TagAt(s, [], t, rest);
  }

  /** A text is kept from translation if and only if such a tag stands in it somewhere. */
  lemma {:induction false} SpecialIff(text: string)
    ensures IsSpecial(text) <==> exists a, t, rest :: TagAt(text, a, t, rest)
  {
    hide KaraokeHere, DrawingHere, Tag;
    if |text| > 0 {
      SpecialIff(text[1..]);
      if KaraokeHere(text) || DrawingHere(text) {
        HereIsTag(text);
      } else if IsSpecial(text[1..]) {
        var a, t, rest :| TagAt(text[1..], a, t, rest);
        assert text == [text[0]] + a + t + rest;
        assert TagAt(text, [text[0]] + a, t, rest);
      }
    }
    if a, t, rest :| TagAt(text, a, t, rest) {
      SpecialStep(text, a, t, rest);
    }
  }

  lemma SpecialStep(text: string, a: string, t: string, rest: string)
    requires TagAt(text, a, t, rest)
    requires |text| > 0 ==> (IsSpecial(text[1..]) <==> exists a, t, rest :: TagAt(text[1..], a, t, rest))
    ensures IsSpecial(text)
  {
    hide KaraokeHere, DrawingHere;
    var marks, d :| Tag(t, marks, d);
    if a == [] {
      assert text == t + rest;
      TagHere(text, t, rest, marks, d);
    } else {
      assert text[1..] == a[1..] + t + rest;
      assert TagAt(text[1..], a[1..], t, rest);
    }
  }

  // ---- the Format line in force ----------------------------------------------------------

  /** A Format line of at least two names. */
  ghost predicate Formats(line: string, names: seq<string>, last: string)
  {
    && |names| > 0 && (forall f :: f in names ==> Plain(f)) && Plain(last)
    && Content(line) == "Format:" + Joined(names) + last
  }

  predicate FormatWithComma(line: string)
  {
    StartsWith(Content(line), "Format:") && ',' in Content(line)
  }

  lemma {:induction false} HasComma(s: string)
    ensures Commas(s) > 0 <==> ',' in s
  {
    if |s| > 0 {
      HasComma(s[1..]);
      assert s == [s[0]] + s[1..];
    }
  }

  lemma CommaInBody(content: string)
    requires StartsWith(content, "Format:")
    ensures Commas(content[7..]) > 0 <==> ',' in content
  {
    assert content[0..7] == "Format:";
    assert content == "Format:" + content[7..];
    HasComma(content[7..]);
  }

  /** The last Format line of two names or more decides how many fields a Dialogue line has. */
  lemma {:induction false} ForceIs(ls: seq<string>, j: nat, names: seq<string>, last: string)
    requires j < |ls| && Formats(ls[j], names, last) && forall i :: j < i < |ls| ==> !FormatWithComma(ls[i])
    ensures InForce(ls) == |names|
  {
    hide Content, StartsWith, Commas, Joined, Formats;
    var n := |ls| - 1;
    if j < n {
      if StartsWith(Content(ls[n]), "Format:") {
        CommaInBody(Content(ls[n]));
      }
      ForceIs(ls[..n], j, names, last);
    } else {
      FormatRead(ls[j], names, last);
    }
  }

  lemma FormatRead(line: string, names: seq<string>, last: string)
    requires Formats(line, names, last)
    ensures StartsWith(Content(line), "Format:") && Commas(Content(line)[7..]) == |names| > 0
  {
    hide Commas, Joined, Content;
    var content := Content(line);
    CountFields(names, last);
    assert content == "Format:" + (Joined(names) + last);
    assert content[0..7] == "Format:" && content[7..] == Joined(names) + last;
  }

  /** Without one, ten fields. */
  lemma {:induction false} ForceIsNine(ls: seq<string>)
    requires forall l :: l in ls ==> !FormatWithComma(l)
    ensures InForce(ls) == 9
  {
    hide Content, StartsWith, Commas;
    if |ls| > 0 {
      var n := |ls| - 1;
      assert ls[n] in ls;
      if StartsWith(Content(ls[n]), "Format:") {
        CommaInBody(Content(ls[n]));
      }
      ForceIsNine(ls[..n]);
    }
  }

  // ---- the section of events -------------------------------------------------------------

  /** The piece opens with the section's name, then white space up to `n`, where its first line ends: at the
      line ending of the file if the piece has one, else at a newline, else at its end. */
  ghost predicate Titled(piece: string, n: nat, le: string)
  {
    && 8 <= n <= |piece| && piece[..8] == "[Events]" && (forall k :: 8 <= k < n ==> IsSpace(piece[k]))
    && (n == |piece| || At(piece, n, if Contains(piece, le) then le else "\n"))
  }

  lemma BeforeIs(s: string, sep: string)
    ensures |Before(s, sep)| <= |s| && Before(s, sep) == s[..|Before(s, sep)|]
    ensures Before(s, sep) == s || At(s, |Before(s, sep)|, sep)
    ensures forall k :: 0 <= k < |Before(s, sep)| ==> !At(s, k, sep)
  {
    hide At;
    ContainsIff(s, sep);
    assert s[..|s|] == s;
  }

  lemma IsTitled(piece: string, le: string)
    requires IsEvents(piece, le)
    ensures Titled(piece, |HeaderLine(piece, le)|, le)
  {
    hide IsSpace, At, Contains, Before, RStrip, LStrip;
    var h := HeaderLine(piece, le);
    BeforeIs(piece, if Contains(piece, le) then le else "\n");
    var r := RStrip(h);
    LStripNone(h);
    assert forall k :: 0 <= k < |h| ==> h[k] == piece[k];
    assert piece[..8] == h[..8];
  }

  lemma BracketsAreText()
    ensures !IsSpace('[') && !IsSpace(']')
  {
  }

  lemma TitledIs(piece: string, n: nat, le: string)
    requires (le == "\n" || le == "\r\n") && Titled(piece, n, le)
    ensures IsEvents(piece, le)
  {
    hide IsSpace, At, Contains, Before, RStrip, LStrip;
    var sep := if Contains(piece, le) then le else "\n";
    var h := HeaderLine(piece, le);
    BeforeIs(piece, sep);
    AtIndex(piece, |h|, sep);
    assert |h| < |piece| ==> piece[|h| + 0] == sep[0];
    assert forall k :: 0 <= k < 8 ==> piece[k] == "[Events]"[k];
    assert |h| >= 8;
    assert h == "[Events]" + h[8..];
    assert forall k :: 8 <= k < |h| ==> h[8..][k - 8] == piece[k];
    BracketsAreText();
    RStripAround("[Events]", h[8..]);
    LStripNone(h);
  }

  /** The events are the first piece with such a title. */
  lemma {:induction false} EventsAtIff(pieces: seq<string>, le: string, k: nat)
    requires (le == "\n" || le == "\r\n") && k <= |pieces|
    ensures EventsAt(pieces, le) == k <==>
              && (k < |pieces| ==> exists n :: Titled(pieces[k], n, le))
              && forall i :: 0 <= i < k ==> !exists n :: Titled(pieces[i], n, le)
  {
    hide IsEvents, Titled;
    if |pieces| > 0 {
      TitledIff(pieces[0], le);
      if k > 0 {
        EventsAtIff(pieces[1..], le, k - 1);
        assert k < |pieces| ==> pieces[1..][k - 1] == pieces[k];
        assert forall i :: 0 <= i < k - 1 ==> pieces[1..][i] == pieces[i + 1];
        assert (forall i :: 0 <= i < k - 1 ==> !exists n :: Titled(pieces[1..][i], n, le))
          <==> forall i :: 1 <= i < k ==> !exists n :: Titled(pieces[i], n, le) by {
          assert forall i :: 1 <= i < k ==> pieces[i] == pieces[1..][i - 1];
        }
      }
    }
  }

  lemma TitledIff(piece: string, le: string)
    requires le == "\n" || le == "\r\n"
    ensures IsEvents(piece, le) <==> exists n :: Titled(piece, n, le)
  {
    hide IsEvents, Titled;
    if IsEvents(piece, le) {
      IsTitled(piece, le);
    }
    if n :| Titled(piece, n, le) {
      TitledIs(piece, n, le);
    }
  }

  // ---- the whole file --------------------------------------------------------------------

  function Dialogues(ls: seq<string>): nat
  {
    if |ls| == 0 then 0 else Dialogues(ls[..|ls| - 1]) + if StartsWith(Content(ls[|ls| - 1]), "Dialogue:") then 1 else 0
  }

  lemma LineKind(st: Events, line: string)
    requires Line(st, line).ok
    ensures if StartsWith(Content(line), "Dialogue:") then |Line(st, line).lines| == |st.lines| + 1
            else Line(st, line).lines == st.lines && Line(st, line).segments == st.segments + [AssOpaque(line)]
  {
    hide Cue, SplitMax, Joined, Strip, Content, StartsWith, Commas;
    OneKind(Content(line));
  }

  lemma {:induction false} FoldCounts(ls: seq<string>)
    requires Fold(ls).ok
    ensures |Fold(ls).lines| == Dialogues(ls)
  {
    hide Line, StartsWith, Content;
    if |ls| > 0 {
      var n := |ls| - 1;
      LineAppends(Fold(ls[..n]), ls[n]);
      LineKind(Fold(ls[..n]), ls[n]);
      FoldCounts(ls[..n]);
    }
  }

  /** The file in pieces, each opening with a bracket at the start of a line but perhaps the first; the
      first piece with the title; that piece in lines, every one of them readable. */
  ghost predicate Laid(ps: seq<string>, k: nat, ls: seq<string>)
  {
    var le := LineEnding(Concat(ps));
    && SectionChain(ps) && k < |ps| && LineChain(ls) && ps[k] == Concat(ls) && Readable(ls)
    && (exists n :: Titled(ps[k], n, le)) && forall i :: 0 <= i < k ==> !exists n :: Titled(ps[i], n, le)
  }

  /** The document of such a file: one segment a piece outside the events and a line inside, verbatim but
      for the Dialogue lines, which have one cue each, in order. */
  lemma LaidReads(ps: seq<string>, k: nat, ls: seq<string>)
    requires Laid(ps, k, ls)
    ensures Read(Concat(ps)) == Some(Document(Verbatim(ps[..k]) + Fold(ls).segments + Verbatim(ps[k + 1..]), Fold(ls).lines, LineEnding(Concat(ps))))
    ensures |Fold(ls).segments| == |ls| && |Fold(ls).lines| == Dialogues(ls) && Fold(ls).ok
  {
    hide Titled, SectionChain, LineChain, Readable, LineEnding, Sections, Lines, Fold, EventsAt;
    var s := Concat(ps);
    SectionsOfChain(ps);
    LinesOfChain(ls);
    EndingIsOne(s);
    EventsAtIff(ps, LineEnding(s), k);
    ReadsIff(ls);
    FoldShape(ls);
    FoldCounts(ls);
    assert |s| > 0 by {
      assert Sections(s) == ps;
      SectionsOfNone();
    }
    ReadsAs(s, ps, k, ls);
  }

  lemma SectionsOfNone()
    ensures |Sections([])| == 0
  {
  }

  lemma Placed(ps: seq<string>, k: nat, mid: seq<AssSegment>, j: nat)
    requires k < |ps| && j < |ps| - 1 + |mid|
    ensures var all := Verbatim(ps[..k]) + mid + Verbatim(ps[k + 1..]);
            && |all| == |ps| - 1 + |mid|
            && all[j] == if j < k then AssOpaque(ps[j]) else if j < k + |mid| then mid[j - k] else AssOpaque(ps[j + 1 - |mid|])
  {
  }

  lemma LaidAt(ps: seq<string>, k: nat, ls: seq<string>, j: nat)
    requires Laid(ps, k, ls) && j < |ps| - 1 + |ls|
    ensures Fold(ls).ok && |Fold(ls).segments| == |ls| && |Fold(ls).lines| == Dialogues(ls)
    ensures Read(Concat(ps)).Some?
    ensures var doc := Read(Concat(ps)).value;
            && doc.lines == Fold(ls).lines && |Segs(doc)| == |ps| - 1 + |ls|
            && Segs(doc)[j] == if j < k then AssOpaque(ps[j]) else if j < k + |ls| then Fold(ls).segments[j - k] else AssOpaque(ps[j + 1 - |ls|])
  {
    hide Fold, Dialogues, Read, Concat, LineEnding, Verbatim;
    LaidReads(ps, k, ls);
    Placed(ps, k, Fold(ls).segments, j);
  }

  lemma LaidPlace(ps: seq<string>, k: nat, ls: seq<string>)
    requires Laid(ps, k, ls)
    ensures k < |ps|
  {
  }

  /** What a line adds to the document is what it adds to the lines before it. */
  lemma LaidLine(ps: seq<string>, k: nat, ls: seq<string>, i: nat)
    requires Laid(ps, k, ls) && i < |ls|
    ensures Read(Concat(ps)).Some?
    ensures var doc, st, r := Read(Concat(ps)).value, Fold(ls[..i]), Line(Fold(ls[..i]), ls[i]);
            && |Segs(doc)| == |ps| - 1 + |ls| && |doc.lines| == Dialogues(ls)
            && st.ok && r.ok && st.commas == InForce(ls[..i]) && |st.segments| == i && |st.lines| == Dialogues(ls[..i])
            && |r.segments| == i + 1 && Segs(doc)[k + i] == r.segments[i]
            && |r.lines| <= |doc.lines| && forall q :: 0 <= q < |r.lines| ==> doc.lines[q] == r.lines[q]
  {
    hide Laid, Fold, Line, InForce, Dialogues, Read, Concat, Segs;
    LaidPlace(ps, k, ls);
    LaidAt(ps, k, ls, k + i);
    FoldAt(ls, i);
    LineAppends(Fold(ls[..i]), ls[i]);
    ReadsIff(ls[..i]);
    FoldCounts(ls[..i]);
    var r, end := Line(Fold(ls[..i]), ls[i]), Fold(ls);
    assert forall q :: 0 <= q < |r.lines| ==> end.lines[..|r.lines|][q] == end.lines[q];
  }

  /** Line `i` of the events, made of as many fields as the Format line in force says, and a text: the
      document has at its place a slot with those fields and that ending, and as the cue of the slot,
      numbered by the Dialogue lines before it, exactly the times and the text of the line. */
  lemma FileReads(ps: seq<string>, k: nat, ls: seq<string>, i: nat, fields: seq<string>, start: string, end: string, text: string, e: string)
    requires Laid(ps, k, ls) && i < |ls| && ls[i] == Joined(fields) + text + e && InForce(ls[..i]) == |fields|
    requires Built(fields, start, end, text) && Ends(Joined(fields) + text, e)
    ensures Read(Concat(ps)).Some?
    ensures var doc, q := Read(Concat(ps)).value, Dialogues(ls[..i]);
            && |Segs(doc)| == |ps| - 1 + |ls| && Segs(doc)[k + i] == AssSlot(Joined(fields), e, q)
            && |doc.lines| == Dialogues(ls) > q
            && doc.lines[q] == SubLine([], start, end, text, if IsSpecial(text) then Some(text) else None)
  {
    hide Laid, Fold, InForce, IsSpecial, Line, Joined, Built, Ends, Dialogues, Read, Concat, Segs;
    LaidLine(ps, k, ls, i);
    DialogueReads(Fold(ls[..i]), fields, start, end, text, e);
  }

  /** Every other line of the events, and every other piece, is kept verbatim. */
  lemma RestVerbatim(ps: seq<string>, k: nat, ls: seq<string>, j: nat)
    requires Laid(ps, k, ls) && j < |ps| - 1 + |ls|
    requires k <= j < k + |ls| ==> !StartsWith(Content(ls[j - k]), "Dialogue:")
    ensures Read(Concat(ps)).Some?
    ensures var doc := Read(Concat(ps)).value;
            && |Segs(doc)| == |ps| - 1 + |ls|
            && Segs(doc)[j] == AssOpaque(if j < k then ps[j] else if j < k + |ls| then ls[j - k] else ps[j + 1 - |ls|])
  {
    hide Laid, Fold, Line, StartsWith, Content, InForce, Dialogues, Read, Concat, Segs;
    if k <= j < k + |ls| {
      LaidLine(ps, k, ls, j - k);
      LineKind(Fold(ls[..j - k]), ls[j - k]);
    } else {
      LaidAt(ps, k, ls, j);
    }
  }
}
