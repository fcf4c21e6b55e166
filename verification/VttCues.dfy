/** What the VTT reader takes from a block: the timing pattern as a search for the longest start, and
    the cue of a block put together from its parts. */
module VttCues {
  import opened Options
  import opened Subtitles
  import opened Text
  import opened TextLines
  import opened Blocks
  import opened Vtt
  import opened VttLaws

  predicate Word(s: string) { |s| > 0 && forall k :: 0 <= k < |s| ==> !IsSpace(s[k]) }

  // ---- the timing pattern ----------------------------------------------------------------

  /** A start and an end without white space, an arrow between them with any white space around it,
      and after the end nothing or white space. */
  ghost predicate Shape(s: string, t: Times, before: string, after: string, rest: string)
  {
    && s == t.start + before + "-->" + after + t.end + rest
    && Word(t.start) && Word(t.end) && White(before) && White(after) && (rest == [] || IsSpace(rest[0]))
  }

  ghost predicate Timed(s: string, t: Times)
  {
    exists before, after, rest :: Shape(s, t, before, after, rest)
  }

  lemma {:induction false} WordRunIs(a: string, rest: string)
    requires (forall k :: 0 <= k < |a| ==> !IsSpace(a[k])) && (rest == [] || IsSpace(rest[0]))
    ensures WordRun(a + rest) == |a|
  {
    hide IsSpace;
    if |a| == 0 {
      assert a + rest == rest;
    } else {
      WordRunIs(a[1..], rest);
      assert (a + rest)[1..] == a[1..] + rest;
    }
  }

  lemma {:induction false} WordRunFacts(s: string)
    ensures forall k :: 0 <= k < WordRun(s) ==> !IsSpace(s[k])
    ensures WordRun(s) < |s| ==> IsSpace(s[WordRun(s)])
  {
    hide IsSpace;
    if |s| > 0 && !IsSpace(s[0]) {
      WordRunFacts(s[1..]);
      forall k | 0 <= k < WordRun(s)
        ensures !IsSpace(s[k])
      {
        assert k > 0 ==> s[k] == s[1..][k - 1];
      }
    }
  }

  lemma {:induction false} StartLenLongest(s: string, k: nat)
    requires k <= |s|
    ensures var n := StartLen(s, k);
            (n > 0 ==> ArrowHere(s[n..])) && forall j :: n < j <= k ==> !ArrowHere(s[j..])
  {
    hide ArrowHere;
    if k > 0 && !ArrowHere(s[k..]) {
      StartLenLongest(s, k - 1);
    }
  }

  /** The times the reader takes for a start of `n` characters. */
  function TimesAt(s: string, n: nat): (t: Times)
    requires n <= |s| && ArrowHere(s[n..])
    ensures |t.start| == n
  {
    Times(s[..n], EndOf(s[n..]))
  }

  /** What follows a start, put together and taken apart. */
  lemma ArrowBuilt(before: string, after: string, end: string, rest: string)
    requires White(before) && White(after) && Word(end) && (rest == [] || IsSpace(rest[0]))
    ensures ArrowHere(before + ("-->" + (after + (end + rest)))) && EndOf(before + ("-->" + (after + (end + rest)))) == end
  {
    hide IsSpace, WordRun;
    ArrowIsNoSpace();
    var y := after + (end + rest);
    var x := before + ("-->" + y);
    SpacesThen(before, "-->" + y);
    SpacesThen(after, end + rest);
    WordRunIs(end, rest);
    assert x[|before|..|before| + 3] == "-->" && x[|before| + 3..] == y && y[|after|..] == end + rest;
  }

  ghost predicate Parts(x: string, before: string, after: string, end: string, rest: string)
  {
    x == before + ("-->" + (after + (end + rest)))
    && White(before) && White(after) && Word(end) && (rest == [] || IsSpace(rest[0]))
  }

  lemma ArrowParts(x: string) returns (before: string, after: string, rest: string)
    requires ArrowHere(x)
    ensures Parts(x, before, after, EndOf(x), rest)
  {
    hide IsSpace, WordRun, ArrowHere, PastSpaces, FirstWord, PastArrow;
    before := ArrowHead(x);
    var y := PastArrow(x);
    after := SpaceHead(y);
    rest := WordHead(PastSpaces(y));
  }

  lemma ArrowHead(x: string) returns (before: string)
    requires ArrowHere(x)
    ensures x == before + ("-->" + PastArrow(x)) && White(before)
    ensures PastSpaces(PastArrow(x)) != [] && !IsSpace(PastSpaces(PastArrow(x))[0])
  {
    hide IsSpace;
    before := x[..SpaceRun(x)];
    var y := PastArrow(x);
    assert PastSpaces(y)[0] == y[SpaceRun(y)];
    Halves(x, before, "-->", y);
  }

  lemma SpaceHead(y: string) returns (after: string)
    ensures y == after + PastSpaces(y) && White(after)
  {
    hide IsSpace;
    after := y[..SpaceRun(y)];
  }

  lemma WordHead(z: string) returns (rest: string)
    requires z != [] && !IsSpace(z[0])
    ensures z == FirstWord(z) + rest && Word(FirstWord(z)) && (rest == [] || IsSpace(rest[0]))
  {
    hide IsSpace, WordRun;
    WordRunFacts(z);
    WordStarts(z);
    rest := z[WordRun(z)..];
  }

  lemma Halves(x: string, before: string, arrow: string, y: string)
    requires |before| + |arrow| <= |x| && x[..|before|] == before && x[|before|..|before| + |arrow|] == arrow
    requires x[|before| + |arrow|..] == y
    ensures x == before + (arrow + y)
  {
    assert x[|before|..] == arrow + y;
  }

  lemma WordStarts(z: string)
    requires |z| > 0 && !IsSpace(z[0])
    ensures WordRun(z) > 0
  {
  }

  lemma ShapeArrow(s: string, t: Times, before: string, after: string, rest: string)
    requires Shape(s, t, before, after, rest)
    ensures |t.start| <= WordRun(s) && ArrowHere(s[|t.start|..]) && TimesAt(s, |t.start|) == t
  {
    hide IsSpace, WordRun, ArrowHere, EndOf;
    var x := before + ("-->" + (after + (t.end + rest)));
    assert s == t.start + x;
    assert s[|t.start|..] == x && s[..|t.start|] == t.start;
    ArrowBuilt(before, after, t.end, rest);
    WordPrefix(t.start, x);
  }

  lemma ArrowIsNoSpace()
    ensures !IsSpace('-') && !IsSpace('>')
  {
  }

  lemma {:induction false} WordPrefix(a: string, x: string)
    requires forall k :: 0 <= k < |a| ==> !IsSpace(a[k])
    ensures WordRun(a + x) >= |a|
  {
    hide IsSpace;
    if |a| > 0 {
      assert (a + x)[1..] == a[1..] + x;
      WordPrefix(a[1..], x);
    }
  }

  lemma ArrowShape(s: string, n: nat)
    requires 0 < n <= WordRun(s) && ArrowHere(s[n..])
    ensures Timed(s, TimesAt(s, n))
  {
    hide *;
    WordRunFacts(s);
    var before, after, rest := ArrowParts(s[n..]);
    FromParts(s, n, before, after, rest);
  }

  lemma FromParts(s: string, n: nat, before: string, after: string, rest: string)
    requires 0 < n <= WordRun(s) && ArrowHere(s[n..]) && forall k :: 0 <= k < WordRun(s) ==> !IsSpace(s[k])
    requires Parts(s[n..], before, after, EndOf(s[n..]), rest)
    ensures Timed(s, TimesAt(s, n))
  {
    hide IsSpace, ArrowHere, EndOf, WordRun;
    var t := TimesAt(s, n);
    Joined(s, t.start, before, after, t.end, rest);
    assert Shape(s, t, before, after, rest);
  }

  lemma Joined(s: string, start: string, before: string, after: string, end: string, rest: string)
    requires |start| <= |s| && s[..|start|] == start && s[|start|..] == before + ("-->" + (after + (end + rest)))
    ensures s == start + before + "-->" + after + end + rest
  {
    assert s == start + s[|start|..];
  }

  lemma TimedArrow(s: string, t: Times)
    requires Timed(s, t)
    ensures 0 < |t.start| <= WordRun(s) && ArrowHere(s[|t.start|..]) && TimesAt(s, |t.start|) == t
  {
    var before, after, rest :| Shape(s, t, before, after, rest);
    ShapeArrow(s, t, before, after, rest);
    hide ArrowHere, WordRun, TimesAt;
  }

  /** The reader splits a timing line if and only if it has that shape, and of all the ways to see the
      shape in it, it takes the one with the longest start. */
  lemma SplitTimesIff(s: string, t: Times)
    ensures SplitTimes(s) == Some(t) <==> Timed(s, t) && forall u :: Timed(s, u) ==> |u.start| <= |t.start|
  {
    hide *;
    var n := StartLen(s, WordRun(s));
    StartLenLongest(s, WordRun(s));
    SplitIs(s);
    forall u | Timed(s, u)
      ensures 0 < |u.start| <= n
    {
      TimedArrow(s, u);
    }
    if n > 0 {
      ArrowShape(s, n);
    }
    if Timed(s, t) {
      TimedArrow(s, t);
    }
  }

  lemma SplitIs(s: string)
    ensures var n := StartLen(s, WordRun(s)); SplitTimes(s) == if n == 0 then None else Some(TimesAt(s, n))
  {
    hide WordRun, StartLen, ArrowHere, EndOf;
  }

  /** Another arrow further on would have to stand after the end's beginning. */
  lemma ArrowBeyond(start: string, after: string, x: string, p: nat)
    requires White(after) && p > |start| && At(start + ("-->" + (after + x)), p, "-->")
    ensures exists k :: 0 <= k <= |x| && At(x, k, "-->")
  {
    hide White, At;
    ArrowIsNoSpace();
    var y := after + x;
    ArrowPlaces(start, y, p);
    var q := p - |start| - 3;
    BeyondSpaces(after, x, q);
    AtTail(after, x, q, "-->");
  }

  lemma ArrowPlaces(start: string, y: string, p: nat)
    requires p > |start| && At(start + ("-->" + y), p, "-->")
    ensures p >= |start| + 3 && At(y, p - |start| - 3, "-->") && y[p - |start| - 3] == '-'
  {
    var s := start + ("-->" + y);
    var n := |start|;
    AtIndex(s, p, "-->");
    assert s[p + 0] == '-' && s[p + 1] == '-' && s[p + 2] == '>';
    assert s[n..n + 3] == "-->" && s[n + 3..] == y;
    assert s[n + 1] == s[n..n + 3][1] && s[n + 2] == s[n..n + 3][2];
    AtTail(start + "-->", y, p, "-->");
    assert start + "-->" + y == s;
    assert y[p - n - 3] == s[p + 0];
  }

  lemma AtTail(a: string, x: string, p: nat, w: string)
    requires |a| <= p && At(a + x, p, w)
    ensures At(x, p - |a|, w)
  {
    assert x[p - |a|..p - |a| + |w|] == (a + x)[p..p + |w|];
  }

  lemma NoLonger(s: string, t: Times, before: string, after: string, rest: string, n: nat)
    requires Shape(s, t, before, after, rest) && (before != [] || !Contains(t.end + rest, "-->"))
    requires n <= WordRun(s) && ArrowHere(s[n..])
    ensures n <= |t.start|
  {
    hide IsSpace, WordRun, ArrowHere, Contains;
    var tail := "-->" + (after + (t.end + rest));
    assert s == t.start + (before + tail);
    if before != [] {
      StopsAtSpace(t.start, before, tail);
    } else {
      assert before + tail == tail;
      hide *;
      if n > |t.start| {
        ArrowSeen(s, n);
        ArrowBeyond(t.start, after, t.end + rest, n + SpaceRun(s[n..]));
        ContainsIff(t.end + rest, "-->");
      }
    }
  }

  lemma StopsAtSpace(start: string, before: string, tail: string)
    requires Word(start) && White(before) && before != []
    ensures WordRun(start + (before + tail)) == |start|
  {
    hide IsSpace, WordRun;
    assert (before + tail)[0] == before[0];
    WordRunIs(start, before + tail);
  }

  /** With white space before the arrow, or no arrow after it, there is no longer start to find. */
  lemma TimesRead(s: string, t: Times, before: string, after: string, rest: string)
    requires Shape(s, t, before, after, rest) && (before != [] || !Contains(t.end + rest, "-->"))
    ensures SplitTimes(s) == Some(t)
  {
    assert Timed(s, t);
    hide *;
    forall u | Timed(s, u)
      ensures |u.start| <= |t.start|
    {
      TimedArrow(s, u);
      NoLonger(s, t, before, after, rest, |u.start|);
    }
    SplitTimesIff(s, t);
  }

  lemma ArrowSeen(s: string, n: nat)
    requires n <= |s| && ArrowHere(s[n..])
    ensures At(s, n + SpaceRun(s[n..]), "-->")
  {
    var w := SpaceRun(s[n..]);
    assert s[n..][w..w + 3] == s[n + w..n + w + 3];
  }

  // ---- a block from its parts ------------------------------------------------------------

  /** The parts of a cue as it stands in a file: an identifier line, if any, the timing line, and the
      text, with the breaks between them. */
  datatype CueText = CueText(id: Option<string>, idBreak: string, start: string, before: string, after: string, end: string,
                             settings: string, timeBreak: string, text: string)

  function TimingText(c: CueText): string
  {
    c.start + c.before + "-->" + c.after + c.end + c.settings
  }

  function BlockText(c: CueText): string
  {
    (if c.id.Some? then c.id.value + c.idBreak else []) + TimingText(c) + c.timeBreak + c.text
  }

  predicate Keyword(line: string)
  {
    StartsWith(line, "NOTE") || StartsWith(line, "STYLE") || StartsWith(line, "REGION")
  }

  /** The parts fit together: times are words, what stands around the arrow is white space on the line,
      settings are set off, an identifier is one line without an arrow, the first line is no keyword,
      and either there is white space before the arrow or there is no other arrow after it. */
  predicate Fits(c: CueText)
  {
    && Word(c.start) && Word(c.end) && White(c.before) && White(c.after) && (c.settings == [] || IsSpace(c.settings[0]))
    && NoBreak(c.before) && NoBreak(c.after) && NoBreak(c.settings)
    && (c.before != [] || !Contains(c.end + c.settings, "-->"))
    && (UsualBreak(c.timeBreak, c.text) || (c.timeBreak == [] && c.text == []))
    && !Keyword(if c.id.Some? then c.id.value else TimingText(c))
    && (c.id.Some? ==> NoBreak(c.id.value) && !Contains(c.id.value, "-->") && UsualBreak(c.idBreak, TimingText(c)))
  }

  lemma WordHasNoBreak(s: string)
    requires Word(s)
    ensures NoBreak(s)
  {
    forall k | 0 <= k < |s|
      ensures !IsBreak(s[k])
    {
      assert !IsSpace(s[k]);
    }
  }

  lemma TimingPlain(c: CueText)
    requires Fits(c)
    ensures NoBreak(TimingText(c)) && TimingText(c) != [] && !IsSpace(TimingText(c)[0])
    ensures Contains(TimingText(c), "-->")
  {
    hide Contains, IsBreak, IsSpace;
    WordHasNoBreak(c.start);
    WordHasNoBreak(c.end);
    ArrowNoBreak();
    var t := TimingText(c);
    NoBreakConcat(c.start, c.before);
    NoBreakConcat(c.start + c.before, "-->");
    NoBreakConcat(c.start + c.before + "-->", c.after);
    NoBreakConcat(c.start + c.before + "-->" + c.after, c.end);
    NoBreakConcat(c.start + c.before + "-->" + c.after + c.end, c.settings);
    assert t[0] == c.start[0];
    ArrowInside(c.start + c.before, c.after + c.end + c.settings);
    assert t == c.start + c.before + "-->" + (c.after + c.end + c.settings);
  }

  lemma ArrowNoBreak()
    ensures NoBreak("-->")
  {
  }

  lemma NoBreakConcat(a: string, b: string)
    requires NoBreak(a) && NoBreak(b)
    ensures NoBreak(a + b)
  {
    hide IsBreak;
  }

  lemma ArrowInside(a: string, b: string)
    ensures Contains(a + "-->" + b, "-->")
  {
    hide Contains;
    var s := a + "-->" + b;
    assert s[|a|..|a| + 3] == "-->";
    assert At(s, |a|, "-->");
    ContainsIff(s, "-->");
  }

  /** Stripping a timing line takes white space off its end only, and leaves its shape. */
  lemma StrippedShape(c: CueText)
    requires Fits(c)
    ensures SplitTimes(Strip(TimingText(c))) == Some(Times(c.start, c.end))
  {
    hide IsSpace, SplitTimes, Contains, NoBreak, Keyword, UsualBreak;
    var t := TimingText(c);
    var core := c.start + c.before + "-->" + c.after + c.end;
    assert t == core + c.settings && t[0] == c.start[0];
    assert !IsSpace(t[0]);
    LStripNone(t);
    RStripTail(core, c.settings);
    var rest := c.settings[..|Strip(t)| - |core|];
    assert Strip(t) == core + rest;
    assert Shape(Strip(t), Times(c.start, c.end), c.before, c.after, rest);
    assert c.end + rest + c.settings[|rest|..] == c.end + c.settings;
    if Contains(c.end + rest, "-->") {
      ContainsMore(c.end + rest, c.settings[|rest|..]);
    }
    TimesRead(Strip(t), Times(c.start, c.end), c.before, c.after, rest);
  }

  lemma ContainsMore(a: string, b: string)
    requires Contains(a, "-->")
    ensures Contains(a + b, "-->")
  {
    hide Contains;
    ContainsIff(a, "-->");
    ContainsIff(a + b, "-->");
    var k :| 0 <= k <= |a| && At(a, k, "-->");
    assert (a + b)[k..k + 3] == a[k..k + 3];
    assert At(a + b, k, "-->");
  }

  lemma OneHeader(b: string, t: string, e: string, text: string, times: Times)
    requires b == t + e + text && Lines(b) == [t + e] + Lines(text) && Body(t + e) == t
    requires !IsNote(t) && HasArrow(t) && SplitTimes(Strip(t)) == Some(times)
    requires UsualBreak(e, text) || (e == [] && text == [])
    ensures Headers(b) == 1 && Identifier(b) == None && Timing(b) == t
    ensures CueOf(b) == SubLine([], times.start, times.end, text, None)
  {
    hide IsNote, HasArrow, SplitTimes, Strip, Lines, Body, Payload;
    PayloadAt(b, t, e, text);
    hide Break;
  }

  lemma TwoHeaders(b: string, id: string, d: string, t: string, e: string, text: string, times: Times)
    requires b == id + d + t + e + text && Lines(b) == [id + d, t + e] + Lines(text) && Body(id + d) == id && Body(t + e) == t
    requires !IsNote(id) && !HasArrow(id) && HasArrow(t) && SplitTimes(Strip(t)) == Some(times)
    requires t != [] && NoBreak(t) && (d == "\n" || d == "\r\n" || d == "\r")
    requires UsualBreak(e, text) || (e == [] && text == [])
    ensures Headers(b) == 2 && Identifier(b) == Some(id) && Timing(b) == t
    ensures CueOf(b) == SubLine([], times.start, times.end, text, None)
  {
    hide IsNote, HasArrow, SplitTimes, Strip, Lines, Body, Payload, NoBreak;
    PayloadAfterId(b, id, d, t, e, text);
    hide Break;
  }

  /** A block put together from such parts is a cue, and the cue read from it has exactly these times
      and this text, with the identifier and the timing line kept beside it. */
  lemma BlockReads(c: CueText)
    requires Fits(c)
    ensures var b := BlockText(c);
            && Headers(b) == (if c.id.Some? then 2 else 1)
            && Identifier(b) == c.id && Timing(b) == TimingText(c)
            && CueOf(b) == SubLine([], c.start, c.end, c.text, None)
  {
    hide IsSpace, IsBreak, SplitTimes, Strip, Contains, Headers, CueOf, Lines, Body;
    TimingPlain(c);
    StrippedShape(c);
    var t, times := TimingText(c), Times(c.start, c.end);
    var tail := t + c.timeBreak + c.text;
    FirstOf(t, c.timeBreak, c.text);
    if c.id.Some? {
      var id := c.id.value;
      assert tail != [] && tail[0] == t[0];
      FirstOf(id, c.idBreak, tail);
      assert BlockText(c) == id + c.idBreak + tail;
      assert BlockText(c) == id + c.idBreak + t + c.timeBreak + c.text;
      assert Lines(BlockText(c)) == [id + c.idBreak, t + c.timeBreak] + Lines(c.text);
      TwoHeaders(BlockText(c), id, c.idBreak, t, c.timeBreak, c.text, times);
    } else {
      assert BlockText(c) == tail;
      OneHeader(BlockText(c), t, c.timeBreak, c.text, times);
    }
  }

  lemma ContainsInside(a: string, x: string, c: string, p: string)
    requires Contains(x, p)
    ensures Contains(a + x + c, p)
  {
    hide Contains;
    ContainsIff(x, p);
    ContainsIff(a + x + c, p);
    var k :| 0 <= k <= |x| && At(x, k, p);
    assert (a + x + c)[|a| + k..|a| + k + |p|] == x[k..k + |p|];
    assert At(a + x + c, |a| + k, p);
  }

  lemma PlainPrefix(b: string, word: string)
    requires StartsWith(b, word) && NoBreak(word)
    ensures |word| <= |b| && forall j :: 0 <= j < |word| ==> !IsBreak(b[j])
  {
    hide IsBreak;
    AtIndex(b, 0, word);
    forall j | 0 <= j < |word|
      ensures !IsBreak(b[j])
    {
      assert b[0 + j] == word[j];
    }
  }

  lemma BreakAfter(b: string, body: string, e: string, rest: string)
    requires b == body + e + rest && (e == [] ==> rest == []) && (e != [] ==> IsBreak(e[0]))
    ensures |body| < |b| ==> IsBreak(b[|body|])
  {
    hide IsBreak;
    if e != [] {
      assert b[|body|] == e[0];
    }
  }

  lemma WordOfLine(b: string, body: string, e: string, rest: string, word: string)
    requires b == body + e + rest && NoBreak(word) && StartsWith(b, word)
    requires (e == [] ==> rest == []) && (e != [] ==> IsBreak(e[0]))
    ensures StartsWith(body, word)
  {
    hide IsBreak;
    PlainPrefix(b, word);
    BreakAfter(b, body, e, rest);
    if |body| >= |word| {
      assert b[..|word|] == body[..|word|];
    }
  }

  lemma KeywordLine(b: string, body: string, e: string, rest: string)
    requires b == body + e + rest && Keyword(b) && (e == [] ==> rest == []) && (e != [] ==> IsBreak(e[0]))
    ensures IsNote(body)
  {
    if StartsWith(b, "NOTE") {
      WordOfLine(b, body, e, rest, "NOTE");
    } else if StartsWith(b, "STYLE") {
      WordOfLine(b, body, e, rest, "STYLE");
    } else {
      WordOfLine(b, body, e, rest, "REGION");
    }
  }

  /** A block that starts with a keyword, or has no arrow at all, is no cue. */
  lemma OpaqueReads(b: string)
    requires Keyword(b) || !Contains(b, "-->")
    ensures Headers(b) == 0
  {
    hide Strip, SplitTimes, Contains, Tail, Body, BreakOf, Lines, NoBreak, Keyword, IsNote;
    WholeTail(b);
    if |Lines(b)| > 0 {
      BlockLine(b, 0);
      var body, e := Body(Lines(b)[0]), BreakOf(Lines(b)[0]);
      if Keyword(b) {
        KeywordLine(b, body, e, Tail(b, 1));
      } else {
        NoArrow(b, [], body, e + Tail(b, 1));
        if |Lines(b)| >= 2 {
          BlockLine(b, 1);
          var l := Lines(b)[1];
          NoArrow(b, body + e, Body(l), BreakOf(l) + Tail(b, 2));
        }
      }
    }
  }

  lemma NoArrow(b: string, a: string, x: string, c: string)
    requires !Contains(b, "-->") && b == a + x + c
    ensures !HasArrow(x)
  {
    hide Contains;
    if Contains(x, "-->") {
      ContainsInside(a, x, c, "-->");
    }
  }
}
