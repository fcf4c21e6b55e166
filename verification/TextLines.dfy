/** Text as a chain of lines, by the breaks `str.splitlines` knows. */
module TextLines {
  import opened Text

  // ---- concatenation from the front ------------------------------------------------------

  function Concat(parts: seq<string>): string
  {
    if |parts| == 0 then [] else parts[0] + Concat(parts[1..])
  }

  lemma {:induction false} ConcatAppend(a: seq<string>, b: seq<string>)
    ensures Concat(a + b) == Concat(a) + Concat(b)
  {
    if |a| == 0 {
      assert a + b == b;
    } else {
      assert (a + b)[1..] == a[1..] + b;
      ConcatAppend(a[1..], b);
    }
  }

  lemma {:induction false} LinesConcat(s: string)
    ensures Concat(Lines(s)) == s
    decreases |s|
  {
    if |s| > 0 {
      LinesConcat(s[LineLen(s)..]);
    }
  }

  predicate NoBreak(x: string) { forall k :: 0 <= k < |x| ==> !IsBreak(x[k]) }

  predicate EndsInBreak(l: string) { |l| > 0 && IsBreak(l[|l| - 1]) }

  // ---- lines -----------------------------------------------------------------------------

  predicate OneLine(l: string) { |l| > 0 && LineLen(l) == |l| }

  /** `b` may follow `a`: the break between them is not half of a CRLF. */
  predicate MayFollow(a: string, b: string)
  {
    |a| > 0 && |b| > 0 && IsBreak(a[|a| - 1]) && !(a[|a| - 1] == '\r' && b[0] == '\n')
  }

  ghost predicate LineChain(ls: seq<string>)
  {
    && (forall i :: 0 <= i < |ls| ==> OneLine(ls[i]))
    && (forall i :: 1 <= i < |ls| ==> MayFollow(ls[i - 1], ls[i]))
  }

  /** Breaks inside a line: none before its final break. */
  lemma {:induction false} BreakAtEnd(l: string)
    requires OneLine(l)
    ensures forall k :: 0 <= k < |l| - 1 && IsBreak(l[k]) ==> k == |l| - 2 && l[k] == '\r' && l[k + 1] == '\n'
    ensures forall k :: 0 <= k < |l| && l[k] == '\n' ==> k == |l| - 1
    ensures |l| >= 2 && l[|l| - 2] == '\r' ==> l[|l| - 1] == '\n'
  {
    if |l| > 1 && !IsBreak(l[0]) {
      assert OneLine(l[1..]);
      BreakAtEnd(l[1..]);
      forall k | 0 <= k < |l| - 1 && IsBreak(l[k])
        ensures k == |l| - 2 && l[k] == '\r' && l[k + 1] == '\n'
      {
        assert l[1..][k - 1] == l[k];
      }
      forall k | 0 <= k < |l| && l[k] == '\n'
        ensures k == |l| - 1
      {
        assert l[1..][k - 1] == l[k];
      }
      assert |l| >= 3 ==> l[1..][|l| - 3] == l[|l| - 2];
    }
  }

  lemma {:induction false} FirstLine(l: string, rest: string)
    requires OneLine(l) && (|rest| > 0 ==> MayFollow(l, rest))
    ensures LineLen(l + rest) == |l|
  {
    if |l| > 1 && !IsBreak(l[0]) {
      assert OneLine(l[1..]);
      assert (l + rest)[1..] == l[1..] + rest;
      FirstLine(l[1..], rest);
    }
  }

  lemma {:induction false} LinesOfChain(ls: seq<string>)
    requires LineChain(ls)
    ensures Lines(Concat(ls)) == ls
  {
    if |ls| > 0 {
      var rest := Concat(ls[1..]);
      assert |ls| > 1 ==> rest[0] == ls[1][0] && MayFollow(ls[0], ls[1]);
      assert LineChain(ls[1..]);
      FirstLine(ls[0], rest);
      LinesOfChain(ls[1..]);
      assert (ls[0] + rest)[..|ls[0]|] == ls[0] && (ls[0] + rest)[|ls[0]|..] == rest;
    }
  }

  lemma {:induction false} FirstIsLine(s: string)
    requires |s| > 0
    ensures OneLine(s[..LineLen(s)])
    ensures LineLen(s) < |s| ==> MayFollow(s[..LineLen(s)], s[LineLen(s)..])
  {
    if !IsBreak(s[0]) && |s| > 1 {
      FirstIsLine(s[1..]);
      assert s[..LineLen(s)][1..] == s[1..][..LineLen(s[1..])];
    }
  }

  lemma {:induction false} LinesChain(s: string)
    ensures LineChain(Lines(s))
    ensures |s| > 0 ==> |Lines(s)| > 0 && Lines(s)[0][0] == s[0]
    decreases |s|
  {
    if |s| > 0 {
      var n := LineLen(s);
      FirstIsLine(s);
      LinesChain(s[n..]);
      hide OneLine, MayFollow;
      var ls := Lines(s);
      forall i | 1 <= i < |ls|
        ensures MayFollow(ls[i - 1], ls[i])
      {
        FollowFirst(s, n, ls, i);
      }
    }
  }

  lemma FollowFirst(s: string, n: nat, ls: seq<string>, i: nat)
    requires |s| > 0 && n == LineLen(s) && ls == [s[..n]] + Lines(s[n..]) && 1 <= i < |ls|
    requires LineChain(Lines(s[n..])) && (n < |s| ==> MayFollow(s[..n], s[n..]) && Lines(s[n..])[0][0] == s[n])
    ensures MayFollow(ls[i - 1], ls[i])
  {
    if i > 1 {
      assert ls[i] == Lines(s[n..])[i - 1] && ls[i - 1] == Lines(s[n..])[i - 2];
    } else {
      assert ls[1] == Lines(s[n..])[0];
    }
  }

  /** A line whose first and last characters stay, or whose end did not matter, fits where it was. */
  lemma ChainReplace(ls: seq<string>, j: nat, l: string)
    requires LineChain(ls) && j < |ls| && OneLine(l) && l[0] != '\n'
    requires j + 1 < |ls| ==> l[|l| - 1] == ls[j][|ls[j]| - 1]
    ensures LineChain(ls[j := l])
  {
    var r := ls[j := l];
    forall i | 1 <= i < |r|
      ensures MayFollow(r[i - 1], r[i])
    {
      assert MayFollow(ls[i - 1], ls[i]);
    }
  }

  // ---- white space and line endings ------------------------------------------------------

  predicate White(s: string) { forall k :: 0 <= k < |s| ==> IsSpace(s[k]) }

  lemma SpacesThen(white: string, rest: string)
    requires White(white) && |rest| > 0 && !IsSpace(rest[0])
    ensures SpaceRun(white + rest) == |white|
  {
    hide IsSpace;
    var n := SpaceRun(white + rest);
    assert (white + rest)[|white|] == rest[0];
    if n < |white| {
      SpaceAt(white, rest, n);
    }
  }

  lemma SpaceAt(white: string, rest: string, k: nat)
    requires White(white) && k < |white|
    ensures IsSpace((white + rest)[k])
  {
    hide IsSpace;
    assert (white + rest)[k] == white[k];
  }

  lemma BeyondSpaces(white: string, rest: string, q: nat)
    requires White(white) && q < |white + rest| && !IsSpace((white + rest)[q])
    ensures q >= |white|
  {
    hide IsSpace;
    if q < |white| {
      SpaceAt(white, rest, q);
    }
  }

  lemma LStripNone(s: string)
    requires |s| > 0 && !IsSpace(s[0])
    ensures LStrip(s) == s && Strip(s) == RStrip(s)
  {
  }

  lemma {:induction false} RStripTail(core: string, tail: string)
    requires |core| > 0 && !IsSpace(core[|core| - 1])
    ensures |RStrip(core + tail)| >= |core| && RStrip(core + tail) == core + tail[..|RStrip(core + tail)| - |core|]
  {
    hide IsSpace;
    if tail == [] {
      assert core + tail == core;
    } else {
      var n := |tail| - 1;
      assert (core + tail)[..|core + tail| - 1] == core + tail[..n];
      RStripTail(core, tail[..n]);
      if IsSpace(tail[n]) {
        assert RStrip(core + tail) == RStrip(core + tail[..n]);
        assert tail[..n][..|RStrip(core + tail)| - |core|] == tail[..|RStrip(core + tail)| - |core|];
      } else {
        assert tail[..|tail|] == tail;
      }
    }
  }

  /** A usual line ending, one that the text after it does not extend. */
  predicate UsualBreak(e: string, after: string)
  {
    e == "\n" || e == "\r\n" || (e == "\r" && (after == [] || after[0] != '\n'))
  }

  lemma {:induction false} PlainLine(x: string, e: string)
    requires NoBreak(x) && (e == "\n" || e == "\r\n" || e == "\r" || (e == [] && x != []))
    ensures OneLine(x + e) && Body(x + e) == x
  {
    if |x| == 0 {
      assert x + e == e;
      EndingLine(e);
    } else if |x + e| > 1 {
      assert (x + e)[1..] == x[1..] + e;
      assert !IsBreak((x + e)[0]) by { assert (x + e)[0] == x[0]; }
      if |x| > 1 || e != [] {
        PlainLine(x[1..], e);
      }
      BodyPlain(x, e);
    } else {
      assert !IsBreak((x + e)[0]) by { assert (x + e)[0] == x[0]; }
    }
  }

  lemma EndingLine(e: string)
    requires e == "\n" || e == "\r\n" || e == "\r"
    ensures OneLine(e) && Body(e) == []
  {
  }

  lemma BodyPlain(x: string, e: string)
    requires NoBreak(x) && |x| > 0 && (e == "\n" || e == "\r\n" || e == "\r" || e == [])
    ensures Body(x + e) == x
  {
    var s := x + e;
    assert s[|x| - 1] == x[|x| - 1];
    assert e != [] ==> s[|x|] == e[0];
    assert |e| == 2 ==> s[|x| + 1] == e[1];
  }

  lemma FirstOf(x: string, e: string, rest: string)
    requires NoBreak(x) && (UsualBreak(e, rest) || (e == [] && rest == [] && x != []))
    ensures Lines(x + e + rest) == [x + e] + Lines(rest) && Body(x + e) == x
  {
    PlainLine(x, e);
    var l := x + e;
    if rest != [] {
      assert l[|l| - 1] == e[|e| - 1];
    }
    FirstLine(l, rest);
    assert (l + rest)[..|l|] == l && (l + rest)[|l|..] == rest;
    hide LineLen, Body;
  }
}
