/** Which blocks and separators are the cut of the text they make up. */
module BlockCuts {
  import opened Text
  import opened Blocks

  /** A separator and nothing else. */
  predicate IsSep(e: string)
  {
    e != [] && SepLen(e) == |e|
  }

  /** No separator begins inside a block that is followed by `e`. */
  predicate NoGap(b: string, e: string)
  {
    forall q :: 0 <= q < |b| ==> SepLen((b + e)[q..]) == 0
  }

  /** A block that is followed by `e` does not begin with a blank line. */
  predicate Fresh(b: string, e: string)
  {
    BlankLine(b + e) == 0
  }

  ghost predicate Tight(c: Cut)
  {
    && |c.blocks| == |c.seps| + 1
    && (forall k :: 0 <= k < |c.seps| ==> IsSep(c.seps[k]))
    && (forall k :: 0 <= k < |c.blocks| ==> NoGap(c.blocks[k], SepAt(c, k)))
    && (forall k :: 0 < k < |c.blocks| ==> Fresh(c.blocks[k], SepAt(c, k)))
  }

  // ---- a line is decided by its line feed ------------------------------------------------

  predicate Feeds(a: string, k: int)
  {
    0 <= k < |a| && a[k] == '\n'
  }

  lemma BlankLineLocal(a: string, y: string, k: nat)
    requires Feeds(a, k)
    ensures BlankLine(a + y) == BlankLine(a)
  {
    var r := BlankRun(a);
    assert r <= k;
    var n := BlankRun(a + y);
    assert forall m :: 0 <= m < r ==> (a + y)[m] == a[m];
    assert (a + y)[r] == a[r];
    assert n == r;
    assert (a + y)[r..] == a[r..] + y;
    NewlineLocal(a[r..], y);
  }

  lemma NewlineLocal(a: string, y: string)
    requires a != [] && (a[0] == '\r' ==> |a| > 1)
    ensures NewlineLen(a + y) == NewlineLen(a)
  {
    assert (a + y)[0] == a[0];
    assert |a| > 1 ==> (a + y)[1] == a[1];
  }

  /** Whether a separator begins here is decided by the second line feed. */
  lemma SepLocal(a: string, y: string, i: nat, j: nat)
    requires Feeds(a, i) && Feeds(a, j) && i < j
    ensures SepLen(a + y) == 0 <==> SepLen(a) == 0
  {
    hide BlankLine, BlankRun;
    NewlineLocal(a, y);
    var n := NewlineLen(a);
    if n > 0 {
      assert n <= j;
      assert (a + y)[n..] == a[n..] + y;
      assert a[n..][j - n] == '\n';
      BlankLineLocal(a[n..], y, j - n);
    }
  }

  lemma {:induction false} BlankLinesEnd(s: string)
    requires BlankLines(s) > 0
    ensures Feeds(s, BlankLines(s) - 1) && Feeds(s, BlankLine(s) - 1)
    decreases |s|
  {
    var n := BlankLine(s);
    assert s[n - 1] == s[BlankRun(s)..][NewlineLen(s[BlankRun(s)..]) - 1];
    if BlankLines(s[n..]) > 0 {
      BlankLinesEnd(s[n..]);
      assert s[n..][BlankLines(s[n..]) - 1] == s[BlankLines(s) - 1];
    }
  }

  /** A separator holds two line feeds, the second one at its end. */
  lemma SepFeeds(e: string)
    requires IsSep(e)
    ensures Feeds(e, NewlineLen(e) - 1) && Feeds(e, |e| - 1) && 0 < NewlineLen(e) < |e|
  {
    hide BlankLines, BlankLine;
    var n := NewlineLen(e);
    BlankLinesEnd(e[n..]);
    assert e[n..][|e| - n - 1] == e[|e| - 1];
  }

  lemma {:induction false} BlankLinesThen(y: string, tail: string)
    requires BlankLines(y) == |y| && BlankLine(tail) == 0
    ensures BlankLines(y + tail) == |y|
    decreases |y|
  {
    hide BlankLine;
    if y == [] {
      assert y + tail == tail;
    } else {
      BlankLinesEnd(y);
      var n := BlankLine(y);
      BlankLineLocal(y, tail, n - 1);
      assert (y + tail)[n..] == y[n..] + tail;
      BlankLinesThen(y[n..], tail);
    }
  }

  /** Before a text that does not begin with a blank line, a separator ends where it ends. */
  lemma SepThen(e: string, tail: string)
    requires IsSep(e) && BlankLine(tail) == 0
    ensures SepLen(e + tail) == |e|
  {
    hide BlankLine;
    SepFeeds(e);
    var n := NewlineLen(e);
    NewlineLocal(e, tail);
    assert (e + tail)[n..] == e[n..] + tail;
    BlankLinesThen(e[n..], tail);
  }

  lemma {:induction false} BlankLinesAlone(s: string)
    ensures BlankLines(s[..BlankLines(s)]) == BlankLines(s)
    decreases |s|
  {
    hide BlankLine;
    var m, n := BlankLines(s), BlankLine(s);
    if n > 0 {
      BlankLinesEnd(s);
      assert s == s[..m] + s[m..];
      assert s[..m][n - 1] == s[n - 1];
      BlankLineLocal(s[..m], s[m..], n - 1);
      BlankLinesAlone(s[n..]);
      assert s[..m][n..] == s[n..][..m - n];
    }
  }

  lemma SepAlone(s: string)
    requires SepLen(s) > 0
    ensures IsSep(s[..SepLen(s)])
  {
    hide BlankLines;
    var n, m := NewlineLen(s), SepLen(s);
    var e := s[..m];
    BlankLinesAlone(s[n..]);
    assert e[n..] == s[n..][..m - n];
    assert e[0] == s[0] && (m > 1 ==> e[1] == s[1]);
    assert NewlineLen(e) == n;
  }

  // ---- the cut of a text -----------------------------------------------------------------

  lemma GapSame(b: string, e: string, t: string, q: nat)
    requires IsSep(e) && q <= |b|
    ensures SepLen((b + e + t)[q..]) == 0 <==> SepLen((b + e)[q..]) == 0
  {
    hide SepLen, IsSep;
    SepFeeds(e);
    var a := (b + e)[q..];
    var i, j := |b| - q + NewlineLen(e) - 1, |b| - q + |e| - 1;
    assert a[i] == e[NewlineLen(e) - 1] && a[j] == e[|e| - 1];
    assert (b + e + t)[q..] == a + t;
    SepLocal(a, t, i, j);
  }

  lemma FreshSame(b: string, e: string, t: string)
    requires IsSep(e)
    ensures BlankLine(b + e + t) == 0 <==> Fresh(b, e)
  {
    hide BlankLine, IsSep;
    SepFeeds(e);
    assert (b + e)[|b| + |e| - 1] == e[|e| - 1];
    BlankLineLocal(b + e, t, |b| + |e| - 1);
  }

  /** The first block of a woven text ends where its separator begins. */
  lemma FirstBlock(b: string, e: string, t: string)
    requires IsSep(e) && NoGap(b, e) && BlankLine(t) == 0
    ensures FirstSep(b + e + t) == |b| && SepLen((b + e + t)[|b|..]) == |e|
  {
    hide SepLen, FirstSep, BlankLine;
    var s := b + e + t;
    assert s[|b|..] == e + t;
    SepThen(e, t);
    forall q: nat | q < |b|
      ensures SepLen(s[q..]) == 0
    {
      GapSame(b, e, t, q);
    }
    assert e != [];
  }

  lemma LastBlock(b: string)
    requires NoGap(b, [])
    ensures FirstSep(b) == |b|
  {
    hide SepLen, FirstSep;
    assert b + [] == b;
  }

  lemma TailStarts(c: Cut)
    requires |c.blocks| == |c.seps| + 1 && (|c.seps| > 0 ==> IsSep(c.seps[0]))
    ensures BlankLine(Weave(c.blocks, c.seps, [])) == 0 <==> Fresh(c.blocks[0], SepAt(c, 0))
  {
    hide BlankLine, IsSep;
    if |c.seps| > 0 {
      FreshSame(c.blocks[0], c.seps[0], Weave(c.blocks[1..], c.seps[1..], []));
    } else {
      assert c.blocks[0] + [] == c.blocks[0];
    }
  }

  function Rest(c: Cut): Cut
    requires |c.blocks| > 0 && |c.seps| > 0
  {
    Cut(c.blocks[1..], c.seps[1..])
  }

  lemma TightRest(c: Cut)
    requires |c.blocks| == |c.seps| + 1 && |c.seps| > 0
    ensures Tight(c) <==> Tight(Rest(c)) && IsSep(c.seps[0]) && NoGap(c.blocks[0], c.seps[0]) && Fresh(c.blocks[1], SepAt(c, 1))
  {
    hide IsSep, NoGap, Fresh;
    var r := Rest(c);
    assert forall k :: 0 <= k < |r.blocks| ==> r.blocks[k] == c.blocks[k + 1] && SepAt(r, k) == SepAt(c, k + 1);
    assert forall k :: 0 < k < |c.blocks| ==> c.blocks[k] == r.blocks[k - 1] && SepAt(c, k) == SepAt(r, k - 1);
    assert forall k :: 0 < k < |c.seps| ==> c.seps[k] == r.seps[k - 1];
    assert forall k :: 0 <= k < |r.seps| ==> r.seps[k] == c.seps[k + 1];
  }

  /** What the first step of a cut leaves. */
  lemma CutStep(s: string)
    requires FirstSep(s) < |s|
    ensures var p := FirstSep(s); var n := SepLen(s[p..]);
            && n > 0 && p + n <= |s| && IsSep(s[p..p + n]) && NoGap(s[..p], s[p..p + n]) && BlankLine(s[p + n..]) == 0
  {
    hide *;
    var p := FirstSep(s);
    var n := SepLen(s[p..]);
    SepAlone(s[p..]);
    AfterSep(s[p..]);
    Slices(s, p, n);
    NoGapBefore(s[..p], s[p..p + n], s[p + n..]);
  }

  lemma Slices(s: string, p: nat, n: nat)
    requires p + n <= |s|
    ensures s[p..][..n] == s[p..p + n] && s[p..][n..] == s[p + n..] && s == s[..p] + s[p..p + n] + s[p + n..]
  {
  }

  lemma NoGapBefore(b: string, e: string, t: string)
    requires IsSep(e) && forall q :: 0 <= q < |b| ==> SepLen((b + e + t)[q..]) == 0
    ensures NoGap(b, e)
  {
    hide SepLen, IsSep;
    forall q | 0 <= q < |b|
      ensures SepLen((b + e)[q..]) == 0
    {
      GapSame(b, e, t, q);
    }
  }

  /** Cutting a text always leaves tight blocks. */
  lemma {:induction false} CutTight(s: string)
    ensures Tight(SplitBlocks(s))
    decreases |s|
  {
    hide SepLen, FirstSep, IsSep, BlankLine, Weave, NoGap, Fresh;
    var p := FirstSep(s);
    var c := SplitBlocks(s);
    if p == |s| {
      OneBlockTight(s);
    } else {
      var n := SepLen(s[p..]);
      CutStep(s);
      CutTight(s[p + n..]);
      SplitWeaves(s[p + n..], []);
      assert Rest(c) == SplitBlocks(s[p + n..]) && c.blocks[0] == s[..p] && c.seps[0] == s[p..p + n];
      SepsOf(Rest(c));
      TailStarts(Rest(c));
      assert SepAt(Rest(c), 0) == SepAt(c, 1);
      TightRest(c);
    }
  }

  lemma OneBlockTight(s: string)
    requires FirstSep(s) == |s|
    ensures Tight(Cut([s], []))
  {
    hide SepLen, FirstSep;
    assert s + [] == s;
  }

  lemma SepsOf(c: Cut)
    requires Tight(c)
    ensures forall k :: 0 <= k < |c.seps| ==> IsSep(c.seps[k])
  {
  }

  lemma AfterSep(s: string)
    requires SepLen(s) > 0
    ensures BlankLine(s[SepLen(s)..]) == 0
  {
    hide BlankLine, BlankLines;
    var n := NewlineLen(s);
    BlankLinesMaximal(s[n..]);
    assert s[n..][BlankLines(s[n..])..] == s[SepLen(s)..];
  }

  /** Blocks and separators are the cut of the text they make up if and only if they are tight. */
  lemma {:induction false} CutIff(c: Cut)
    requires |c.blocks| == |c.seps| + 1
    ensures SplitBlocks(Weave(c.blocks, c.seps, [])) == c <==> Tight(c)
    decreases |c.seps|
  {
    hide SepLen, FirstSep, IsSep, NoGap, Fresh, BlankLine;
    var s := Weave(c.blocks, c.seps, []);
    CutTight(s);
    if Tight(c) {
      if |c.seps| == 0 {
        assert SepAt(c, 0) == [];
        LastBlock(c.blocks[0]);
      } else {
        TightRest(c);
        CutIff(Rest(c));
        SepsOf(Rest(c));
        TailStarts(Rest(c));
        assert SepAt(Rest(c), 0) == SepAt(c, 1);
        var t := Weave(c.blocks[1..], c.seps[1..], []);
        FirstBlock(c.blocks[0], c.seps[0], t);
        assert s == c.blocks[0] + c.seps[0] + t;
        SepFeeds(c.seps[0]);
        CutHead(c.blocks[0], c.seps[0], t);
        assert c.blocks == [c.blocks[0]] + c.blocks[1..] && c.seps == [c.seps[0]] + c.seps[1..];
      }
    }
  }

  lemma CutHead(b: string, e: string, t: string)
    requires e != [] && FirstSep(b + e + t) == |b| && SepLen((b + e + t)[|b|..]) == |e|
    ensures SplitBlocks(b + e + t) == Cut([b] + SplitBlocks(t).blocks, [e] + SplitBlocks(t).seps)
  {
    hide SepLen, FirstSep;
    var s := b + e + t;
    assert s[..|b|] == b && s[|b|..|b| + |e|] == e && s[|b| + |e|..] == t;
  }
}
