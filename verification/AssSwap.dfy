/** A file is cut into the same sections and lines after one Dialogue line is swapped for another. */
module AssSwap {
  import opened Text
  import opened TextLines
  import opened Blocks
  import opened Ass
  import opened AssRoundTrip
  import opened AssSections

  /** Two lines that look alike at both ends. */
  ghost predicate Alike(a: string, b: string)
  {
    && OneLine(a) && OneLine(b) && a[0] == 'D' && b[0] == 'D' && Ending(a) == Ending(b)
  }

  lemma AlikeEnds(a: string, b: string)
    requires Alike(a, b)
    ensures a[|a| - 1] == '\n' <==> b[|b| - 1] == '\n'
    ensures a[|a| - 1] == '\r' <==> b[|b| - 1] == '\r'
    ensures |Ending(a)| > 0 ==> IsBreak(b[|b| - 1]) && a[|a| - 1] == b[|b| - 1]
  {
    LastOfEnding(a);
    LastOfEnding(b);
  }

  lemma LastOfEnding(a: string)
    requires |a| > 0
    ensures a[|a| - 1] == '\n' <==> Ending(a) == "\r\n" || Ending(a) == "\n"
    ensures a[|a| - 1] == '\r' <==> Ending(a) == "\r"
    ensures Ending(a) == [] || Ending(a) == "\r\n" || Ending(a) == "\n" || Ending(a) == "\r"
  {
    assert a[|a| - 1..] == [a[|a| - 1]];
    if |a| >= 2 {
      assert a[|a| - 2..] == [a[|a| - 2], a[|a| - 1]];
    }
  }

  // ---- CRLF ------------------------------------------------------------------------------

  predicate CrlfAt(s: string, p: nat) { p + 1 < |s| && s[p] == '\r' && s[p + 1] == '\n' }

  ghost predicate HasCrlf(s: string) { exists p: nat :: CrlfAt(s, p) }

  lemma ContainsCrlf(s: string)
    ensures Contains(s, "\r\n") <==> HasCrlf(s)
  {
    if p: nat :| CrlfAt(s, p) {
      assert s[p..p + 2] == "\r\n";
      assert At(s, p, "\r\n");
    }
    if Contains(s, "\r\n") {
      var p := Find(s, "\r\n");
      assert s[p..p + 2][0] == '\r' && s[p..p + 2][1] == '\n';
      assert CrlfAt(s, p);
    }
  }

  lemma CrlfParts(a: string, b: string)
    requires |a| > 0 && |b| > 0 ==> !(a[|a| - 1] == '\r' && b[0] == '\n')
    ensures HasCrlf(a + b) <==> HasCrlf(a) || HasCrlf(b)
  {
    var s := a + b;
    if p: nat :| CrlfAt(s, p) {
      if p + 1 < |a| {
        assert CrlfAt(a, p);
      } else if p >= |a| {
        assert CrlfAt(b, p - |a|);
      }
    }
    if p: nat :| CrlfAt(a, p) {
      assert CrlfAt(s, p);
    }
    if p: nat :| CrlfAt(b, p) {
      assert CrlfAt(s, |a| + p);
    }
  }

  lemma CrlfLine(l: string)
    requires OneLine(l)
    ensures HasCrlf(l) <==> Ending(l) == "\r\n"
  {
    BreakAtEnd(l);
    hide OneLine;
    if p: nat :| CrlfAt(l, p) {
      assert p + 1 == |l| - 1;
      assert l[|l| - 2..] == "\r\n";
    }
    if Ending(l) == "\r\n" {
      assert l[|l| - 2..][0] == '\r' && l[|l| - 2..][1] == '\n';
      assert CrlfAt(l, |l| - 2);
    }
  }

  lemma CrlfSwap(x: string, a: string, b: string, y: string)
    requires Alike(a, b) && (|y| > 0 ==> MayFollow(a, y))
    ensures HasCrlf(x + a + y) <==> HasCrlf(x + b + y)
  {
    AlikeEnds(a, b);
    CrlfLine(a);
    CrlfLine(b);
    hide HasCrlf, OneLine, Ending;
    CrlfParts(x, a);
    CrlfParts(x, b);
    CrlfParts(x + a, y);
    CrlfParts(x + b, y);
  }

  // ---- sections --------------------------------------------------------------------------

  lemma NoHeaderAt(x: string, a: string, b: string, y: string, p: nat)
    requires Alike(a, b) && OneSection(x + a + y)
    ensures !Header(x + b + y, p)
  {
    var s, t := x + a + y, x + b + y;
    AlikeEnds(a, b);
    BreakAtEnd(b);
    hide OneLine, Ending;
    if 0 < p < |x| {
      assert !Header(s, p);
    } else if p == |x| {
      assert |b| > 0 && t[p] == b[0];
    } else if |x| < p < |x| + |b| {
      assert t[p - 1] == b[p - 1 - |x|];
    } else if p < |t| && p > 0 {
      var q := p - |b| + |a|;
      assert t[p] == s[q];
      assert p > |x| + |b| ==> t[p - 1] == s[q - 1];
      assert p == |x| + |b| ==> t[p - 1] == b[|b| - 1] && s[q - 1] == a[|a| - 1];
      assert !Header(s, q);
    }
  }

  lemma SectionSwap(x: string, a: string, b: string, y: string)
    requires Alike(a, b) && OneSection(x + a + y)
    ensures OneSection(x + b + y)
  {
    forall p: nat
      ensures !Header(x + b + y, p)
    {
      NoHeaderAt(x, a, b, y, p);
    }
  }

  // ---- the section header line -----------------------------------------------------------

  lemma HeaderPlain(h: string)
    requires |h| > 0 && h[0] == '[' && Strip(h) == "[Events]"
    ensures forall k :: 0 <= k < |h| ==> h[k] != 'D'
  {
    var l := LStrip(h);
    assert l == h;
    assert RStrip(h) == h[..8] == "[Events]";
    forall k | 0 <= k < |h|
      ensures h[k] != 'D'
    {
      if k < 8 {
        assert h[k] == "[Events]"[k];
      } else {
        assert IsSpace(h[k]);
      }
    }
  }

  lemma FindInPrefix(x: string, z: string, p: string)
    requires Contains(x, p) && |p| > 0
    ensures Contains(x + z, p) && Find(x + z, p) == Find(x, p)
  {
    var f := Find(x, p);
    var s := x + z;
    forall q: nat | q + |p| <= |x|
      ensures At(s, q, p) <==> At(x, q, p)
    {
      assert s[q..q + |p|] == x[q..q + |p|];
    }
    assert At(s, f, p);
    hide At;
    forall q: nat | q < f
      ensures !At(s, q, p)
    {
      assert q + |p| <= |x| by { assert At(x, f, p); AtFits(x, f, p); }
      assert !At(x, q, p);
    }
  }

  lemma AtFits(s: string, i: nat, p: string)
    ensures At(s, i, p) ==> i + |p| <= |s|
  {
  }

  /** The header line lies before the first Dialogue line. */
  lemma BeforeSwap(x: string, a: string, y: string, sep: string)
    requires |x| > 0 && x[0] == '[' && |a| > 0 && a[0] == 'D' && (sep == "\n" || sep == "\r\n")
    requires Strip(Before(x + a + y, sep)) == "[Events]"
    ensures Contains(x, sep) && Before(x + a + y, sep) == Before(x, sep)
  {
    var s := x + a + y;
    var h := Before(s, sep);
    hide Strip, Find;
    assert s[|x|] == 'D' && s[0] == '[';
    if !Contains(s, sep) {
      HeaderPlain(h);
    } else {
      var f := Find(s, sep);
      NonemptyHeader(s, f, sep);
      HeaderPlain(h);
      forall k | 0 <= k < f
        ensures s[k] != 'D'
      {
        assert s[k] == h[k];
      }
      assert f <= |x|;
      AtIndex(s, f, sep);
      assert s[f + 0] != 'D' && s[f + |sep| - 1] != 'D';
      assert f + |sep| <= |x|;
      assert x[f..f + |sep|] == s[f..f + |sep|];
      assert At(x, f, sep);
      ContainsIff(x, sep);
      assert s == x + (a + y);
      FindInPrefix(x, a + y, sep);
      assert s[..f] == x[..f];
    }
  }

  lemma NonemptyHeader(s: string, f: nat, sep: string)
    requires f <= |s| && Strip(s[..f]) == "[Events]"
    ensures f > 0
  {
  }

  lemma HeaderLineSwap(x: string, a: string, b: string, y: string, le: string)
    requires Alike(a, b) && |x| > 0 && x[0] == '[' && (|y| > 0 ==> MayFollow(a, y)) && (le == "\n" || le == "\r\n")
    requires Strip(HeaderLine(x + a + y, le)) == "[Events]"
    ensures HeaderLine(x + b + y, le) == HeaderLine(x + a + y, le)
  {
    hide *;
    var s, t := x + a + y, x + b + y;
    var sep := if Contains(s, le) then le else "\n";
    SameSeparator(x, a, b, y, le);
    HeaderLineIs(s, le, sep);
    HeaderLineIs(t, le, sep);
    AlikeStarts(a, b);
    BeforeSwap(x, a, y, sep);
    assert t == x + (b + y);
    FindInPrefix(x, b + y, sep);
    SameBefore(x, b + y, sep);
  }

  lemma AlikeStarts(a: string, b: string)
    requires Alike(a, b)
    ensures |a| > 0 && a[0] == 'D'
  {
  }

  lemma HeaderLineIs(s: string, le: string, sep: string)
    ensures sep == (if Contains(s, le) then le else "\n") ==> HeaderLine(s, le) == Before(s, sep)
  {
  }

  lemma EventsSwap(x: string, a: string, b: string, y: string, le: string)
    requires Alike(a, b) && |x| > 0 && (|y| > 0 ==> MayFollow(a, y)) && (le == "\n" || le == "\r\n")
    requires IsEvents(x + a + y, le)
    ensures IsEvents(x + b + y, le)
  {
    hide HeaderLine, Strip, Alike, MayFollow;
    assert (x + a + y)[0] == x[0] == (x + b + y)[0];
    HeaderLineSwap(x, a, b, y, le);
  }

  lemma SameSeparator(x: string, a: string, b: string, y: string, le: string)
    requires Alike(a, b) && (|y| > 0 ==> MayFollow(a, y)) && (le == "\n" || le == "\r\n")
    ensures (if Contains(x + a + y, le) then le else "\n") == (if Contains(x + b + y, le) then le else "\n")
  {
    CrlfSwap(x, a, b, y);
    ContainsCrlf(x + a + y);
    ContainsCrlf(x + b + y);
  }

  lemma SameBefore(x: string, z: string, sep: string)
    requires Contains(x, sep) && Contains(x + z, sep) && Find(x + z, sep) == Find(x, sep)
    ensures Before(x + z, sep) == Before(x, sep)
  {
  }

  lemma {:induction false} EventsAtFacts(pieces: seq<string>, le: string)
    ensures var k := EventsAt(pieces, le);
            && (k < |pieces| ==> IsEvents(pieces[k], le))
            && forall j :: 0 <= j < k ==> !IsEvents(pieces[j], le)
  {
    hide IsEvents;
    if |pieces| > 0 && !IsEvents(pieces[0], le) {
      EventsAtFacts(pieces[1..], le);
      var k := EventsAt(pieces, le);
      forall j | 0 <= j < k
        ensures !IsEvents(pieces[j], le)
      {
        assert j > 0 ==> pieces[j] == pieces[1..][j - 1];
      }
    }
  }

  lemma {:induction false} EventsAtIs(pieces: seq<string>, le: string, k: nat)
    requires k < |pieces| && IsEvents(pieces[k], le) && forall j :: 0 <= j < k ==> !IsEvents(pieces[j], le)
    ensures EventsAt(pieces, le) == k
  {
    hide IsEvents;
    if k > 0 {
      assert !IsEvents(pieces[0], le);
      forall j | 0 <= j < k - 1
        ensures !IsEvents(pieces[1..][j], le)
      {
        assert pieces[1..][j] == pieces[j + 1];
      }
      EventsAtIs(pieces[1..], le, k - 1);
    }
  }

  lemma EventsAtSwap(pieces: seq<string>, le: string, k: nat, p: string)
    requires EventsAt(pieces, le) == k && k < |pieces| && IsEvents(p, le)
    ensures EventsAt(pieces[k := p], le) == k
  {
    hide IsEvents;
    EventsAtFacts(pieces, le);
    EventsAtIs(pieces[k := p], le, k);
  }
}
