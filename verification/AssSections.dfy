/** The sections of an ASS file as a chain of pieces. */
module AssSections {
  import opened Text
  import opened TextLines
  import opened Blocks
  import opened Ass
  import opened AssRoundTrip

  // ---- sections --------------------------------------------------------------------------

  ghost predicate OneSection(p: string)
  {
    |p| > 0 && forall k: nat :: !Header(p, k)
  }

  ghost predicate SectionChain(ps: seq<string>)
  {
    && (forall i :: 0 <= i < |ps| ==> OneSection(ps[i]))
    && (forall i :: 1 <= i < |ps| ==> Adjoins(ps[i - 1], ps[i]))
  }

  predicate Adjoins(a: string, b: string)
  {
    |a| > 0 && |b| > 0 && a[|a| - 1] == '\n' && b[0] == '['
  }

  lemma SectionCut(p: string, rest: string)
    requires OneSection(p) && (|rest| > 0 ==> Adjoins(p, rest))
    ensures NextHeader(p + rest, 1) == |p|
  {
    var s := p + rest;
    forall k | 1 <= k < |p|
      ensures !Header(s, k)
    {
      assert !Header(p, k);
    }
    assert |rest| > 0 ==> Header(s, |p|);
  }

  lemma {:induction false} SectionsOfChain(ps: seq<string>)
    requires SectionChain(ps)
    ensures Sections(Concat(ps)) == ps
  {
    if |ps| > 0 {
      var rest := Concat(ps[1..]);
      assert |ps| > 1 ==> rest[0] == ps[1][0] && Adjoins(ps[0], ps[1]);
      assert SectionChain(ps[1..]);
      SectionCut(ps[0], rest);
      SectionsOfChain(ps[1..]);
      assert (ps[0] + rest)[..|ps[0]|] == ps[0] && (ps[0] + rest)[|ps[0]|..] == rest;
    }
  }

  lemma {:induction false} SectionsChain(s: string)
    ensures SectionChain(Sections(s))
    ensures |s| > 0 ==> |Sections(s)| > 0 && |Sections(s)[0]| > 0 && Sections(s)[0][0] == s[0]
    decreases |s|
  {
    if |s| > 0 {
      var n := NextHeader(s, 1);
      SectionsChain(s[n..]);
      FirstSection(s);
      hide OneSection, Adjoins;
      var ps := Sections(s);
      forall i | 1 <= i < |ps|
        ensures Adjoins(ps[i - 1], ps[i])
      {
        AdjoinsAt(s, n, ps, i);
      }
    }
  }

  lemma FirstSection(s: string)
    requires |s| > 0
    ensures OneSection(s[..NextHeader(s, 1)])
    ensures NextHeader(s, 1) < |s| ==> Adjoins(s[..NextHeader(s, 1)], s[NextHeader(s, 1)..])
  {
    var p := s[..NextHeader(s, 1)];
    forall k: nat
      ensures !Header(p, k)
    {
      assert 0 < k < |p| ==> !Header(s, k);
    }
  }

  lemma AdjoinsAt(s: string, n: nat, ps: seq<string>, i: nat)
    requires |s| > 0 && n == NextHeader(s, 1) && ps == [s[..n]] + Sections(s[n..]) && 1 <= i < |ps|
    requires SectionChain(Sections(s[n..]))
    requires n < |s| ==> Adjoins(s[..n], s[n..]) && |Sections(s[n..])[0]| > 0 && Sections(s[n..])[0][0] == s[n]
    ensures Adjoins(ps[i - 1], ps[i])
  {
    if i > 1 {
      assert ps[i] == Sections(s[n..])[i - 1] && ps[i - 1] == Sections(s[n..])[i - 2];
    } else {
      assert ps[1] == Sections(s[n..])[0];
    }
  }

  lemma SectionReplace(ps: seq<string>, k: nat, p: string)
    requires SectionChain(ps) && k < |ps| && OneSection(p) && p[0] == ps[k][0]
    requires k + 1 < |ps| ==> p[|p| - 1] == '\n'
    ensures SectionChain(ps[k := p])
  {
    var r := ps[k := p];
    forall i | 1 <= i < |r|
      ensures Adjoins(r[i - 1], r[i])
    {
      assert Adjoins(ps[i - 1], ps[i]);
    }
  }
}
