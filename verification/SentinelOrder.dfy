/** What the model may do to the tokens: reorder them, lose them, repeat them, invent new ones. */
module SentinelOrder {
  import opened Text
  import opened Sentinel
  import opened SentinelLaws

  const OPENER := "<<T"

  /** Text that cannot take part in a token, whatever follows it. */
  ghost predicate Calm(x: string)
  {
    (forall i: nat :: !At(x, i, OPENER)) && (|x| > 0 ==> x[|x| - 1] != '<')
  }

  /** A model reply as words between tokens. */
  datatype Frag = Words(text: string) | Mark(key: nat)

  ghost predicate Settled(frags: seq<Frag>)
  {
    forall f :: f in frags && f.Words? ==> Calm(f.text)
  }

  function One(f: Frag): string
  {
    match f
    case Words(x) => x
    case Mark(k) => Key(k)
  }

  function Render(frags: seq<Frag>): string
  {
    if |frags| == 0 then [] else One(frags[0]) + Render(frags[1..])
  }

  function Count(frags: seq<Frag>, k: nat): nat
  {
    if |frags| == 0 then 0 else (if frags[0] == Mark(k) then 1 else 0) + Count(frags[1..], k)
  }

  /** Every token replaced by its tag, where it stands. */
  function Tagged(frags: seq<Frag>, tags: seq<string>): seq<Frag>
  {
    if |frags| == 0 then []
    else [if frags[0].Mark? && frags[0].key < |tags| then Words(tags[frags[0].key]) else frags[0]] + Tagged(frags[1..], tags)
  }

  function Fill(frags: seq<Frag>, k: nat, tag: string): seq<Frag>
  {
    if |frags| == 0 then []
    else if frags[0] == Mark(k) then [Words(tag)] + frags[1..]
    else [frags[0]] + Fill(frags[1..], k, tag)
  }

  // ---- where a key can be found ----------------------------------------------------------

  lemma AtSuffix(s: string, j: nat, i: nat, p: string)
    requires j <= |s|
    ensures At(s[j..], i, p) <==> At(s, j + i, p)
  {
    if j + i + |p| <= |s| {
      assert s[j + i..j + i + |p|] == s[j..][i..i + |p|];
    }
  }

  lemma AtPrefix(x: string, rest: string, i: nat, p: string)
    requires i + |p| <= |x|
    ensures At(x, i, p) <==> At(x + rest, i, p)
  {
    assert (x + rest)[i..i + |p|] == x[i..i + |p|];
  }

  lemma CalmStart(x: string, rest: string, p: nat)
    requires Calm(x) && p < |x|
    ensures !At(x + rest, p, OPENER)
  {
    var s := x + rest;
    if p + 3 <= |x| {
      AtPrefix(x, rest, p, OPENER);
    } else {
      var j := |x| - 1 - p;
      assert s[p + j] == x[|x| - 1] && OPENER[j] == '<';
      AtIndex(s, p, OPENER);
    }
  }

  lemma KeyOpens(s: string, p: nat, k: nat)
    ensures At(s, p, Key(k)) ==> At(s, p, OPENER)
  {
    if At(s, p, Key(k)) {
      assert s[p..p + 3] == s[p..p + |Key(k)|][..3];
    }
  }

  /** Text in front moves the first occurrence, if no occurrence starts in it. */
  lemma FindShift(x: string, rest: string, p: string)
    requires forall q: nat :: q < |x| ==> !At(x + rest, q, p)
    ensures Find(x + rest, p) == |x| + Find(rest, p)
  {
    var s := x + rest;
    var f := Find(rest, p);
    forall q: nat
      ensures At(s, |x| + q, p) <==> At(rest, q, p)
    {
      if q + |p| <= |rest| {
        assert s[|x| + q..|x| + q + |p|] == rest[q..q + |p|];
      }
    }
    hide At, Find;
    forall q: nat | q < |x| + f && q <= |s|
      ensures !At(s, q, p)
    {
      if q >= |x| {
        assert q == |x| + (q - |x|);
        assert !At(rest, q - |x|, p);
      }
    }
  }

  lemma CalmShift(x: string, rest: string, k: nat)
    requires Calm(x)
    ensures Find(x + rest, Key(k)) == |x| + Find(rest, Key(k))
  {
    forall q: nat | q < |x|
      ensures !At(x + rest, q, Key(k))
    {
      CalmStart(x, rest, q);
      KeyOpens(x + rest, q, k);
    }
    FindShift(x, rest, Key(k));
  }

  lemma OtherKeyShift(j: nat, rest: string, k: nat)
    requires j != k
    ensures Find(Key(j) + rest, Key(k)) == |Key(j)| + Find(rest, Key(k))
  {
    var s := Key(j) + rest;
    forall q: nat | q < |Key(j)|
      ensures !At(s, q, Key(k))
    {
      NotInKey(j, rest, k, q);
    }
    FindShift(Key(j), rest, Key(k));
  }

  lemma NotInKey(j: nat, rest: string, k: nat, q: nat)
    requires j != k && q < |Key(j)|
    ensures !At(Key(j) + rest, q, Key(k))
  {
    var s := Key(j) + rest;
    KeyIsToken(j, rest);
    TokenShape(s);
    KeyShape(k);
    hide TokenLen, Key;
    if At(s, q, Key(k)) {
      AtIndex(s, q, Key(k));
      assert q == 0;
      assert s == Key(k) + s[|Key(k)|..];
      KeyIsToken(k, s[|Key(k)|..]);
      assert Key(j) == s[..|Key(j)|];
      KeysDiffer(j, k);
    }
  }

  lemma ReplaceShift(x: string, rest: string, key: string, tag: string)
    requires Find(x + rest, key) == |x| + Find(rest, key)
    ensures Contains(x + rest, key) <==> Contains(rest, key)
    ensures Contains(rest, key) ==> ReplaceFirst(x + rest, key, tag) == x + ReplaceFirst(rest, key, tag)
  {
    hide Find;
    if Contains(rest, key) {
      var f := Find(rest, key);
      hide At;
      assert (x + rest)[..|x| + f] == x + rest[..f];
      assert (x + rest)[|x| + f + |key|..] == rest[f + |key|..];
      assert x + rest[..f] + tag + rest[f + |key|..] == x + (rest[..f] + tag + rest[f + |key|..]);
    }
  }

  lemma ReplaceHead(rest: string, key: string, tag: string)
    ensures Contains(key + rest, key) && ReplaceFirst(key + rest, key, tag) == tag + rest
  {
    assert (key + rest)[0..|key|] == key;
    assert At(key + rest, 0, key);
    assert (key + rest)[|key|..] == rest;
  }

  /** A key is found exactly if its mark is there, and replacing its first occurrence fills the
      first such mark. */
  lemma {:induction false} FillsFirst(frags: seq<Frag>, k: nat, tag: string)
    requires Settled(frags)
    ensures Contains(Render(frags), Key(k)) <==> Count(frags, k) > 0
    ensures Count(frags, k) > 0 ==> ReplaceFirst(Render(frags), Key(k), tag) == Render(Fill(frags, k, tag))
  {
    KeyShape(k);
    if |frags| == 0 {
      assert forall q: nat :: !At([], q, Key(k));
    } else {
      hide Key, Calm, Find, Contains, ReplaceFirst;
      var x, rest := One(frags[0]), Render(frags[1..]);
      assert Settled(frags[1..]);
      FillsFirst(frags[1..], k, tag);
      if frags[0] == Mark(k) {
        ReplaceHead(rest, Key(k), tag);
        assert ([Words(tag)] + frags[1..])[1..] == frags[1..];
      } else {
        if frags[0].Words? {
          CalmShift(frags[0].text, rest, k);
        } else {
          OtherKeyShift(frags[0].key, rest, k);
        }
        ReplaceShift(x, rest, Key(k), tag);
        var filled := Fill(frags[1..], k, tag);
        assert ([frags[0]] + filled)[1..] == filled;
      }
    }
  }

  lemma {:induction false} FillCounts(frags: seq<Frag>, k: nat, tag: string, j: nat)
    requires Count(frags, k) > 0
    ensures Count(Fill(frags, k, tag), j) == if j == k then Count(frags, j) - 1 else Count(frags, j)
  {
    if frags[0] == Mark(k) {
      assert ([Words(tag)] + frags[1..])[1..] == frags[1..];
    } else {
      FillCounts(frags[1..], k, tag, j);
      var filled := Fill(frags[1..], k, tag);
      assert ([frags[0]] + filled)[1..] == filled;
    }
  }

  lemma {:induction false} FillKeeps(frags: seq<Frag>, tags: seq<string>, k: nat)
    requires k < |tags| && Calm(tags[k]) && Settled(frags)
    ensures Tagged(Fill(frags, k, tags[k]), tags) == Tagged(frags, tags) && Settled(Fill(frags, k, tags[k]))
  {
    hide Calm;
    if |frags| > 0 {
      assert Settled(frags[1..]);
      FillKeeps(frags[1..], tags, k);
      if frags[0] == Mark(k) {
        assert ([Words(tags[k])] + frags[1..])[1..] == frags[1..];
      } else {
        var filled := Fill(frags[1..], k, tags[k]);
        assert ([frags[0]] + filled)[1..] == filled;
      }
    }
  }

  // ---- the tokens of a reply -------------------------------------------------------------

  lemma {:induction false} CalmTokens(x: string, rest: string)
    requires Calm(x)
    ensures Tokens(x + rest) == Tokens(rest)
  {
    if |x| == 0 {
      assert x + rest == rest;
    } else {
      CalmStart(x, rest, 0);
      assert (x + rest)[1..] == x[1..] + rest;
      forall i: nat
        ensures !At(x[1..], i, OPENER)
      {
        AtSuffix(x, 1, i, OPENER);
      }
      hide At;
      CalmTokens(x[1..], rest);
    }
  }

  /** The tokens found in a reply are its marks. */
  lemma {:induction false} RenderTokens(frags: seq<Frag>, t: string)
    requires Settled(frags)
    ensures t in Tokens(Render(frags)) <==> exists k: nat :: Mark(k) in frags && t == Key(k)
  {
    hide Key, TokenLen, Calm;
    if |frags| > 0 {
      var rest := Render(frags[1..]);
      assert Settled(frags[1..]);
      RenderTokens(frags[1..], t);
      if frags[0].Words? {
        CalmTokens(frags[0].text, rest);
      } else {
        var key := Key(frags[0].key);
        KeyIsToken(frags[0].key, rest);
        KeyShape(frags[0].key);
        assert (key + rest)[..|key|] == key && (key + rest)[|key|..] == rest;
      }
      assert frags == [frags[0]] + frags[1..];
    }
  }

  lemma {:induction false} CountIn(frags: seq<Frag>, k: nat)
    ensures Count(frags, k) > 0 <==> Mark(k) in frags
  {
    if |frags| > 0 {
      CountIn(frags[1..], k);
      assert frags == [frags[0]] + frags[1..];
    }
  }

  // ---- reinsertion over any reply --------------------------------------------------------

  /** Each mark from `n` on is there exactly once. */
  ghost predicate EachOnce(frags: seq<Frag>, n: nat, count: nat)
  {
    forall k :: n <= k < count ==> Count(frags, k) == 1
  }

  ghost predicate NoneBelow(frags: seq<Frag>, n: nat)
  {
    forall k :: 0 <= k < n ==> Count(frags, k) == 0
  }

  lemma {:induction false} RestoreAnyOrder(frags: seq<Frag>, tags: seq<string>, n: nat)
    requires n <= |tags| && Settled(frags) && forall t :: t in tags ==> Calm(t)
    requires forall k: nat :: Mark(k) in frags ==> k < |tags|
    ensures var (text, ok) := Restore(Render(frags), Keyed(tags, 0)[n..]);
            && (ok && !HasToken(text) <==> NoneBelow(frags, n) && EachOnce(frags, n, |tags|))
            && (ok && !HasToken(text) ==> text == Render(Tagged(frags, tags)))
    decreases |tags| - n
  {
    hide Calm, Key, HasToken, Contains;
    var entries := Keyed(tags, 0)[n..];
    if n == |tags| {
      NoMarksLeft(frags, tags);
    } else {
      FillsFirst(frags, n, tags[n]);
      if Count(frags, n) > 0 {
        var filled := Fill(frags, n, tags[n]);
        FillKeeps(frags, tags, n);
        forall k: nat
          ensures Count(filled, k) == if k == n then Count(frags, k) - 1 else Count(frags, k)
        {
          FillCounts(frags, n, tags[n], k);
        }
        forall k: nat | Mark(k) in filled
          ensures k < |tags|
        {
          CountIn(filled, k);
          CountIn(frags, k);
        }
        assert entries[1..] == Keyed(tags, 0)[n + 1..];
        RestoreAnyOrder(filled, tags, n + 1);
        assert NoneBelow(filled, n + 1) && EachOnce(filled, n + 1, |tags|)
          <==> NoneBelow(frags, n) && EachOnce(frags, n, |tags|);
      }
    }
  }

  lemma NoMarksLeft(frags: seq<Frag>, tags: seq<string>)
    requires Settled(frags) && forall k: nat :: Mark(k) in frags ==> k < |tags|
    ensures !HasToken(Render(frags)) <==> NoneBelow(frags, |tags|)
    ensures NoneBelow(frags, |tags|) ==> Tagged(frags, tags) == frags
  {
    hide Calm, Key, Render;
    if HasToken(Render(frags)) {
      RenderTokens(frags, Tokens(Render(frags))[0]);
      var k: nat :| Mark(k) in frags;
      CountIn(frags, k);
    }
    if k :| 0 <= k < |tags| && Count(frags, k) > 0 {
      CountIn(frags, k);
      RenderTokens(frags, Key(k));
    }
    if NoneBelow(frags, |tags|) {
      forall k: nat
        ensures Mark(k) !in frags
      {
        CountIn(frags, k);
      }
      TaggedAll(frags, tags);
    }
  }

  lemma {:induction false} TaggedAll(frags: seq<Frag>, tags: seq<string>)
    requires forall k: nat :: Mark(k) !in frags
    ensures Tagged(frags, tags) == frags
  {
    if |frags| > 0 {
      assert frags == [frags[0]] + frags[1..];
      assert frags[0] in frags;
      TaggedAll(frags[1..], tags);
    }
  }

  lemma TagEnds(s: string)
    ensures TagLen(s) > 0 ==> s[TagLen(s) - 1] != '<'
  {
    var m := TagLen(s);
    if |s| >= 3 && s[0] == '<' && m == Until(s[1..], '>') + 2 {
      assert s[1..][m - 2] == s[m - 1];
    } else if |s| >= 4 && s[0] == '{' && m == Until(s[2..], '}') + 3 {
      assert s[2..][m - 3] == s[m - 1];
    }
  }

  /** Tags cut from a text without `<<T` are calm. */
  lemma {:induction false} TagsCalm(s: string, t: string)
    requires (forall i: nat :: !At(s, i, OPENER)) && t in Tags(s)
    ensures Calm(t)
    decreases |s|
  {
    var m := TagLen(s);
    TagEnds(s);
    hide TagLen;
    var step := if m > 0 then m else 1;
    if m > 0 && t == s[..m] {
      forall i: nat
        ensures !At(t, i, OPENER)
      {
        if i + 3 <= |t| {
          assert s == t + s[m..];
          AtPrefix(t, s[m..], i, OPENER);
        }
      }
    } else {
      forall i: nat
        ensures !At(s[step..], i, OPENER)
      {
        AtSuffix(s, step, i, OPENER);
      }
      TagsCalm(s[step..], t);
    }
  }

  lemma ReplyHasNoOrphans(frags: seq<Frag>, tags: seq<string>)
    requires Settled(frags) && forall k: nat :: Mark(k) in frags ==> k < |tags|
    ensures Orphans(Render(frags), Keyed(tags, 0)) == {}
  {
    var entries := Keyed(tags, 0);
    forall t | t in Tokens(Render(frags))
      ensures exists e :: e in entries && e.key == t
    {
      RenderTokens(frags, t);
      var k: nat :| Mark(k) in frags && t == Key(k);
      assert entries[k] in entries;
    }
  }

  /** For a cue text without `<<T`, whatever order the model puts the tokens in, between words that
      contain no `<<T` and do not end in `<`: reinsertion succeeds exactly when every token came
      back once, and then each tag stands where its token stood. */
  lemma AnyOrderIff(s: string, frags: seq<Frag>)
    requires !Contains(s, OPENER) && Settled(frags)
    requires forall k: nat :: Mark(k) in frags ==> k < |Tags(s)|
    ensures var (text, ok) := Reinsert(Render(frags), Keyed(Tags(s), 0));
            && (ok <==> EachOnce(frags, 0, |Tags(s)|))
            && (ok ==> text == Render(Tagged(frags, Tags(s))))
  {
    var tags, entries := Tags(s), Keyed(Tags(s), 0);
    NoOpener(s);
    hide *;
    forall t | t in tags
      ensures Calm(t)
    {
      TagsCalm(s, t);
    }
    ReplyHasNoOrphans(frags, tags);
    assert entries[0..] == entries;
    RestoreAnyOrder(frags, tags, 0);
    ReinsertWithoutOrphans(Render(frags), entries);
    NothingBelowZero(frags);
  }

  lemma NoOpener(s: string)
    requires !Contains(s, OPENER)
    ensures forall i: nat :: !At(s, i, OPENER)
  {
    forall i: nat
      ensures !At(s, i, OPENER)
    {
    }
  }

  lemma NothingBelowZero(frags: seq<Frag>)
    ensures NoneBelow(frags, 0)
  {
  }

  lemma ReinsertWithoutOrphans(s: string, entries: seq<Entry>)
    requires Orphans(s, entries) == {}
    ensures var (text, ok) := Restore(s, entries); Reinsert(s, entries) == (text, ok && !HasToken(text))
  {
  }

  // ---- invented tokens -------------------------------------------------------------------

  /** What follows in the kept text up to its next space was there in the original. */
  lemma {:induction false} KeptRun(s: string, orphans: set<string>, u: string)
    requires At(DropOrphans(s, orphans), 0, u) && ' ' !in u
    ensures At(s, 0, u)
    decreases |s|
  {
    hide DropOrphans;
    if |u| > 0 {
      DropNothing(orphans);
      assert s == [] || |s| > 0;
      var r := DropOrphans(s, orphans);
      assert r[0] == r[0..|u|][0] == u[0] && u[0] in u;
      var c, j := DropCase(s, orphans);
      var rest := DropOrphans(s[1..], orphans);
      assert c == s[0] && r == [s[0]] + rest;
      assert rest[0..|u| - 1] == r[1..|u|] == u[1..];
      KeptRun(s[1..], orphans, u[1..]);
      assert s[0..|u|] == [s[0]] + s[1..][0..|u| - 1];
    }
  }

  lemma TokenPrefix(s: string)
    requires TokenLen(s) > 0
    ensures TokenLen(s[..TokenLen(s)]) == TokenLen(s)
    ensures ' ' !in s[..TokenLen(s)]
  {
    var m := TokenLen(s);
    var t := s[..m];
    var d := DigitRun(s[3..]);
    assert t[0..3] == s[0..3] && t[3..][..d] == s[3..][..d];
    assert s[3..][d] == s[3 + d..3 + d + 2][0];
    DigitPrefix(s[3..], m - 3);
    assert !IsDigit(' ');
    hide IsDigit, DigitRun;
    assert t[3..] == s[3..][..m - 3];
    assert t[3 + d..3 + d + 2] == s[3 + d..3 + d + 2];
    forall k | 0 <= k < m
      ensures t[k] != ' '
    {
      assert k < 3 ==> t[k] == s[..3][k];
      assert k >= m - 2 ==> t[k] == s[m - 2..m][k - (m - 2)];
    }
  }

  lemma {:induction false} DigitPrefix(s: string, m: nat)
    requires DigitRun(s) < m <= |s|
    ensures DigitRun(s[..m]) == DigitRun(s)
  {
    hide IsDigit;
    if IsDigit(s[0]) {
      assert s[..m][1..] == s[1..][..m - 1];
      DigitPrefix(s[1..], m - 1);
    }
  }

  /** The set holds every token of the text. */
  ghost predicate Covers(orphans: set<string>, s: string)
  {
    forall i :: 0 <= i < |s| && TokenLen(s[i..]) > 0 ==> s[i..][..TokenLen(s[i..])] in orphans
  }

  lemma CoversSuffix(orphans: set<string>, s: string, j: nat)
    requires Covers(orphans, s) && j <= |s|
    ensures Covers(orphans, s[j..])
  {
    hide TokenLen;
    forall i | 0 <= i < |s[j..]| && TokenLen(s[j..][i..]) > 0
      ensures s[j..][i..][..TokenLen(s[j..][i..])] in orphans
    {
      assert s[j..][i..] == s[j + i..];
    }
  }

  /** A token at the start of the kept text would have been at the start of the original ... */
  lemma KeptToken(s: string, orphans: set<string>)
    requires TokenLen(DropOrphans(s, orphans)) > 0
    ensures TokenLen(s) == TokenLen(DropOrphans(s, orphans))
    ensures |s| > 0 && s[0] == '<' && DropOrphans(s, orphans)[0] == '<'
  {
    hide TokenLen, DropOrphans, IsDigit, IsSpace, SpaceRun;
    var r := DropOrphans(s, orphans);
    TokenShape(r);
    TokenPrefix(r);
    var m := TokenLen(r);
    var u := r[..m];
    assert r[0..m] == u;
    KeptRun(s, orphans, u);
    assert s == u + s[m..];
    TokenExtends(u, s[m..]);
    assert s[0] == u[0];
  }

  lemma DroppedHere(s: string, orphans: set<string>)
    requires |s| > 0 && s[0] == '<' && TokenLen(s) > 0 && s[..TokenLen(s)] in orphans
    ensures |DropOrphans(s, orphans)| > 0 && DropOrphans(s, orphans)[0] == ' '
  {
    hide TokenLen, DropOrphans;
    assert s[0..] == s;
    assert SpaceRun(s) == 0;
    assert OrphanLen(s, orphans) > 0;
    hide OrphanLen;
    DropHead(s, orphans);
  }

  lemma DropHead(s: string, orphans: set<string>)
    requires |s| > 0 && OrphanLen(s, orphans) > 0
    ensures |DropOrphans(s, orphans)| > 0 && DropOrphans(s, orphans)[0] == ' '
  {
    hide OrphanLen;
  }

  lemma CoversStart(s: string, orphans: set<string>)
    requires Covers(orphans, s) && |s| > 0 && TokenLen(s) > 0
    ensures s[..TokenLen(s)] in orphans
  {
    hide TokenLen;
    assert s[0..] == s;
  }

  /** ... and would have been dropped. */
  lemma KeptStart(s: string, orphans: set<string>)
    requires Covers(orphans, s)
    ensures TokenLen(DropOrphans(s, orphans)) == 0
  {
    hide *;
    if TokenLen(DropOrphans(s, orphans)) > 0 {
      KeptToken(s, orphans);
      CoversStart(s, orphans);
      DroppedHere(s, orphans);
    }
  }

  /** Dropping moves on through the text. */
  lemma DropStep(s: string, orphans: set<string>) returns (j: nat)
    requires |s| > 0
    ensures 0 < j <= |s| && |DropOrphans(s, orphans)| > 0 && DropOrphans(s, orphans)[1..] == DropOrphans(s[j..], orphans)
  {
    hide *;
    var c: char;
    c, j := DropCase(s, orphans);
    var rest := DropOrphans(s[j..], orphans);
    assert ([c] + rest)[1..] == rest;
  }

  /** One step of dropping: an orphan becomes a space, any other character stays. */
  lemma DropCase(s: string, orphans: set<string>) returns (c: char, j: nat)
    requires |s| > 0
    ensures 0 < j <= |s| && (c == ' ' || (c == s[0] && j == 1))
    ensures DropOrphans(s, orphans) == [c] + DropOrphans(s[j..], orphans)
  {
    hide OrphanLen;
    if OrphanLen(s, orphans) > 0 {
      c, j := ' ', OrphanLen(s, orphans);
    } else {
      c, j := s[0], 1;
    }
  }

  lemma DropNothing(orphans: set<string>)
    ensures DropOrphans([], orphans) == []
  {
  }

  lemma TokensSkip(r: string)
    requires |r| > 0 && TokenLen(r) == 0
    ensures Tokens(r) == Tokens(r[1..])
  {
  }

  lemma {:induction false} KeptTokens(s: string, orphans: set<string>)
    requires Covers(orphans, s)
    ensures Tokens(DropOrphans(s, orphans)) == []
    decreases |s|
  {
    hide TokenLen, IsSpace, IsDigit, SpaceRun;
    KeptStart(s, orphans);
    if |s| > 0 {
      var j := DropStep(s, orphans);
      CoversSuffix(orphans, s, j);
      KeptTokens(s[j..], orphans);
      TokensSkip(DropOrphans(s, orphans));
    }
  }

  lemma StripInside(s: string) returns (before: string, after: string)
    ensures s == before + Strip(s) + after
  {
    hide LStrip, RStrip, IsSpace;
    var l := LStrip(s);
    before, after := s[..|s| - |l|], l[|Strip(s)|..];
    assert l == Strip(s) + after;
  }

  lemma StripTokens(s: string)
    requires !HasToken(s)
    ensures !HasToken(Strip(s))
  {
    var before, after := StripInside(s);
    hide *;
    var x := Strip(s);
    HasTokenIff(s);
    HasTokenIff(x);
    if p :| 0 <= p < |x| && TokenLen(x[p..]) > 0 {
      assert s[|before| + p..] == x[p..] + after;
      TokenExtends(x[p..], after);
    }
  }

  /** A cue that had no tag never fails reinsertion, whatever tokens the model invents; none of them
      reaches the output, and a reply without tokens is untouched. */
  lemma UntaggedNeverFails(s: string)
    ensures var (text, ok) := Reinsert(s, []); ok && !HasToken(text) && (!HasToken(s) ==> text == s)
  {
    var orphans := Orphans(s, []);
    forall i | 0 <= i < |s| && TokenLen(s[i..]) > 0
      ensures s[i..][..TokenLen(s[i..])] in orphans
    {
      TokensComplete(s, i);
    }
    KeptTokens(s, orphans);
    assert orphans == {} ==> !HasToken(s) by {
      if HasToken(s) {
        assert Tokens(s)[0] in orphans;
      }
    }
    hide TokenLen, Tokens;
    StripTokens(DropOrphans(s, orphans));
  }

  /** A text that is one token, an orphan, is dropped whole. */
  lemma DropsWhole(t: string, orphans: set<string>)
    requires |t| > 0 && t[0] == '<' && TokenLen(t) == |t| && t in orphans
    ensures DropOrphans(t, orphans) == " "
  {
    OrphanWhole(t, orphans);
    DropNothing(orphans);
    hide OrphanLen, TokenLen;
    assert t[|t|..] == [];
  }

  lemma OrphanWhole(t: string, orphans: set<string>)
    requires |t| > 0 && t[0] == '<' && TokenLen(t) == |t| && t in orphans
    ensures OrphanLen(t, orphans) == |t|
  {
    assert SpaceRun(t) == 0;
    hide TokenLen;
    assert t[0..] == t && t[..|t|] == t && t[|t|..] == [];
  }

  lemma OnlyToken(t: string)
    requires |t| > 0 && TokenLen(t) == |t|
    ensures Tokens(t) == [t] && Tokens([]) == []
  {
    hide TokenLen;
    assert t[..|t|] == t && t[|t|..] == [];
  }

  /** ... but a reply that is nothing else leaves the cue empty, which only the document gate sees. */
  lemma InventedTokenEmpties(k: nat)
    ensures Reinsert(Key(k), []) == ([], true)
  {
    var t := Key(k);
    KeyIsToken(k, []);
    assert t + [] == t;
    KeyShape(k);
    hide Key, TokenLen, Tokens, DropOrphans, IsDigit;
    OnlyToken(t);
    var orphans := Orphans(t, []);
    assert t in orphans;
    DropsWhole(t, orphans);
    StripBlank(" ");
    assert IsSpace(' ');
  }
}
