/** When tags survive the trip through the tokens. */
module SentinelLaws {
  import opened Text
  import opened Sentinel

  // ---- tokens never overlap --------------------------------------------------------------

  lemma TokenShape(s: string)
    ensures TokenLen(s) > 0 ==>
      var n := TokenLen(s);
      && n >= 6
      && s[0] == '<' && s[1] == '<' && s[2] == 'T' && s[n - 2] == '>' && s[n - 1] == '>'
      && forall k :: 2 <= k < n ==> s[k] != '<'
  {
    var n := TokenLen(s);
    if n > 0 {
      assert s[..3][0] == '<' && s[..3][1] == '<' && s[..3][2] == 'T';
      assert s[n - 2..n][0] == '>' && s[n - 2..n][1] == '>';
      assert !IsDigit('<');
    }
  }

  lemma KeyShape(n: nat)
    ensures |Key(n)| >= 6 && Key(n)[0] == '<' && Key(n)[1] == '<'
  {
  }

  /** `<` occurs in a token only as its first two characters. */
  lemma NoTokenInside(s: string, i: nat)
    requires 0 < i < TokenLen(s)
    ensures TokenLen(s[i..]) == 0
  {
    TokenShape(s);
    TokenShape(s[i..]);
    hide TokenLen;
  }

  /** `Tokens` finds the token at every position that has one. */
  lemma {:induction false} TokensComplete(s: string, i: nat)
    requires i < |s| && TokenLen(s[i..]) > 0
    ensures s[i..][..TokenLen(s[i..])] in Tokens(s)
    decreases |s|
  {
    hide TokenLen;
    var n := TokenLen(s);
    if i == 0 {
      assert s[i..] == s;
    } else if n > 0 {
      if i < n {
        NoTokenInside(s, i);
      } else {
        assert s[n..][i - n..] == s[i..];
        TokensComplete(s[n..], i - n);
      }
    } else {
      assert s[1..][i - 1..] == s[i..];
      TokensComplete(s[1..], i - 1);
    }
  }

  /** ... and nothing else. */
  lemma {:induction false} TokensSound(s: string, t: string) returns (i: nat)
    requires t in Tokens(s)
    ensures i < |s| && TokenLen(s[i..]) > 0 && t == s[i..][..TokenLen(s[i..])]
    decreases |s|
  {
    hide TokenLen;
    var n := TokenLen(s);
    if n > 0 && t == s[..n] {
      assert s[0..] == s;
      i := 0;
    } else {
      var step := if n > 0 then n else 1;
      var j := TokensSound(s[step..], t);
      assert s[step..][j..] == s[step + j..];
      i := step + j;
    }
  }

  lemma HasTokenIff(s: string)
    ensures HasToken(s) <==> exists i :: 0 <= i < |s| && TokenLen(s[i..]) > 0
  {
    hide TokenLen, Tokens;
    if i :| 0 <= i < |s| && TokenLen(s[i..]) > 0 {
      TokensComplete(s, i);
    }
    if HasToken(s) {
      var i := TokensSound(s, Tokens(s)[0]);
    }
  }

  // ---- round trip ------------------------------------------------------------------------

  /** A run of the cleaned text without `<` is literal. */
  lemma {:induction false} LiteralRun(s: string, n: nat, u: string)
    requires At(Clean(s, n), 0, u) && forall k :: 0 <= k < |u| ==> u[k] != '<'
    ensures At(s, 0, u)
    decreases |s|
  {
    hide TagLen, Key;
    KeyShape(n);
    if |u| > 0 {
      var c := Clean(s, n);
      assert c[0] == c[0..|u|][0] == u[0];
      assert c == [s[0]] + Clean(s[1..], n);
      assert Clean(s[1..], n)[0..|u| - 1] == c[1..|u|] == u[1..];
      LiteralRun(s[1..], n, u[1..]);
      assert s[0..|u|] == [s[0]] + s[1..][0..|u| - 1];
    }
  }

  lemma LaterCloses(s: string, k: nat)
    requires 2 <= k < |s| && s[0] == '<' && s[1] != '>' && s[k] == '>'
    ensures TagLen(s) > 0
  {
    assert s[1..][k - 1] == '>' && s[1..][0] == s[1];
  }

  lemma SecondIsLiteral(s: string, n: nat)
    requires TagLen(s) == 0 && TokenLen(Clean(s, n)) > 0
    ensures |s| >= 2 && s[0] == '<' && s[1] == '<' && Clean(s, n) == s[..2] + Clean(s[2..], n)
  {
    var c := Clean(s, n);
    TokenShape(c);
    KeyShape(n);
    hide TagLen, TokenLen, Key;
    var r := Clean(s[1..], n);
    assert c == [s[0]] + r;
    assert r[0] == '<' && r[1] == 'T';
    assert TagLen(s[1..]) == 0;
    assert s[1..][1..] == s[2..];
  }

  lemma EndIsLiteral(s: string, n: nat, m: nat)
    requires TagLen(s) == 0 && m == TokenLen(Clean(s, n)) && m > 0
    ensures 6 <= m <= |s| && s[0] == '<' && s[1] == '<' && s[m - 2] == '>'
  {
    var c := Clean(s, n);
    TokenShape(c);
    hide TagLen, TokenLen, Clean;
    SecondIsLiteral(s, n);
    var u := c[2..m];
    assert Clean(s[2..], n)[0..m - 2] == u;
    LiteralRun(s[2..], n, u);
    assert s[2..][0..m - 2][m - 4] == u[m - 4] == c[m - 2];
  }

  /** Where `<` stays literal, the cleaned text has no token: a later `>` would have made it a tag. */
  lemma LiteralStartsNoToken(s: string, n: nat)
    requires TagLen(s) == 0
    ensures TokenLen(Clean(s, n)) == 0
  {
    hide *;
    var m := TokenLen(Clean(s, n));
    if m > 0 {
      EndIsLiteral(s, n, m);
      LaterCloses(s, m - 2);
    }
  }

  function Keys(n: nat, count: nat): seq<string>
    decreases count
  {
    if count == 0 then [] else [Key(n)] + Keys(n + 1, count - 1)
  }

  lemma TagStep(s: string, n: nat)
    requires |s| > 0 && TagLen(s) > 0
    ensures |Tags(s)| == 1 + |Tags(s[TagLen(s)..])|
    ensures Tokens(Clean(s, n)) == [Key(n)] + Tokens(Clean(s[TagLen(s)..], n + 1))
  {
    KeyShape(n);
    hide TagLen, TokenLen, Key;
    var rest := Clean(s[TagLen(s)..], n + 1);
    KeyIsToken(n, rest);
    assert (Key(n) + rest)[|Key(n)|..] == rest && (Key(n) + rest)[..|Key(n)|] == Key(n);
  }

  lemma LiteralStep(s: string, n: nat)
    requires |s| > 0 && TagLen(s) == 0
    ensures |Tags(s)| == |Tags(s[1..])| && Tokens(Clean(s, n)) == Tokens(Clean(s[1..], n))
  {
    hide TagLen, TokenLen, Key;
    LiteralStartsNoToken(s, n);
    assert Clean(s, n)[1..] == Clean(s[1..], n);
  }

  /** The tokens of a cleaned text are exactly the keys put there, in order. */
  lemma {:induction false} CleanTokens(s: string, n: nat)
    ensures Tokens(Clean(s, n)) == Keys(n, |Tags(s)|)
    decreases |s|
  {
    if |s| > 0 {
      hide TagLen, Key, Tokens;
      if TagLen(s) > 0 {
        TagStep(s, n);
        hide Clean, Tags;
        CleanTokens(s[TagLen(s)..], n + 1);
      } else {
        LiteralStep(s, n);
        hide Clean, Tags;
        CleanTokens(s[1..], n);
      }
    }
  }

  /** A key cannot straddle the start of a key. */
  lemma NoStraddle(prefix: string, rest: string, k: nat, n: nat, p: nat)
    requires p < |prefix| < p + |Key(k)|
    ensures !At(prefix + Key(n) + rest, p, Key(k))
  {
    var text := prefix + Key(n) + rest;
    KeyShape(n);
    KeyIsToken(k, []);
    assert Key(k) + [] == Key(k);
    TokenShape(Key(k));
    hide TokenLen, Key, At;
    assert text[|prefix|] == '<' && text[|prefix| + 1] == '<';
    var j := |prefix| - p;
    var inKey, second, inText := Key(k)[j], Key(k)[2], text[p + 2];
    AtIndex(text, p, Key(k));
  }

  /** With no token in the text so far, the first occurrence of the next key is the next tag's place. */
  lemma FirstKey(prefix: string, rest: string, n: nat)
    requires forall p :: 0 <= p < |prefix| ==> TokenLen(prefix[p..]) == 0
    ensures Find(prefix + Key(n) + rest, Key(n)) == |prefix|
  {
    var text := prefix + Key(n) + rest;
    hide TokenLen, Key, Find;
    forall p: nat | p < |prefix|
      ensures !At(text, p, Key(n))
    {
      if At(text, p, Key(n)) {
        if p + |Key(n)| <= |prefix| {
          assert prefix[p..] == Key(n) + prefix[p + |Key(n)|..] by {
            assert text[p..p + |Key(n)|] == prefix[p..p + |Key(n)|];
          }
          KeyIsToken(n, prefix[p + |Key(n)|..]);
          KeyShape(n);
        } else {
          NoStraddle(prefix, rest, n, n, p);
        }
      }
    }
    assert text[|prefix|..|prefix| + |Key(n)|] == Key(n);
    assert At(text, |prefix|, Key(n));
  }

  lemma {:induction false} RestoreClean(prefix: string, s: string, n: nat)
    requires !HasToken(prefix + s)
    ensures Restore(prefix + Clean(s, n), Keyed(Tags(s), n)) == (prefix + s, true)
    decreases |s|
  {
    hide TagLen, Key, TokenLen, HasToken, Find;
    var m := TagLen(s);
    if |s| == 0 {
      assert prefix + [] == prefix;
    } else if m > 0 {
      var rest := Clean(s[m..], n + 1);
      PrefixClean(prefix, s);
      FirstKey(prefix, rest, n);
      KeyedCons(s[..m], Tags(s[m..]), n);
      var text := prefix + Key(n) + rest;
      assert text == prefix + Clean(s, n);
      assert ReplaceFirst(text, Key(n), s[..m]) == prefix + s[..m] + rest;
      assert prefix + s == (prefix + s[..m]) + s[m..];
      RestoreClean(prefix + s[..m], s[m..], n + 1);
    } else {
      assert prefix + Clean(s, n) == (prefix + [s[0]]) + Clean(s[1..], n);
      assert prefix + s == (prefix + [s[0]]) + s[1..];
      RestoreClean(prefix + [s[0]], s[1..], n);
    }
  }

  /** A prefix of a token-free text is token-free at every position. */
  lemma PrefixClean(prefix: string, s: string)
    requires !HasToken(prefix + s)
    ensures forall p :: 0 <= p < |prefix| ==> TokenLen(prefix[p..]) == 0
  {
    HasTokenIff(prefix + s);
    forall p | 0 <= p < |prefix|
      ensures TokenLen(prefix[p..]) == 0
    {
      assert (prefix + s)[p..] == prefix[p..] + s;
      if TokenLen(prefix[p..]) > 0 {
        TokenExtends(prefix[p..], s);
      }
    }
  }

  lemma TokenExtends(s: string, rest: string)
    requires TokenLen(s) > 0
    ensures TokenLen(s + rest) == TokenLen(s)
  {
    var d := DigitRun(s[3..]);
    assert (s + rest)[0..3] == s[0..3];
    assert (s + rest)[3..] == s[3..] + rest;
    DigitsExtend(s[3..], rest);
    assert s[3..][d] == s[3 + d..3 + d + 2][0] == '>';
    assert (s + rest)[3 + d..3 + d + 2] == s[3 + d..3 + d + 2];
  }

  lemma {:induction false} DigitsExtend(s: string, rest: string)
    requires DigitRun(s) < |s|
    ensures DigitRun(s + rest) == DigitRun(s)
  {
    if IsDigit(s[0]) {
      assert (s + rest)[1..] == s[1..] + rest;
      DigitsExtend(s[1..], rest);
    }
  }

  lemma {:induction false} KeysAt(n: nat, count: nat, t: string)
    ensures t in Keys(n, count) <==> exists k :: n <= k < n + count && t == Key(k)
    decreases count
  {
    hide Key;
    if count > 0 {
      KeysAt(n + 1, count - 1, t);
    }
  }

  lemma CleanHasNoOrphans(s: string)
    ensures Orphans(Clean(s, 0), Keyed(Tags(s), 0)) == {}
  {
    var entries := Keyed(Tags(s), 0);
    CleanTokens(s, 0);
    forall t | t in Tokens(Clean(s, 0))
      ensures exists e :: e in entries && e.key == t
    {
      KeysAt(0, |Tags(s)|, t);
      var k :| 0 <= k < |Tags(s)| && t == Key(k);
      assert entries[k] in entries && entries[k].key == t;
    }
  }

  /** Reinserting into an unchanged cleaned text gives back the text, and reports success, exactly
      for texts that contain no `<<Tn>>` of their own. */
  lemma RoundTripIff(s: string)
    ensures Reinsert(Clean(s, 0), Keyed(Tags(s), 0)) == (s, true) <==> !HasToken(s)
  {
    CleanHasNoOrphans(s);
    hide Clean, Keyed, Tags, HasToken, Orphans;
    assert Unorphaned(Clean(s, 0), Keyed(Tags(s), 0)) == Clean(s, 0);
    if !HasToken(s) {
      assert [] + s == s && [] + Clean(s, 0) == Clean(s, 0);
      RestoreClean([], s, 0);
    }
  }
}
