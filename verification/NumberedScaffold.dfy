/** Which beginnings of a reply's text are taken for an echo of the prompt and cut off. */
module NumberedScaffold {
  import opened Options
  import opened Text
  import opened NumberedLines

  /** White space from `i` to `j`, and none at `j`. */
  predicate SpacesTo(s: string, i: nat, j: nat)
  {
    i <= j <= |s| && (forall k :: i <= k < j ==> IsSpace(s[k])) && (j < |s| ==> !IsSpace(s[j]))
  }

  lemma SpacesToIff(s: string, i: nat, j: nat)
    requires i <= |s|
    ensures SpacesTo(s, i, j) <==> j == AfterSpaces(s, i)
  {
    hide IsSpace;
    var n := SpaceRun(s[i..]);
    assert forall k :: i <= k < |s| ==> s[k] == s[i..][k - i];
    assert n < |s[i..]| ==> s[i + n] == s[i..][n];
    if SpacesTo(s, i, j) {
      assert j - i < |s[i..]| ==> s[i..][j - i] == s[j];
      assert !(j < i + n) && !(i + n < j);
    }
  }

  /** Whether a letter can stand for white space when case is ignored. */
  predicate Inked(word: string)
  {
    |word| > 0 && forall c: char :: Folds(c, word[0]) ==> !IsSpace(c)
  }

  lemma WordsInked()
    ensures Inked("speaker") && Inked("says") && Inked("correction") && Inked("required")
    ensures Inked("x\U{1b0}ng") && Inked("h\U{f4}")
  {
  }

  /** The two words from `i`, with white space between them, and after them up to `e`. */
  ghost predicate Phrase(s: string, i: nat, a: string, b: string, j: nat, e: nat)
  {
    && FoldsAt(s, i, a) && i + |a| < j && SpacesTo(s, i + |a|, j) && FoldsAt(s, j, b) && SpacesTo(s, j + |b|, e)
  }

  lemma TwoWordsIff(s: string, i: nat, a: string, b: string, e: nat)
    requires |a| > 0 && Inked(b)
    ensures e > 0 && TwoWords(s, i, a, b) == e <==> exists j: nat :: Phrase(s, i, a, b, j, e)
  {
    hide IsSpace, Folds;
    if FoldsAt(s, i, a) {
      var p := i + |a|;
      forall j: nat
        ensures SpacesTo(s, p, j) <==> j == AfterSpaces(s, p)
      {
        SpacesToIff(s, p, j);
      }
      var j := AfterSpaces(s, i + |a|);
      if FoldsAt(s, j, b) {
        SpacesToIff(s, j + |b|, e);
      }
      hide SpacesTo, FoldsAt;
      assert forall k: nat :: Phrase(s, i, a, b, k, e) ==> k == j;
      assert Phrase(s, i, a, b, j, e) <==> i + |a| < j && FoldsAt(s, j, b) && SpacesTo(s, j + |b|, e);
    }
  }

  /** Where a bracket, two words and a mark stand: white space, the bracket at `o`, the words from `i`, and
      the mark at `e`. */
  ghost predicate Opening(s: string, left: char, a: string, b: string, o: nat, i: nat, j: nat, e: nat)
  {
    && SpacesTo(s, 0, o) && o < |s| && s[o] == left && SpacesTo(s, o + 1, i) && Phrase(s, i, a, b, j, e) && e < |s|
  }

  /** An opening can only stand in one place. */
  lemma OpeningAt(s: string, left: char, a: string, b: string, o: nat, i: nat, j: nat, e: nat)
    requires Opening(s, left, a, b, o, i, j, e)
    ensures o == SpaceRun(s) < |s| && s[o] == left && i == AfterSpaces(s, o + 1) && Phrase(s, i, a, b, j, e) && e < |s|
  {
    hide IsSpace, SpacesTo, Phrase;
    assert s[0..] == s;
    SpacesToIff(s, 0, o);
    SpacesToIff(s, o + 1, i);
  }

  lemma OpeningThere(s: string, left: char, a: string, b: string, j: nat, e: nat)
    requires var o := SpaceRun(s); o < |s| && s[o] == left && Phrase(s, AfterSpaces(s, o + 1), a, b, j, e) && e < |s|
    ensures Opening(s, left, a, b, SpaceRun(s), AfterSpaces(s, SpaceRun(s) + 1), j, e)
  {
    hide IsSpace, SpacesTo, Phrase;
    assert s[0..] == s;
    SpacesToIff(s, 0, SpaceRun(s));
    SpacesToIff(s, SpaceRun(s) + 1, AfterSpaces(s, SpaceRun(s) + 1));
  }

  lemma OpeningIff(s: string, left: char, a: string, b: string, e: nat)
    requires |a| > 0 && Inked(b)
    ensures (exists o: nat, i: nat, j: nat :: Opening(s, left, a, b, o, i, j, e)) <==>
      var o := SpaceRun(s);
      o < |s| && s[o] == left && e > 0 && e < |s| && TwoWords(s, AfterSpaces(s, o + 1), a, b) == e
  {
    assert |b| > 0;
    hide *;
    var start := SpaceRun(s);
    if o: nat, i: nat, j: nat :| Opening(s, left, a, b, o, i, j, e) {
      OpeningAt(s, left, a, b, o, i, j, e);
      TwoWordsIff(s, i, a, b, e);
    }
    if start < |s| && s[start] == left && 0 < e < |s| && TwoWords(s, AfterSpaces(s, start + 1), a, b) == e {
      TwoWordsIff(s, AfterSpaces(s, start + 1), a, b, e);
      var j: nat :| Phrase(s, AfterSpaces(s, start + 1), a, b, j, e);
      OpeningThere(s, left, a, b, j, e);
    }
  }

  /** An echoed pronoun hint of `n` characters: a parenthesis that begins with "speaker says:" in any case
      and spacing, up to the first closing one, with the white space around it. */
  ghost predicate EchoedHint(s: string, n: nat, o: nat, i: nat, j: nat, e: nat, c: nat)
  {
    && Opening(s, '(', "speaker", "says", o, i, j, e) && s[e] == ':'
    && e <= c < |s| && s[c] == ')' && (forall k :: e <= k < c ==> s[k] != ')') && SpacesTo(s, c + 1, n)
  }

  /** The cleaning cuts off `n` characters as a pronoun hint if and only if they are one. */
  lemma HintIff(s: string, n: nat)
    ensures n > 0 && HintLen(s) == n <==> exists o: nat, i: nat, j: nat, e: nat, c: nat :: EchoedHint(s, n, o, i, j, e, c)
  {
    hide IsSpace, SpacesTo, TwoWords, AfterSpaces, Opening, Inked;
    WordsInked();
    var start := SpaceRun(s);
    if start < |s| && s[start] == '(' {
      var e := TwoWords(s, AfterSpaces(s, start + 1), "speaker", "says");
      OpeningIff(s, '(', "speaker", "says", e);
      if 0 < e < |s| && s[e] == ':' && IndexOf(s, ')', e) < |s| {
        SpacesToIff(s, IndexOf(s, ')', e) + 1, n);
        var o: nat, i: nat, j: nat :| Opening(s, '(', "speaker", "says", o, i, j, e);
        var c := IndexOf(s, ')', e);
        assert SpacesTo(s, c + 1, n) <==> EchoedHint(s, n, o, i, j, e, c);
        AfterPositive(s, c + 1);
      }
    }
    forall o: nat, i: nat, j: nat, e: nat, c: nat | EchoedHint(s, n, o, i, j, e, c)
      ensures n > 0 && HintLen(s) == n
    {
      OpeningIff(s, '(', "speaker", "says", e);
      var f := IndexOf(s, ')', e);
      assert !(f < c) && !(c < f);
      SpacesToIff(s, c + 1, n);
      AfterPositive(s, c + 1);
    }
  }

  lemma AfterPositive(s: string, i: nat)
    requires 0 < i <= |s|
    ensures AfterSpaces(s, i) > 0
  {
  }

  /** An echoed repair directive: a square bracket that holds just "correction required", in any case and
      spacing, and the rest of its line. */
  ghost predicate EchoedDirective(s: string, n: nat, o: nat, i: nat, j: nat, e: nat)
  {
    && Opening(s, '[', "correction", "required", o, i, j, e) && s[e] == ']'
    && e < n <= |s| && (n < |s| ==> s[n - 1] == '\n') && forall k :: e <= k < n - 1 ==> s[k] != '\n'
  }

  /** The cleaning cuts off `n` characters as a directive if and only if they are one, whole: the last one
      ends the line or the text. */
  lemma DirectiveIff(s: string, n: nat)
    ensures n > 0 && DirectiveLen(s) == n <==>
      exists o: nat, i: nat, j: nat, e: nat :: EchoedDirective(s, n, o, i, j, e)
  {
    hide IsSpace, SpacesTo, TwoWords, AfterSpaces, Opening, Inked;
    WordsInked();
    var start := SpaceRun(s);
    if start < |s| && s[start] == '[' {
      var e := TwoWords(s, AfterSpaces(s, start + 1), "correction", "required");
      OpeningIff(s, '[', "correction", "required", e);
      if 0 < e < |s| && s[e] == ']' {
        var o: nat, i: nat, j: nat :| Opening(s, '[', "correction", "required", o, i, j, e);
        EndOfLine(s, e, n);
        assert DirectiveLen(s) == n ==> EchoedDirective(s, n, o, i, j, e);
      }
    }
    forall o: nat, i: nat, j: nat, e: nat | EchoedDirective(s, n, o, i, j, e)
      ensures n > 0 && DirectiveLen(s) == n
    {
      OpeningIff(s, '[', "correction", "required", e);
      EndOfLine(s, e, n);
    }
  }

  lemma EndOfLine(s: string, e: nat, n: nat)
    requires e < |s| && s[e] != '\n'
    ensures var eol := IndexOf(s, '\n', e);
            (if eol < |s| then eol + 1 else eol) == n <==>
              e < n <= |s| && (n < |s| ==> s[n - 1] == '\n') && forall k :: e <= k < n - 1 ==> s[k] != '\n'
  {
    var eol := IndexOf(s, '\n', e);
    if e < n <= |s| && (n < |s| ==> s[n - 1] == '\n') && forall k :: e <= k < n - 1 ==> s[k] != '\n' {
      assert eol < |s| ==> eol >= n - 1;
      if n < |s| {
        assert eol <= n - 1;
      }
    }
  }

  /** The label "xung ho:" (with its diacritics) from `q`, in any case and spacing, before `limit`. */
  ghost predicate Label(s: string, q: nat, j: nat, e: nat, limit: nat)
  {
    Phrase(s, q, "x\U{1b0}ng", "h\U{f4}", j, e) && e < limit && e < |s| && (s[e] == ':' || s[e] == '\U{ff1a}')
  }

  /** The same hint with its labels in Vietnamese, in one kind of bracket: the label comes before the first
      closing bracket and after no other opening one. */
  ghost predicate EchoedLabel(s: string, left: char, right: char, n: nat, o: nat, q: nat, j: nat, e: nat, c: nat)
  {
    && SpacesTo(s, 0, o) && o < q < c < |s| && s[o] == left && s[c] == right
    && (forall k :: o < k < c ==> s[k] != right) && (forall k :: o < k < q ==> s[k] != left)
    && Label(s, q, j, e, c) && SpacesTo(s, c + 1, n)
  }

  lemma LabelIff(s: string, q: nat, limit: nat)
    ensures LabelAt(s, q, limit) <==> exists j: nat, e: nat :: Label(s, q, j, e, limit)
  {
    WordsInked();
    hide IsSpace, Phrase, TwoWords, Inked;
    var e := TwoWords(s, q, "x\U{1b0}ng", "h\U{f4}");
    TwoWordsIff(s, q, "x\U{1b0}ng", "h\U{f4}", e);
    if e > 0 {
      var j: nat :| Phrase(s, q, "x\U{1b0}ng", "h\U{f4}", j, e);
      assert LabelAt(s, q, limit) ==> Label(s, q, j, e, limit);
    }
    forall j: nat, f: nat | Label(s, q, j, f, limit)
      ensures LabelAt(s, q, limit)
    {
      TwoWordsIff(s, q, "x\U{1b0}ng", "h\U{f4}", f);
      PhraseEnds(s, q, "x\U{1b0}ng", "h\U{f4}", j, f);
    }
  }

  lemma PhraseEnds(s: string, i: nat, a: string, b: string, j: nat, e: nat)
    requires Phrase(s, i, a, b, j, e)
    ensures 0 < e <= |s|
  {
    hide IsSpace;
  }

  lemma SpacesFromStart(s: string, o: nat)
    ensures SpacesTo(s, 0, o) <==> o == SpaceRun(s)
  {
    assert s[0..] == s;
    SpacesToIff(s, 0, o);
  }

  lemma LabelledThere(s: string, left: char, right: char, n: nat, o: nat, q: nat, j: nat, e: nat, c: nat)
    requires EchoedLabel(s, left, right, n, o, q, j, e, c)
    ensures n > 0 && LabelledLen(s, left, right) == n
  {
    hide IsSpace, SpacesTo, AfterSpaces, Label, LabelAt;
    SpacesFromStart(s, o);
    SpacesToIff(s, c + 1, n);
    AfterPositive(s, c + 1);
    LabelIff(s, q, c);
    BracketFound(s, left, right, o, q, c);
  }

  lemma LabelledCut(s: string, left: char, right: char) returns (o: nat, q: nat, j: nat, e: nat, c: nat)
    requires LabelledLen(s, left, right) > 0
    ensures EchoedLabel(s, left, right, LabelledLen(s, left, right), o, q, j, e, c)
  {
    hide IsSpace, SpacesTo, AfterSpaces, Label, LabelAt;
    o := SpaceRun(s);
    SpacesFromStart(s, o);
    c := IndexOf(s, right, o + 1);
    q :| o < q < c && q <= IndexOf(s, left, o + 1) && LabelAt(s, q, c);
    LabelIff(s, q, c);
    j, e :| Label(s, q, j, e, c);
    SpacesToIff(s, c + 1, AfterSpaces(s, c + 1));
  }

  lemma LabelledIff(s: string, left: char, right: char, n: nat)
    ensures n > 0 && LabelledLen(s, left, right) == n <==>
      exists o: nat, q: nat, j: nat, e: nat, c: nat :: EchoedLabel(s, left, right, n, o, q, j, e, c)
  {
    hide *;
    if LabelledLen(s, left, right) > 0 {
      var o, q, j, e, c := LabelledCut(s, left, right);
    }
    forall o: nat, q: nat, j: nat, e: nat, c: nat | EchoedLabel(s, left, right, n, o, q, j, e, c)
      ensures n > 0 && LabelledLen(s, left, right) == n
    {
      LabelledThere(s, left, right, n, o, q, j, e, c);
    }
  }

  lemma BracketFound(s: string, left: char, right: char, o: nat, q: nat, c: nat)
    requires o < q < c < |s| && s[c] == right && (forall k :: o < k < c ==> s[k] != right) && (forall k :: o < k < q ==> s[k] != left)
    ensures IndexOf(s, right, o + 1) == c && q <= IndexOf(s, left, o + 1)
  {
    var f := IndexOf(s, right, o + 1);
    assert !(f < c) && !(c < f);
  }

  /** The cleaning cuts off `n` characters as a Vietnamese hint if and only if they are one in round
      brackets, or there is none in round brackets and they are one in square brackets. */
  lemma VnHintIff(s: string, n: nat)
    ensures n > 0 && VnHintLen(s) == n <==>
      || (exists o: nat, q: nat, j: nat, e: nat, c: nat :: EchoedLabel(s, '(', ')', n, o, q, j, e, c))
      || ((forall m: nat, o: nat, q: nat, j: nat, e: nat, c: nat :: !EchoedLabel(s, '(', ')', m, o, q, j, e, c))
          && exists o: nat, q: nat, j: nat, e: nat, c: nat :: EchoedLabel(s, '[', ']', n, o, q, j, e, c))
  {
    hide LabelledLen, EchoedLabel;
    LabelledIff(s, '(', ')', n);
    LabelledIff(s, '[', ']', n);
    var r := LabelledLen(s, '(', ')');
    LabelledIff(s, '(', ')', r);
    forall m: nat, o: nat, q: nat, j: nat, e: nat, c: nat | EchoedLabel(s, '(', ')', m, o, q, j, e, c)
      ensures r == m > 0
    {
      LabelledIff(s, '(', ')', m);
    }
  }
}
