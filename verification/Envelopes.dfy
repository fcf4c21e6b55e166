/** Re-wrapping a translated cue whose source is one bracketed whole. */
module Envelopes {
  import opened Options
  import opened Subtitles
  import opened Text

  function Closer(open: char): char
  {
    if open == '(' then ')' else ']'
  }

  predicate IsOpener(c: char) { c == '(' || c == '[' }

  // ---- the bracket-depth scan ------------------------------------------------------------

  function Depth(s: string, open: char): int
  {
    if |s| == 0 then 0
    else
      var d := Depth(s[..|s| - 1], open);
      var c := s[|s| - 1];
      if c == open then d + 1 else if c == Closer(open) then d - 1 else d
  }

  /** What the scan accepts: depth zero at the end, and not before. */
  ghost predicate Scans(s: string, open: char)
  {
    Depth(s, open) == 0 && forall i :: 0 < i < |s| ==> Depth(s[..i], open) != 0
  }

  predicate BracketEnds(s: string)
  {
    |s| >= 2 && IsOpener(s[0]) && s[|s| - 1] == Closer(s[0])
  }

  ghost predicate Enclosed(s: string)
  {
    BracketEnds(s) && Scans(s, s[0])
  }

  method IsEnclosed(s: string) returns (r: bool)
    ensures r == Enclosed(s)
  {
    if |s| < 2 || !IsOpener(s[0]) {
      return false;
    }
    var open, close := s[0], Closer(s[0]);
    if s[|s| - 1] != close {
      return false;
    }
    var depth := 0;
    for i := 0 to |s|
      invariant depth == Depth(s[..i], open)
      invariant forall j :: 0 < j <= i && j < |s| ==> Depth(s[..j], open) != 0
    {
      assert s[..i + 1][..i] == s[..i];
      if s[i] == open {
        depth := depth + 1;
      } else if s[i] == close {
        depth := depth - 1;
      }
      if depth == 0 && i < |s| - 1 {
        return false;
      }
    }
    assert s[..|s|] == s;
    r := depth == 0;
  }

  // ---- against bracket matching ----------------------------------------------------------

  /** Reading on from position `i` with the positions of the brackets still open: where the bracket
      at position 0 is closed, or the length of the text if it never is. */
  function MatchFrom(s: string, open: char, i: nat, stack: seq<nat>): nat
    requires i <= |s| && |stack| > 0
    decreases |s| - i
  {
    if i == |s| then |s|
    else if s[i] == open then MatchFrom(s, open, i + 1, stack + [i])
    else if s[i] == Closer(open) then
      if stack[|stack| - 1] == 0 || |stack| == 1 then i else MatchFrom(s, open, i + 1, stack[..|stack| - 1])
    else MatchFrom(s, open, i + 1, stack)
  }

  /** The position of the bracket that matches the first character. */
  function MatchOfFirst(s: string): nat
    requires |s| > 0
  {
    MatchFrom(s, s[0], 1, [0])
  }

  /** The stack of the matcher is as deep as the scan's counter. */
  lemma {:induction false} MatchIsFirstZero(s: string, open: char, i: nat, stack: seq<nat>)
    requires 0 < i <= |s| && |stack| > 0 && IsOpener(open)
    requires |stack| == Depth(s[..i], open) && (forall k :: 0 < k < |stack| ==> stack[k] > 0)
    ensures var m := MatchFrom(s, open, i, stack);
            && i <= m <= |s|
            && (m < |s| ==> s[m] == Closer(open) && Depth(s[..m + 1], open) == 0)
            && forall j :: i <= j <= m ==> Depth(s[..j], open) > 0
    decreases |s| - i
  {
    if i < |s| {
      assert s[..i + 1][..i] == s[..i];
      if s[i] == open {
        MatchIsFirstZero(s, open, i + 1, stack + [i]);
      } else if s[i] == Closer(open) {
        if |stack| > 1 {
          MatchIsFirstZero(s, open, i + 1, stack[..|stack| - 1]);
        }
      } else {
        MatchIsFirstZero(s, open, i + 1, stack);
      }
    }
  }

  /** The scan accepts a text exactly when its first character is a bracket whose match is its last
      character. */
  lemma EnclosedIff(s: string)
    ensures Enclosed(s) <==> |s| >= 2 && IsOpener(s[0]) && MatchOfFirst(s) == |s| - 1
  {
    if |s| >= 2 && IsOpener(s[0]) {
      var open := s[0];
      assert s[..1][..0] == [] && Depth(s[..1], open) == 1;
      MatchIsFirstZero(s, open, 1, [0]);
      var m := MatchOfFirst(s);
      assert s[..|s|] == s;
      if m < |s| - 1 {
        assert Depth(s[..m + 1], open) == 0;
      }
    }
  }

  // ---- one cue ---------------------------------------------------------------------------

  predicate Wrapped(text: string, open: char)
  {
    StartsWith(Strip(text), [open]) && EndsWith(Strip(text), [Closer(open)])
  }

  /** The cue after the pass: raw cues, cues without an enclosed source and cues already wrapped stay
      as they are. */
  ghost function Preserved(src: SubLine, trn: SubLine): SubLine
  {
    var s := Strip(src.text);
    if trn.raw.Some? || !Enclosed(s) || Wrapped(trn.text, s[0]) then trn
    else SubLine(src.index, src.startTc, src.endTc, [s[0]] + trn.text + [Closer(s[0])], None)
  }

  method PreserveLine(src: SubLine, trn: SubLine) returns (r: SubLine)
    ensures r == Preserved(src, trn)
  {
    if trn.raw.Some? {
      return trn;
    }
    var s := Strip(src.text);
    var enclosed := IsEnclosed(s);
    if !enclosed {
      return trn;
    }
    var t := Strip(trn.text);
    if StartsWith(t, [s[0]]) && EndsWith(t, [Closer(s[0])]) {
      return trn;
    }
    r := SubLine(src.index, src.startTc, src.endTc, [s[0]] + trn.text + [Closer(s[0])], None);
  }

  lemma BracketsAreNotSpace(c: char)
    ensures c == '(' || c == ')' || c == '[' || c == ']' ==> !IsSpace(c)
  {
  }

  /** A cue just wrapped counts as wrapped. */
  lemma WrapSticks(text: string, open: char)
    requires IsOpener(open)
    ensures Wrapped([open] + text + [Closer(open)], open)
  {
    var t := [open] + text + [Closer(open)];
    BracketsAreNotSpace(open);
    BracketsAreNotSpace(Closer(open));
    assert t[0] == open && t[|t| - 1] == Closer(open);
    StripTrimmed(t);
    assert t[0..1] == [open] && t[|t| - 1..] == [Closer(open)];
  }

  /** Applying the pass to a cue twice is applying it once. */
  lemma PreservedTwice(src: SubLine, trn: SubLine)
    ensures Preserved(src, Preserved(src, trn)) == Preserved(src, trn)
  {
    var s := Strip(src.text);
    if Enclosed(s) {
      WrapSticks(trn.text, s[0]);
    }
  }

  /** What the pass does to a cue: the whole text, in the bracket that encloses the whole source, with its own
      closing one, unless it is in that bracket already; any other cue stays. */
  lemma WrapsIn(src: SubLine, trn: SubLine)
    ensures var s, t := Strip(src.text), Strip(trn.text);
            var close := if |s| > 0 && s[0] == '(' then ')' else ']';
            Preserved(src, trn) ==
              if trn.raw.None? && |s| >= 2 && (s[0] == '(' || s[0] == '[') && MatchOfFirst(s) == |s| - 1
                 && !(|t| > 0 && t[0] == s[0] && t[|t| - 1] == close)
              then SubLine(src.index, src.startTc, src.endTc, [s[0]] + trn.text + [close], None)
              else trn
  {
    var s, t := Strip(src.text), Strip(trn.text);
    EnclosedIff(s);
    hide Strip, Enclosed, MatchOfFirst;
    if |t| > 0 {
      assert t[0..1] == [t[0]] && t[|t| - 1..] == [t[|t| - 1]];
    }
  }

  // ---- the document ----------------------------------------------------------------------

  ghost function PreservedLines(src: seq<SubLine>, trn: seq<SubLine>): (r: seq<SubLine>)
    ensures |r| == (if |src| <= |trn| then |src| else |trn|)
    ensures forall i :: 0 <= i < |r| ==> r[i] == Preserved(src[i], trn[i])
  {
    var n := if |src| <= |trn| then |src| else |trn|;
    seq(n, i requires 0 <= i < n => Preserved(src[i], trn[i]))
  }

  method PreserveSourceEnvelopes(src: seq<SubLine>, trn: seq<SubLine>) returns (r: seq<SubLine>)
    ensures r == PreservedLines(src, trn)
  {
    r := [];
    var n := if |src| <= |trn| then |src| else |trn|;
    for i := 0 to n
      invariant |r| == i && forall j :: 0 <= j < i ==> r[j] == Preserved(src[j], trn[j])
    {
      var l := PreserveLine(src[i], trn[i]);
      r := r + [l];
    }
  }

  /** The pass is idempotent on documents, and changes exactly the texts of the translatable cues
      with an enclosed source that were not wrapped yet. */
  lemma PassIdempotent(src: seq<SubLine>, trn: seq<SubLine>)
    requires |src| == |trn|
    ensures var once := PreservedLines(src, trn);
            && PreservedLines(src, once) == once
            && forall i :: 0 <= i < |trn| && SameFrameLine(src[i], trn[i]) ==>
                 (once[i] == trn[i] <==> !NeedsWrap(src[i], trn[i]))
  {
    var once := PreservedLines(src, trn);
    forall i | 0 <= i < |trn|
      ensures Preserved(src[i], once[i]) == once[i]
      ensures SameFrameLine(src[i], trn[i]) ==> (once[i] == trn[i] <==> !NeedsWrap(src[i], trn[i]))
    {
      PreservedTwice(src[i], trn[i]);
      if NeedsWrap(src[i], trn[i]) {
        assert |once[i].text| == |trn[i].text| + 2;
      }
    }
    assert PreservedLines(src, once) == once;
  }

  ghost predicate NeedsWrap(src: SubLine, trn: SubLine)
  {
    trn.raw.None? && Enclosed(Strip(src.text)) && !Wrapped(trn.text, Strip(src.text)[0])
  }

  /** A translated cue in the frame of its source: same index and timecodes, raw exactly if the source
      is, and then unchanged. */
  predicate SameFrameLine(src: SubLine, trn: SubLine)
  {
    && trn.index == src.index && trn.startTc == src.startTc && trn.endTc == src.endTc
    && (src.raw.Some? <==> trn.raw.Some?)
    && (src.raw.Some? ==> trn == src)
  }
}
