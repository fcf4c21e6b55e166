/** The ASS/SSA reader and writer on decoded text. */
module Ass {
  import opened Options
  import opened Subtitles
  import opened Text
  import opened Blocks

  // ---- lines -----------------------------------------------------------------------------

  /** Of all the breaks a line may end with, only these three are recognised. */
  function Ending(line: string): (e: string)
    ensures |e| <= |line| && EndsWith(line, e)
  {
    if EndsWith(line, "\r\n") then "\r\n"
    else if EndsWith(line, "\n") then "\n"
    else if EndsWith(line, "\r") then "\r"
    else []
  }

  function Content(line: string): string
  {
    line[..|line| - |Ending(line)|]
  }

  // ---- fields ----------------------------------------------------------------------------

  function CommaAt(s: string): (n: nat)
    ensures n <= |s|
    ensures forall k :: 0 <= k < n ==> s[k] != ','
    ensures n < |s| ==> s[n] == ','
  {
    if |s| == 0 || s[0] == ',' then 0 else 1 + CommaAt(s[1..])
  }

  /** `str.split(",", max)`. */
  function SplitMax(s: string, max: nat): (parts: seq<string>)
    ensures 1 <= |parts| <= max + 1
    decreases max
  {
    if max == 0 || CommaAt(s) == |s| then [s]
    else [s[..CommaAt(s)]] + SplitMax(s[CommaAt(s) + 1..], max - 1)
  }

  function Commas(s: string): nat
  {
    if |s| == 0 then 0 else (if s[0] == ',' then 1 else 0) + Commas(s[1..])
  }

  /** `",".join(parts) + ","`. */
  function Joined(parts: seq<string>): string
  {
    if |parts| == 0 then [] else parts[0] + "," + Joined(parts[1..])
  }

  // ---- karaoke and drawing runs ----------------------------------------------------------

  /** `k` and its case variants, the Kelvin sign among them. */
  predicate IsK(c: char) { c == 'k' || c == 'K' || c == '\U{212a}' }

  predicate IsKind(c: char)
  {
    c == 'f' || c == 'F' || c == 'o' || c == 'O' || c == 't' || c == 'T'
    || c == 'i' || c == 'I' || c == '\U{130}' || c == '\U{131}'
  }

  /** Digits, at least one, closed by a brace. */
  predicate NumberBrace(s: string)
  {
    DigitRun(s) > 0 && DigitRun(s) < |s| && s[DigitRun(s)] == '}'
  }

  predicate KaraokeHere(s: string)
  {
    |s| > 3 && s[0] == '{' && s[1] == '\\' && IsK(s[2]) && (NumberBrace(s[3..]) || (IsKind(s[3]) && NumberBrace(s[4..])))
  }

  predicate DrawingHere(s: string)
  {
    |s| > 4 && s[0] == '{' && s[1] == '\\' && s[2] == 'p' && '1' <= s[3] <= '9' && NumberBrace(s[3..])
  }

  predicate IsSpecial(text: string)
  {
    |text| > 0 && (KaraokeHere(text) || DrawingHere(text) || IsSpecial(text[1..]))
  }

  // ---- the Events section ----------------------------------------------------------------

  /** A Dialogue cue: raw when it is karaoke or a drawing. */
  function Cue(startTc: string, endTc: string, text: string): SubLine
  {
    SubLine([], startTc, endTc, text, if IsSpecial(text) then Some(text) else None)
  }

  /** The state of the loop over the lines of the section.  `ok` turns false where the source raises
      an index error: a Dialogue line under a Format of two fields. */
  datatype Events = Events(commas: nat, segments: seq<AssSegment>, lines: seq<SubLine>, ok: bool)

  function Opaque(st: Events, line: string): Events
  {
    st.(segments := st.segments + [AssOpaque(line)])
  }

  function Slot(st: Events, prefix: string, ending: string, cue: SubLine): Events
  {
    st.(segments := st.segments + [AssSlot(prefix, ending, |st.lines|)], lines := st.lines + [cue])
  }

  function Dialogue(st: Events, line: string): Events
  {
    var content := Content(line);
    var parts := SplitMax(content, st.commas);
    if |parts| < st.commas + 1 then
      Slot(st, [], Ending(line), SubLine([], [], [], content, Some(content)))
    else if |parts| < 3 then st.(ok := false)
    else
      Slot(st, Joined(parts[..st.commas]), Ending(line), Cue(Strip(parts[1]), Strip(parts[2]), parts[st.commas]))
  }

  function Line(st: Events, line: string): Events
  {
    var content := Content(line);
    if !st.ok then st
    else if StartsWith(content, "Format:") then
      var fields := Commas(content[7..]) + 1;
      Opaque(if fields >= 2 then st.(commas := fields - 1) else st, line)
    else if StartsWith(content, "Comment:") then Opaque(st, line)
    else if StartsWith(content, "Dialogue:") then Dialogue(st, line)
    else Opaque(st, line)
  }

  function Fold(lines: seq<string>): Events
  {
    if |lines| == 0 then Events(9, [], [], true) else Line(Fold(lines[..|lines| - 1]), lines[|lines| - 1])
  }

  // ---- sections --------------------------------------------------------------------------

  /** `^\[` in multi-line mode, past the first character. */
  predicate Header(s: string, p: nat)
  {
    0 < p < |s| && s[p] == '[' && s[p - 1] == '\n'
  }

  function NextHeader(s: string, p: nat): (q: nat)
    requires 0 < p <= |s|
    ensures p <= q <= |s|
    ensures q < |s| ==> Header(s, q)
    ensures forall k :: p <= k < q ==> !Header(s, k)
    decreases |s| - p
  {
    if p == |s| || Header(s, p) then p else NextHeader(s, p + 1)
  }

  /** The file cut before each section header; the first piece may be text before any header. */
  function Sections(s: string): seq<string>
    decreases |s|
  {
    if |s| == 0 then [] else [s[..NextHeader(s, 1)]] + Sections(s[NextHeader(s, 1)..])
  }

  function Before(s: string, sep: string): string
  {
    if Contains(s, sep) then s[..Find(s, sep)] else s
  }

  /** The first line of a section, by the line ending of the file or else by plain newlines. */
  function HeaderLine(s: string, le: string): string
  {
    Before(s, if Contains(s, le) then le else "\n")
  }

  predicate IsEvents(piece: string, le: string)
  {
    && |piece| > 0 && piece[0] == '['
    && Strip(HeaderLine(piece, le)) == "[Events]"
  }

  /** Index of the first Events section, or the number of pieces. */
  function EventsAt(pieces: seq<string>, le: string): (k: nat)
    ensures k <= |pieces|
  {
    if |pieces| == 0 || IsEvents(pieces[0], le) then 0 else 1 + EventsAt(pieces[1..], le)
  }

  function Verbatim(pieces: seq<string>): (r: seq<AssSegment>)
    ensures |r| == |pieces| && forall k :: 0 <= k < |r| ==> r[k] == AssOpaque(pieces[k])
  {
    seq(|pieces|, k requires 0 <= k < |pieces| => AssOpaque(pieces[k]))
  }

  function Document(segments: seq<AssSegment>, lines: seq<SubLine>, le: string): SubDoc
  {
    SubDoc(lines, le, [], [], [], AssDoc(segments))
  }

  /** The reader; `None` where the source raises. */
  function Read(s: string): Option<SubDoc>
  {
    var le := LineEnding(s);
    var pieces := if |s| == 0 then [[]] else Sections(s);
    var k := EventsAt(pieces, le);
    if k == |pieces| then Some(Document(Verbatim(pieces), [], le))
    else
      var st := Fold(Lines(pieces[k]));
      if st.ok then Some(Document(Verbatim(pieces[..k]) + st.segments + Verbatim(pieces[k + 1..]), st.lines, le))
      else None
  }

  // ---- writing ---------------------------------------------------------------------------

  predicate Slotted(segments: seq<AssSegment>, lines: seq<SubLine>)
  {
    forall g :: g in segments && g.AssSlot? ==> g.subIndex < |lines|
  }

  function TextOut(l: SubLine): string
  {
    if l.raw.Some? then l.raw.value else l.text
  }

  function Part(g: AssSegment, lines: seq<SubLine>): string
    requires g.AssSlot? ==> g.subIndex < |lines|
  {
    match g
    case AssOpaque(raw) => raw
    case AssSlot(prefix, ending, i) => prefix + TextOut(lines[i]) + ending
  }

  function Written(segments: seq<AssSegment>, lines: seq<SubLine>): string
    requires Slotted(segments, lines)
  {
    if |segments| == 0 then []
    else
      var n := |segments| - 1;
      assert forall g :: g in segments[..n] ==> g in segments;
      assert segments[n] in segments;
      Written(segments[..n], lines) + Part(segments[n], lines)
  }

  predicate Writable(doc: SubDoc)
  {
    doc.envelope.AssDoc? && Slotted(doc.envelope.segments, doc.lines)
  }

  function Write(doc: SubDoc): string
    requires Writable(doc)
  {
    Written(doc.envelope.segments, doc.lines)
  }
}
