/** The VTT reader and writer on decoded text. */
module Vtt {
  import opened Options
  import opened Subtitles
  import opened Text
  import opened Blocks

  // ---- timing lines ----------------------------------------------------------------------

  function WordRun(s: string): (n: nat)
    ensures n <= |s|
  {
    if |s| == 0 || IsSpace(s[0]) then 0 else 1 + WordRun(s[1..])
  }

  /** `\s*-->\s*\S+` at the start. */
  predicate ArrowHere(s: string)
  {
    var w := SpaceRun(s);
    At(s, w, "-->") && SpaceRun(s[w + 3..]) < |s[w + 3..]|
  }

  /** The first group of the pattern is greedy: the longest prefix of at most `k` characters that
      the arrow follows (0: none). */
  function StartLen(s: string, k: nat): (n: nat)
    requires k <= |s|
    ensures n <= k && (n > 0 ==> ArrowHere(s[n..]))
  {
    if k == 0 then 0 else if ArrowHere(s[k..]) then k else StartLen(s, k - 1)
  }

  function PastArrow(x: string): string
    requires ArrowHere(x)
  {
    x[SpaceRun(x) + 3..]
  }

  function PastSpaces(y: string): string
  {
    y[SpaceRun(y)..]
  }

  function FirstWord(z: string): string
  {
    z[..WordRun(z)]
  }

  /** The word after the arrow. */
  function EndOf(x: string): string
    requires ArrowHere(x)
  {
    FirstWord(PastSpaces(PastArrow(x)))
  }

  function SplitTimes(s: string): Option<Times>
  {
    var n := StartLen(s, WordRun(s));
    if n == 0 then None else Some(Times(s[..n], EndOf(s[n..])))
  }

  // ---- blocks ----------------------------------------------------------------------------

  predicate HasArrow(line: string) { Contains(line, "-->") }

  predicate IsNote(line: string)
  {
    StartsWith(line, "NOTE") || StartsWith(line, "STYLE") || StartsWith(line, "REGION")
  }

  /** How many header lines the block has: 1 for a timing line, 2 for an identifier and a timing
      line, 0 for a block that is kept verbatim. */
  function Headers(block: string): (n: nat)
    ensures n <= 2 && n <= |Lines(block)|
  {
    var ls := Lines(block);
    if |ls| == 0 || IsNote(Body(ls[0])) then 0
    else
      var n := if HasArrow(Body(ls[0])) then 1 else if |ls| >= 2 && HasArrow(Body(ls[1])) then 2 else 0;
      if n > 0 && SplitTimes(Strip(Body(ls[n - 1]))).Some? then n else 0
  }

  /** Past one line ending of the usual kinds, if there is one. */
  function SkipEnding(s: string, pos: nat): (p: nat)
    requires pos <= |s|
    ensures pos <= p <= |s|
  {
    if At(s, pos, "\r\n") then pos + 2
    else if pos < |s| && (s[pos] == '\r' || s[pos] == '\n') then pos + 1
    else pos
  }

  function SkipLine(s: string, line: string, pos: nat): (p: nat)
    requires pos <= |s|
    ensures p <= |s|
  {
    var f := FindFrom(s, line, pos);
    if f <= |s| then SkipEnding(s, f + |line|) else pos
  }

  function Payload(block: string, identifier: Option<string>, timing: string): string
  {
    var pos := if identifier.Some? then SkipLine(block, identifier.value, 0) else 0;
    block[SkipLine(block, timing, pos)..]
  }

  function Identifier(block: string): Option<string>
    requires Headers(block) > 0
  {
    if Headers(block) == 2 then Some(Body(Lines(block)[0])) else None
  }

  function Timing(block: string): string
    requires Headers(block) > 0
  {
    Body(Lines(block)[Headers(block) - 1])
  }

  function CueOf(block: string): SubLine
    requires Headers(block) > 0
  {
    var t := SplitTimes(Strip(Timing(block))).value;
    SubLine([], t.start, t.end, Payload(block, Identifier(block), Timing(block)), None)
  }

  datatype Parsed = Parsed(blocks: seq<VttBlock>, lines: seq<SubLine>)

  /** The first block is the header of the file, whatever it says. */
  function ParseOne(p: Parsed, block: string, sep: string): Parsed
  {
    if |p.blocks| > 0 && Headers(block) > 0 then
      Parsed(p.blocks + [VttCue(Identifier(block), Timing(block), |p.lines|, sep)], p.lines + [CueOf(block)])
    else Parsed(p.blocks + [VttOpaque(block, sep)], p.lines)
  }

  /** Parses the first `n` blocks; the last block of the file has no separator. */
  function ParseAll(c: Cut, n: nat): (p: Parsed)
    requires n <= |c.blocks| && |c.blocks| == |c.seps| + 1
    ensures |p.blocks| == n
  {
    if n == 0 then Parsed([], [])
    else ParseOne(ParseAll(c, n - 1), c.blocks[n - 1], if n - 1 < |c.seps| then c.seps[n - 1] else [])
  }

  function Read(s: string): SubDoc
  {
    var c := SplitBlocks(s);
    var p := ParseAll(c, |c.blocks|);
    SubDoc(p.lines, LineEnding(s), [], [], [], VttDoc(p.blocks))
  }

  // ---- writing ---------------------------------------------------------------------------

  predicate Slotted(blocks: seq<VttBlock>, lines: seq<SubLine>)
  {
    forall b :: b in blocks && b.VttCue? ==> b.subIndex < |lines|
  }

  function Part(b: VttBlock, lines: seq<SubLine>, le: string): string
    requires b.VttCue? ==> b.subIndex < |lines|
  {
    match b
    case VttOpaque(raw, sep) => raw + sep
    case VttCue(id, timing, i, sep) =>
      var payload := if lines[i].raw.Some? then lines[i].raw.value else lines[i].text;
      (if id.Some? then id.value + le else []) + (timing + le) + payload + sep
  }

  function Written(blocks: seq<VttBlock>, lines: seq<SubLine>, le: string): string
    requires Slotted(blocks, lines)
  {
    if |blocks| == 0 then []
    else
      var n := |blocks| - 1;
      assert blocks[n] in blocks && forall b :: b in blocks[..n] ==> b in blocks;
      Written(blocks[..n], lines, le) + Part(blocks[n], lines, le)
  }

  predicate Writable(doc: SubDoc)
  {
    doc.envelope.VttDoc? && Slotted(doc.envelope.blocks, doc.lines)
  }

  function Write(doc: SubDoc): string
    requires Writable(doc)
  {
    Written(doc.envelope.blocks, doc.lines, doc.lineEnding)
  }

  // ---- as loops --------------------------------------------------------------------------

  method ExtractPayload(block: string, identifier: Option<string>, timing: string) returns (payload: string)
    ensures payload == Payload(block, identifier, timing)
  {
    hide FindFrom, SkipEnding;
    var pos := 0;
    if identifier.Some? {
      var idPos := FindFrom(block, identifier.value, pos);
      if idPos <= |block| {
        pos := SkipEnding(block, idPos + |identifier.value|);
      }
    }
    var tcPos := FindFrom(block, timing, pos);
    if tcPos <= |block| {
      pos := SkipEnding(block, tcPos + |timing|);
    }
    payload := block[pos..];
  }

  method ReadVtt(s: string) returns (doc: SubDoc)
    ensures doc == Read(s)
  {
    hide SplitBlocks, Headers, LineEnding, Timing, Identifier, CueOf, SplitTimes;
    var le := LineEnding(s);
    var c := SplitBlocks(s);
    var seps := c.seps;
    while |seps| < |c.blocks|
      invariant c.seps <= seps && |seps| <= |c.blocks|
      invariant |seps| == |c.blocks| ==> seps[|c.seps|] == []
    {
      seps := seps + [[]];
    }
    var blocks: seq<VttBlock>, lines: seq<SubLine> := [], [];
    for i := 0 to |c.blocks|
      invariant ParseAll(c, i) == Parsed(blocks, lines)
    {
      var block := c.blocks[i];
      assert seps[i] == if i < |c.seps| then c.seps[i] else [];
      if i == 0 || Headers(block) == 0 {
        blocks := blocks + [VttOpaque(block, seps[i])];
      } else {
        blocks, lines := blocks + [VttCue(Identifier(block), Timing(block), |lines|, seps[i])], lines + [CueOf(block)];
      }
    }
    doc := SubDoc(lines, le, [], [], [], VttDoc(blocks));
  }

  method WriteBlock(b: VttBlock, lines: seq<SubLine>, le: string) returns (s: string)
    requires b.VttCue? ==> b.subIndex < |lines|
    ensures s == Part(b, lines, le)
  {
    if b.VttOpaque? {
      return b.raw + b.trailingSep;
    }
    var l := lines[b.subIndex];
    s := [];
    if b.identifier.Some? {
      s := b.identifier.value + le;
    }
    s := s + (b.timing + le);
    s := s + (if l.raw.Some? then l.raw.value else l.text);
    s := s + b.trailingSep;
  }

  method WriteVtt(doc: SubDoc) returns (s: string)
    requires Writable(doc)
    ensures s == Write(doc)
  {
    hide Part;
    var blocks, le := doc.envelope.blocks, doc.lineEnding;
    s := [];
    for i := 0 to |blocks|
      invariant Slotted(blocks[..i], doc.lines) && s == Written(blocks[..i], doc.lines, le)
    {
      var b := blocks[i];
      assert b in blocks;
      assert blocks[..i + 1][..i] == blocks[..i] && blocks[..i + 1] == blocks[..i] + [b];
      var part := WriteBlock(b, doc.lines, le);
      s := s + part;
    }
    assert blocks[..|blocks|] == blocks;
  }
}
