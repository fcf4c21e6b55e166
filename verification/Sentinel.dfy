/** Protection of inline tags by `<<Tn>>` tokens: extraction before a call, reinsertion after it. */
module Sentinel {
  import opened Text

  // ---- the two patterns ------------------------------------------------------------------

  /** Length of the run before the first `stop`, or of the whole text if there is none. */
  function Until(s: string, stop: char): (n: nat)
    ensures n <= |s|
    ensures forall k :: 0 <= k < n ==> s[k] != stop
    ensures n < |s| ==> s[n] == stop
  {
    if |s| == 0 || s[0] == stop then 0 else 1 + Until(s[1..], stop)
  }

  /** Length of the inline tag at the start of the text (0: none): an angle-bracket tag, an override
      block, or one of the three hard-break escapes, tried in this order. */
  function TagLen(s: string): (n: nat)
    ensures n <= |s|
  {
    if |s| >= 3 && s[0] == '<' && 1 <= Until(s[1..], '>') < |s| - 1 then Until(s[1..], '>') + 2
    else if |s| >= 4 && s[0] == '{' && s[1] == '\\' && 1 <= Until(s[2..], '}') < |s| - 2 then Until(s[2..], '}') + 3
    else if |s| >= 2 && s[0] == '\\' && (s[1] == 'N' || s[1] == 'n' || s[1] == 'h') then 2
    else 0
  }

  /** Length of the token `<<Tn>>` at the start of the text (0: none). */
  function TokenLen(s: string): (n: nat)
    ensures n <= |s|
    ensures n > 0 ==> n >= 6 && s[..3] == "<<T" && s[n - 2..n] == ">>"
    ensures n > 0 ==> forall k :: 3 <= k < n - 2 ==> IsDigit(s[k])
  {
    if At(s, 0, "<<T") then
      var d := DigitRun(s[3..]);
      if d > 0 && At(s, 3 + d, ">>") then
        assert forall k :: 3 <= k < 3 + d ==> s[k] == s[3..][k - 3];
        d + 5
      else 0
    else 0
  }

  /** Every token of the text, left to right. */
  function Tokens(s: string): (r: seq<string>)
    decreases |s|
  {
    if |s| == 0 then []
    else if TokenLen(s) > 0 then [s[..TokenLen(s)]] + Tokens(s[TokenLen(s)..])
    else Tokens(s[1..])
  }

  predicate HasToken(s: string)
  {
    |Tokens(s)| > 0
  }

  // ---- keys ------------------------------------------------------------------------------

  function Key(n: nat): string
  {
    "<<T" + Decimal(n) + ">>"
  }

  lemma {:induction false} DecimalInjective(m: nat, n: nat)
    requires Decimal(m) == Decimal(n)
    ensures m == n
  {
    var a, b := Decimal(m), Decimal(n);
    assert a[|a| - 1] == b[|b| - 1];
    if m >= 10 && n >= 10 {
      assert a[..|a| - 1] == Decimal(m / 10) && b[..|b| - 1] == Decimal(n / 10);
      DecimalInjective(m / 10, n / 10);
    }
  }

  /** What follows a key does not change the token it makes. */
  lemma KeyIsToken(n: nat, rest: string)
    ensures TokenLen(Key(n) + rest) == |Key(n)|
  {
    var d := Decimal(n);
    var s := Key(n) + rest;
    assert s[3..] == d + (">>" + rest);
    RunOfDigits(d, ">>" + rest);
    assert s[3 + |d|..3 + |d| + 2] == ">>";
    assert s[0..3] == "<<T";
  }

  lemma {:induction false} RunOfDigits(d: string, rest: string)
    requires forall k :: 0 <= k < |d| ==> '0' <= d[k] <= '9'
    requires |rest| > 0 ==> !IsDigit(rest[0])
    ensures DigitRun(d + rest) == |d|
  {
    if |d| > 0 {
      assert (d + rest)[1..] == d[1..] + rest;
      RunOfDigits(d[1..], rest);
    } else {
      assert d + rest == rest;
    }
  }

  lemma KeysDiffer(m: nat, n: nat)
    requires Key(m) == Key(n)
    ensures m == n
  {
    assert Key(m)[3..|Key(m)| - 2] == Decimal(m) && Key(n)[3..|Key(n)| - 2] == Decimal(n);
    DecimalInjective(m, n);
  }

  // ---- extraction ------------------------------------------------------------------------

  /** The text with its tags replaced by keys numbered from `n`. */
  function Clean(s: string, n: nat): string
    decreases |s|
  {
    if |s| == 0 then []
    else if TagLen(s) > 0 then Key(n) + Clean(s[TagLen(s)..], n + 1)
    else [s[0]] + Clean(s[1..], n)
  }

  function Tags(s: string): seq<string>
    decreases |s|
  {
    if |s| == 0 then []
    else if TagLen(s) > 0 then [s[..TagLen(s)]] + Tags(s[TagLen(s)..])
    else Tags(s[1..])
  }

  /** A sentinel map in insertion order. */
  datatype Entry = Entry(key: string, tag: string)

  function Keyed(tags: seq<string>, n: nat): (r: seq<Entry>)
    ensures |r| == |tags|
    ensures forall k :: 0 <= k < |tags| ==> r[k] == Entry(Key(n + k), tags[k])
  {
    seq(|tags|, k requires 0 <= k < |tags| => Entry(Key(n + k), tags[k]))
  }

  lemma KeyedCons(tag: string, tags: seq<string>, n: nat)
    ensures Keyed([tag] + tags, n) == [Entry(Key(n), tag)] + Keyed(tags, n + 1)
  {
  }

  /** The scan has reached position `i`. */
  ghost predicate Scanned(text: string, i: nat, cleaned: string, entries: seq<Entry>)
  {
    && i <= |text|
    && Clean(text, 0) == cleaned + Clean(text[i..], |entries|)
    && Keyed(Tags(text), 0) == entries + Keyed(Tags(text[i..]), |entries|)
  }

  lemma TagScanned(text: string, i: nat, cleaned: string, entries: seq<Entry>)
    requires Scanned(text, i, cleaned, entries) && i < |text| && TagLen(text[i..]) > 0
    ensures var m := TagLen(text[i..]);
            Scanned(text, i + m, cleaned + Key(|entries|), entries + [Entry(Key(|entries|), text[i..][..m])])
  {
    hide Key, TagLen, Keyed;
    var rest := text[i..];
    var m := TagLen(rest);
    KeyedCons(rest[..m], Tags(rest[m..]), |entries|);
    assert rest[m..] == text[i + m..];
  }

  lemma LiteralScanned(text: string, i: nat, cleaned: string, entries: seq<Entry>)
    requires Scanned(text, i, cleaned, entries) && i < |text| && TagLen(text[i..]) == 0
    ensures Scanned(text, i + 1, cleaned + [text[i]], entries)
  {
    hide Key, TagLen, Keyed;
    assert text[i..][1..] == text[i + 1..];
  }

  lemma ScanEnds(text: string, cleaned: string, entries: seq<Entry>)
    ensures Scanned(text, 0, [], [])
    ensures Scanned(text, |text|, cleaned, entries) ==> cleaned == Clean(text, 0) && entries == Keyed(Tags(text), 0)
  {
    assert text[0..] == text && text[|text|..] == [];
  }

  method ExtractSentinels(text: string) returns (cleaned: string, entries: seq<Entry>)
    ensures cleaned == Clean(text, 0) && entries == Keyed(Tags(text), 0)
  {
    hide *;
    cleaned, entries := [], [];
    var counter, i := 0, 0;
    ScanEnds(text, cleaned, entries);
    while i < |text|
      invariant 0 <= i <= |text| && counter == |entries| && Scanned(text, i, cleaned, entries)
      decreases |text| - i
    {
      var m := TagLen(text[i..]);
      if m > 0 {
        TagScanned(text, i, cleaned, entries);
        cleaned := cleaned + Key(counter);
        entries := entries + [Entry(Key(counter), text[i..][..m])];
        counter := counter + 1;
        i := i + m;
      } else {
        LiteralScanned(text, i, cleaned, entries);
        cleaned := cleaned + [text[i]];
        i := i + 1;
      }
    }
    ScanEnds(text, cleaned, entries);
  }

  // ---- reinsertion -----------------------------------------------------------------------

  /** Length of an orphan token at the start, with the white space around it (0: none). */
  function OrphanLen(s: string, orphans: set<string>): (n: nat)
    ensures n <= |s|
  {
    var w := SpaceRun(s);
    var m := TokenLen(s[w..]);
    if m > 0 && s[w..][..m] in orphans then w + m + SpaceRun(s[w + m..]) else 0
  }

  /** Every orphan token, with the white space around it, becomes one space. */
  function DropOrphans(s: string, orphans: set<string>): string
    decreases |s|
  {
    if |s| == 0 then []
    else if OrphanLen(s, orphans) > 0 then " " + DropOrphans(s[OrphanLen(s, orphans)..], orphans)
    else [s[0]] + DropOrphans(s[1..], orphans)
  }

  function Orphans(s: string, entries: seq<Entry>): set<string>
  {
    (set t | t in Tokens(s)) - (set e | e in entries :: e.key)
  }

  function ReplaceFirst(s: string, key: string, tag: string): string
    requires Contains(s, key)
  {
    s[..Find(s, key)] + tag + s[Find(s, key) + |key|..]
  }

  /** One key after the other; a missing key fails. */
  function Restore(s: string, entries: seq<Entry>): (string, bool)
    decreases |entries|
  {
    if |entries| == 0 then (s, true)
    else if !Contains(s, entries[0].key) then (s, false)
    else Restore(ReplaceFirst(s, entries[0].key, entries[0].tag), entries[1..])
  }

  function Unorphaned(s: string, entries: seq<Entry>): string
  {
    if Orphans(s, entries) == {} then s else Strip(DropOrphans(s, Orphans(s, entries)))
  }

  function Reinsert(s: string, entries: seq<Entry>): (string, bool)
  {
    var (text, ok) := Restore(Unorphaned(s, entries), entries);
    (text, ok && !HasToken(text))
  }

  method ReinsertSentinels(s: string, entries: seq<Entry>) returns (text: string, ok: bool)
    ensures (text, ok) == Reinsert(s, entries)
  {
    text := s;
    var orphans := Orphans(s, entries);
    if orphans != {} {
      text := Strip(DropOrphans(s, orphans));
    }
    var k := 0;
    while k < |entries|
      invariant 0 <= k <= |entries|
      invariant Restore(Unorphaned(s, entries), entries) == Restore(text, entries[k..])
    {
      if !Contains(text, entries[k].key) {
        return text, false;
      }
      text := ReplaceFirst(text, entries[k].key, entries[k].tag);
      assert entries[k..][1..] == entries[k + 1..];
      k := k + 1;
    }
    ok := !HasToken(text);
  }
}
