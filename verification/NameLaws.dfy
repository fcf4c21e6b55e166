/** Which character a name of an attribution stands for, and which names an attribution keeps. */
module NameLaws {
  import opened Options
  import opened Text
  import opened BibleStore
  import opened Attribution

  // ---- resolving a name ------------------------------------------------------------------

  /** Character `id` is the last one on the roster whose name, trimmed and lowered, is `key`. */
  ghost predicate Bears(names: seq<string>, lower: string -> string, key: string, id: nat)
  {
    1 <= id <= |names| && lower(Strip(names[id - 1])) == key
    && forall j :: id <= j < |names| ==> lower(Strip(names[j])) != key
  }

  ghost predicate Nobody(names: seq<string>, lower: string -> string, key: string)
  {
    forall j :: 0 <= j < |names| ==> lower(Strip(names[j])) != key
  }

  lemma {:induction false} IndexIff(names: seq<string>, lower: string -> string, key: string)
    ensures var index := NameIndex(names, lower);
            if key in index then Bears(names, lower, key, index[key]) else Nobody(names, lower, key)
  {
    if |names| > 0 {
      hide Strip, Bears, Nobody, NameIndex;
      var n := |names| - 1;
      IndexStep(names, lower);
      IndexIff(names[..n], lower, key);
      OneMoreName(names, lower, key);
      if key in NameIndex(names[..n], lower) && lower(Strip(names[n])) != key {
        BearsLater(names, lower, key, NameIndex(names[..n], lower)[key]);
      }
    }
  }

  lemma IndexStep(names: seq<string>, lower: string -> string)
    ensures NameIndex(names, lower) == if |names| == 0 then map[] else
              NameIndex(names[..|names| - 1], lower)[lower(Strip(names[|names| - 1])) := |names|]
  {
  }

  lemma OneMoreName(names: seq<string>, lower: string -> string, key: string)
    requires |names| > 0
    ensures lower(Strip(names[|names| - 1])) == key ==> Bears(names, lower, key, |names|)
    ensures lower(Strip(names[|names| - 1])) != key && Nobody(names[..|names| - 1], lower, key) ==> Nobody(names, lower, key)
  {
    hide Strip;
    var front := names[..|names| - 1];
    assert forall j :: 0 <= j < |front| ==> names[j] == front[j];
  }

  lemma BearsLater(names: seq<string>, lower: string -> string, key: string, id: nat)
    requires |names| > 0 && lower(Strip(names[|names| - 1])) != key && Bears(names[..|names| - 1], lower, key, id)
    ensures Bears(names, lower, key, id)
  {
    hide Strip;
    var front := names[..|names| - 1];
    assert forall j :: 0 <= j < |front| ==> names[j] == front[j];
  }

  lemma BearsOne(names: seq<string>, lower: string -> string, key: string, id: nat)
    ensures Bears(names, lower, key, id) <==> key in NameIndex(names, lower) && NameIndex(names, lower)[key] == id
    ensures Nobody(names, lower, key) <==> key !in NameIndex(names, lower)
  {
    IndexIff(names, lower, key);
    hide Strip, NameIndex;
    var index := NameIndex(names, lower);
    if key in index && Bears(names, lower, key, id) {
      var other := index[key];
      assert !(other < id) && !(id < other);
    }
  }

  /** A name stands for a character if and only if it is its exact name, trimmed and lowered (the last such
      character's, if several share it), or it is nobody's exact name and its alias is that character's. */
  lemma ResolveIff(names: seq<string>, rules: NameRules, name: string, id: nat)
    ensures ResolveCharId(NameIndex(names, rules.lower), rules, Some(name)) == Some(id) <==>
      && name != []
      && (Bears(names, rules.lower, rules.lower(Strip(name)), id)
          || (Nobody(names, rules.lower, rules.lower(Strip(name))) && Bears(names, rules.lower, rules.alias(name), id)))
  {
    var key := rules.lower(Strip(name));
    BearsOne(names, rules.lower, key, id);
    BearsOne(names, rules.lower, rules.alias(name), id);
    hide Strip, NameIndex, Bears, Nobody;
  }

  /** So two characters whose exact names differ are told apart by them, even if one alias covers both. */
  lemma OwnNameWins(names: seq<string>, rules: NameRules, i: nat)
    requires i < |names| && names[i] != []
    requires forall j :: i < j < |names| ==> rules.lower(Strip(names[j])) != rules.lower(Strip(names[i]))
    ensures ResolveCharId(NameIndex(names, rules.lower), rules, Some(names[i])) == Some(i + 1)
  {
    ResolveIff(names, rules, names[i], i + 1);
    hide Strip, NameIndex, ResolveCharId;
  }

  // ---- the names an attribution keeps ----------------------------------------------------

  predicate OnRoster(names: seq<string>, lower: string -> string, name: Option<string>)
  {
    name.None? || exists i :: 0 <= i < |names| && lower(Strip(names[i])) == lower(Strip(name.value))
  }

  /** Entry `j` is the last one of the reply for line `k + 1`. */
  ghost predicate LastFor(attrs: seq<LineAttribution>, k: nat, j: nat)
  {
    j < |attrs| && attrs[j].lineIndex == k + 1 && forall m :: j < m < |attrs| ==> attrs[m].lineIndex != k + 1
  }

  lemma {:induction false} LastEntry(attrs: seq<LineAttribution>, k: nat)
    ensures (forall j :: 0 <= j < |attrs| ==> attrs[j].lineIndex != k + 1) ==> EntryFor(attrs, k + 1) == Unknown(k + 1)
    ensures forall j: nat :: LastFor(attrs, k, j) ==> EntryFor(attrs, k + 1) == attrs[j]
  {
    if |attrs| > 0 {
      LastEntry(attrs[..|attrs| - 1], k);
      forall j: nat | LastFor(attrs, k, j)
        ensures EntryFor(attrs, k + 1) == attrs[j]
      {
        assert j < |attrs| - 1 ==> LastFor(attrs[..|attrs| - 1], k, j);
      }
    }
  }

  /** What a line ends up with: of the last entry the reply has for it, the names that are on the roster,
      with its own confidence if both are and low if one is not; nobody, with low confidence, if the reply
      has no entry for it. */
  lemma SettledLine(attrs: seq<LineAttribution>, k: nat, names: seq<string>, lower: string -> string)
    ensures var r := Settled(Entries(attrs), k, Roster(names, lower), lower);
            && r.lineIndex == k + 1
            && ((forall j :: 0 <= j < |attrs| ==> attrs[j].lineIndex != k + 1) ==>
                  r.speaker == None && r.addressee == None && r.confidence == Low)
            && forall j: nat :: LastFor(attrs, k, j) ==>
                 var speaks, listens := OnRoster(names, lower, attrs[j].speaker), OnRoster(names, lower, attrs[j].addressee);
                 && r.speaker == (if speaks then attrs[j].speaker else None)
                 && r.addressee == (if listens then attrs[j].addressee else None)
                 && r.confidence == (if speaks && listens then attrs[j].confidence else Low)
  {
    hide Strip, EntryFor;
    var known := Roster(names, lower);
    var matched := seq(|attrs|, j requires 0 <= j < |attrs| => MatchNames(attrs[j], known, lower));
    LastEntry(matched, k);
    forall j: nat | LastFor(attrs, k, j)
      ensures LastFor(matched, k, j) && EntryFor(matched, k + 1) == MatchNames(attrs[j], known, lower)
    {
    }
  }

  /** A name the attribution kept always stands for a character. */
  lemma KeptNameResolves(attr: LineAttribution, names: seq<string>, rules: NameRules)
    ensures var r, index := MatchNames(attr, Roster(names, rules.lower), rules.lower), NameIndex(names, rules.lower);
            && (r.speaker.Some? && r.speaker.value != [] ==> ResolveCharId(index, rules, r.speaker).Some?)
            && (r.addressee.Some? && r.addressee.value != [] ==> ResolveCharId(index, rules, r.addressee).Some?)
  {
    hide Strip, NameIndex;
    var r := MatchNames(attr, Roster(names, rules.lower), rules.lower);
    if r.speaker.Some? {
      IndexIff(names, rules.lower, rules.lower(Strip(r.speaker.value)));
    }
    if r.addressee.Some? {
      IndexIff(names, rules.lower, rules.lower(Strip(r.addressee.value)));
    }
  }
}
