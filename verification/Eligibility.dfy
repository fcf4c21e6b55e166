/** Which files a run touches: the ledger of processed sources, the gap detector's decision, the entry
    checks of a translation, and what they promise about files other tools wrote. */
module Eligibility {
  import opened Options

  datatype Status = InProgress | Done | Quarantined

  datatype LedgerEntry = LedgerEntry(source: string, output: Option<string>, status: Status, hash: int)

  /** Sidecar naming and decoding are outside: `dest` names the sidecar of a source. */
  datatype Naming = Naming(dest: string -> string)

  /** Disk contents by path (a content stands for its own hash) and the ledger by source path. */
  datatype World = World(disk: map<string, int>, ledger: map<string, LedgerEntry>)

  predicate Claimed(w: World, output: string)
  {
    exists s :: s in w.ledger && w.ledger[s].output == Some(output)
  }

  // ---- the two decisions -----------------------------------------------------------------

  datatype Reason = NoSource | ForeignSidecar | AlreadyTranslated | RicherSource | SourceChanged | Retry | Resume | NewItem

  /** `is_eligible`, branch by branch, for a source that can be read if it exists. */
  function Decide(w: World, src: string, n: Naming): Reason
  {
    if src !in w.disk then NoSource
    else if n.dest(src) in w.disk && src !in w.ledger then
      if Claimed(w, n.dest(src)) then RicherSource else ForeignSidecar
    else if src in w.ledger then
      var e := w.ledger[src];
      if e.status == Done && n.dest(src) in w.disk then
        if e.hash == w.disk[src] then AlreadyTranslated else SourceChanged
      else if e.status == Quarantined then Retry
      else if e.status == InProgress then Resume
      else NewItem
    else NewItem
  }

  predicate Eligible(w: World, src: string, n: Naming)
  {
    var r := Decide(w, src, n);
    r != NoSource && r != ForeignSidecar && r != AlreadyTranslated
  }

  /** The checks at the head of `translate_file`. */
  predicate Enters(w: World, src: string, n: Naming)
    requires src in w.disk
  {
    && !(src !in w.ledger && n.dest(src) in w.disk && !Claimed(w, n.dest(src)))
    && !(src in w.ledger && w.ledger[src].status == Done && n.dest(src) in w.disk && w.ledger[src].hash == w.disk[src])
  }

  /** The two decisions agree in every state in which the source can be read. */
  lemma DecisionsAgree(w: World, src: string, n: Naming)
    requires src in w.disk
    ensures Eligible(w, src, n) <==> Enters(w, src, n)
  {
    var d := Decide(w, src, n);
  }

  // ---- runs ------------------------------------------------------------------------------

  /** How a translation that got past the checks ends.  A crash may come before or after the
      sidecar is in place. */
  datatype Ending = Crashed | Fails | CrashedAfterWrite(text: int) | Finishes(text: int)

  function Begun(w: World, src: string, n: Naming): World
    requires src in w.disk
  {
    w.(ledger := w.ledger[src := LedgerEntry(src, Some(n.dest(src)), InProgress, w.disk[src])])
  }

  function Translate(w: World, src: string, n: Naming, ending: Ending): World
  {
    if src !in w.disk || !Enters(w, src, n) then w
    else
      var hash := w.disk[src];
      var begun := Begun(w, src, n);
      match ending
      case Crashed => begun
      case Fails => begun.(ledger := begun.ledger[src := LedgerEntry(src, None, Quarantined, hash)])
      case CrashedAfterWrite(text) => begun.(disk := begun.disk[n.dest(src) := text])
      case Finishes(text) =>
        begun.(disk := begun.disk[n.dest(src) := text],
               ledger := begun.ledger[src := LedgerEntry(src, Some(n.dest(src)), Done, hash)])
  }

  /** A translation, or anything at all happening to the disk between two of them. */
  datatype Event = Job(src: string, ending: Ending) | Outside(disk: map<string, int>)

  function Step(w: World, e: Event, n: Naming): World
  {
    match e
    case Job(src, ending) => Translate(w, src, n, ending)
    case Outside(disk) => w.(disk := disk)
  }

  function Run(w: World, events: seq<Event>, n: Naming): World
  {
    if |events| == 0 then w else Step(Run(w, events[..|events| - 1], n), events[|events| - 1], n)
  }

  // ---- files of other tools --------------------------------------------------------------

  /** The ledger has never had to do with this sidecar. */
  ghost predicate Unknown(w: World, sidecar: string, n: Naming)
  {
    && !Claimed(w, sidecar)
    && forall s :: s in w.ledger ==> n.dest(s) != sidecar
  }

  lemma UnknownStep(w: World, e: Event, n: Naming, sidecar: string)
    requires sidecar in w.disk && Unknown(w, sidecar, n)
    ensures Unknown(Step(w, e, n), sidecar, n)
    ensures e.Job? ==> sidecar in Step(w, e, n).disk && Step(w, e, n).disk[sidecar] == w.disk[sidecar]
  {
    var after := Step(w, e, n);
    if e.Job? {
      if n.dest(e.src) == sidecar {
        assert after == w;
      } else {
        assert forall s :: s in after.ledger && s != e.src ==> s in w.ledger && after.ledger[s] == w.ledger[s];
      }
    } else {
      assert after.ledger == w.ledger;
    }
  }

  /** A file that was there before the ledger knew any source of its name is never overwritten, over
      any sequence of runs on any sources, as long as it stays on disk between them. */
  lemma {:induction false} NeverClobbers(w: World, events: seq<Event>, n: Naming, sidecar: string)
    requires sidecar in w.disk && Unknown(w, sidecar, n)
    requires forall k :: 0 <= k <= |events| ==> sidecar in Run(w, events[..k], n).disk
    ensures Unknown(Run(w, events, n), sidecar, n)
    ensures forall k :: 0 <= k < |events| && events[k].Job? ==>
              sidecar in Run(w, events[..k], n).disk && sidecar in Run(w, events[..k + 1], n).disk
              && Run(w, events[..k + 1], n).disk[sidecar] == Run(w, events[..k], n).disk[sidecar]
  {
    if |events| > 0 {
      var m := |events| - 1;
      var fewer := events[..m];
      forall k | 0 <= k <= m
        ensures fewer[..k] == events[..k]
      {
      }
      NeverClobbers(w, fewer, n, sidecar);
      assert events[..m + 1] == events;
      UnknownStep(Run(w, fewer, n), events[m], n, sidecar);
      forall k | 0 <= k < |events| && events[k].Job?
        ensures sidecar in Run(w, events[..k], n).disk && sidecar in Run(w, events[..k + 1], n).disk
        ensures Run(w, events[..k + 1], n).disk[sidecar] == Run(w, events[..k], n).disk[sidecar]
      {
        if k < m {
          assert fewer[..k] == events[..k] && fewer[..k + 1] == events[..k + 1] && fewer[k] == events[k];
        }
      }
    }
  }

  predicate Writes(ending: Ending) { ending.Finishes? || ending.CrashedAfterWrite? }

  /** Exactly when a run overwrites an existing sidecar, whoever wrote it: the ledger already has an
      entry for the source, other than one that is done for the same content, or it has none but
      some other entry claims the sidecar. */
  lemma OverwritesIff(w: World, src: string, n: Naming, ending: Ending)
    requires src in w.disk && n.dest(src) in w.disk && Writes(ending) && ending.text != w.disk[n.dest(src)]
    ensures Translate(w, src, n, ending).disk[n.dest(src)] != w.disk[n.dest(src)] <==>
      (if src in w.ledger then !(w.ledger[src].status == Done && w.ledger[src].hash == w.disk[src]) else Claimed(w, n.dest(src)))
  {
  }

  /** The guard looks for an entry, not for who wrote the file: once a first attempt has failed, a
      sidecar another tool writes afterwards is overwritten by the retry. */
  lemma RetryClobbers(src: string, n: Naming, theirs: int, ours: int)
    requires n.dest(src) != src && theirs != ours
    ensures var w := World(map[src := 0], map[]);
            var events := [Job(src, Fails), Outside(map[src := 0, n.dest(src) := theirs]), Job(src, Finishes(ours))];
            Run(w, events[..2], n).disk[n.dest(src)] == theirs && Run(w, events, n).disk[n.dest(src)] == ours
  {
    var w := World(map[src := 0], map[]);
    var failed, outside, retried := Job(src, Fails), Outside(map[src := 0, n.dest(src) := theirs]), Job(src, Finishes(ours));
    var events := [failed, outside, retried];
    assert events[..1] == [failed] && events[..2] == [failed, outside];
    assert [failed, outside][..1] == [failed] && [failed][..0] == [];
    var one := Run(w, [failed], n);
    assert one == Step(Run(w, [], n), failed, n) == Step(w, failed, n);
    var two := Run(w, events[..2], n);
    assert two == Step(one, outside, n);
    assert Run(w, events, n) == Step(two, retried, n);
  }

  // ---- what the ledger remembers ---------------------------------------------------------

  /** Event `k` of a run is an attempt on a source: a job that got past the checks. */
  ghost predicate AttemptAt(w: World, events: seq<Event>, n: Naming, src: string, k: nat)
  {
    k < |events| && events[k].Job? && events[k].src == src
    && src in Run(w, events[..k], n).disk && Enters(Run(w, events[..k], n), src, n)
  }

  ghost predicate LastAttempt(w: World, events: seq<Event>, n: Naming, src: string, k: nat)
  {
    AttemptAt(w, events, n, src, k) && forall m: nat :: m > k ==> !AttemptAt(w, events, n, src, m)
  }

  /** An entry as an attempt with this ending leaves it: only a failure gives up the claim to the
      sidecar, only a finished attempt is done, and what is hashed is the source it read. */
  predicate LeftBy(e: LedgerEntry, src: string, ending: Ending, content: int, n: Naming)
  {
    && e.source == src && e.hash == content
    && e.output == (match ending
                    case Fails => None
                    case Crashed => Some(n.dest(src))
                    case CrashedAfterWrite(_) => Some(n.dest(src))
                    case Finishes(_) => Some(n.dest(src)))
    && (e.status == Quarantined <==> ending.Fails?) && (e.status == Done <==> ending.Finishes?)
  }

  lemma StepLeaves(w: World, e: Event, n: Naming, src: string)
    ensures var attempt := e.Job? && e.src == src && src in w.disk && Enters(w, src, n);
            var r := Step(w, e, n);
            && (attempt ==> src in r.ledger && LeftBy(r.ledger[src], src, e.ending, w.disk[src], n))
            && (!attempt ==> (src in r.ledger <==> src in w.ledger) && (src in w.ledger ==> r.ledger[src] == w.ledger[src]))
  {
    hide Claimed;
  }

  /** The entry of a source is what its last attempt left. */
  ghost predicate Tells(w: World, events: seq<Event>, n: Naming, src: string)
  {
    var r := Run(w, events, n);
    && (src in r.ledger <==> exists k: nat :: LastAttempt(w, events, n, src, k))
    && forall k: nat :: LastAttempt(w, events, n, src, k) ==>
         src in r.ledger && LeftBy(r.ledger[src], src, events[k].ending, Run(w, events[..k], n).disk[src], n)
  }

  lemma AttemptsBefore(w: World, events: seq<Event>, n: Naming, src: string, k: nat)
    requires k + 1 < |events|
    ensures AttemptAt(w, events, n, src, k) <==> AttemptAt(w, events[..|events| - 1], n, src, k)
    ensures events[..|events| - 1][..k] == events[..k]
  {
    assert events[..|events| - 1][..k] == events[..k];
    hide Run, Enters;
  }

  /** In every run from an empty ledger, a source has an entry if and only if it was attempted, and the
      entry is what its last attempt left. */
  lemma {:induction false} LedgerTells(disk: map<string, int>, events: seq<Event>, n: Naming, src: string)
    ensures Tells(World(disk, map[]), events, n, src)
    decreases |events|
  {
    hide Enters, LeftBy, Step;
    var w := World(disk, map[]);
    if |events| > 0 {
      var m := |events| - 1;
      var front := events[..m];
      LedgerTells(disk, front, n, src);
      StepLeaves(Run(w, front, n), events[m], n, src);
      forall k: nat | k < m
        ensures AttemptAt(w, events, n, src, k) <==> AttemptAt(w, front, n, src, k)
        ensures front[..k] == events[..k]
      {
        AttemptsBefore(w, events, n, src, k);
      }
      TellsMore(w, events, n, src);
    }
  }

  lemma TellsMore(w: World, events: seq<Event>, n: Naming, src: string)
    requires |events| > 0 && Tells(w, events[..|events| - 1], n, src)
    requires forall k: nat :: k < |events| - 1 ==>
               (AttemptAt(w, events, n, src, k) <==> AttemptAt(w, events[..|events| - 1], n, src, k))
               && events[..|events| - 1][..k] == events[..k]
    requires var before := Run(w, events[..|events| - 1], n);
             var e, r := events[|events| - 1], Step(before, events[|events| - 1], n);
             var attempt := e.Job? && e.src == src && src in before.disk && Enters(before, src, n);
             && (attempt ==> src in r.ledger && LeftBy(r.ledger[src], src, e.ending, before.disk[src], n))
             && (!attempt ==> (src in r.ledger <==> src in before.ledger) && (src in before.ledger ==> r.ledger[src] == before.ledger[src]))
    ensures Tells(w, events, n, src)
  {
    hide Enters, LeftBy, Step;
    var m := |events| - 1;
    var front := events[..m];
    assert Run(w, events, n) == Step(Run(w, front, n), events[m], n);
    if AttemptAt(w, events, n, src, m) {
      assert LastAttempt(w, events, n, src, m);
    } else {
      forall k: nat
        ensures LastAttempt(w, events, n, src, k) <==> LastAttempt(w, front, n, src, k)
      {
        assert forall j: nat :: AttemptAt(w, events, n, src, j) <==> AttemptAt(w, front, n, src, j);
      }
    }
  }

  /** In every run from an empty ledger, a sidecar is claimed if and only if it is the sidecar of some
      source whose last attempt did not fail. */
  lemma ClaimedIff(disk: map<string, int>, events: seq<Event>, n: Naming, sidecar: string)
    ensures var w := World(disk, map[]);
            Claimed(Run(w, events, n), sidecar) <==>
              exists s: string, k: nat :: LastAttempt(w, events, n, s, k) && !events[k].ending.Fails? && n.dest(s) == sidecar
  {
    var w := World(disk, map[]);
    var r := Run(w, events, n);
    hide Run, Enters;
    if Claimed(r, sidecar) {
      var s :| s in r.ledger && r.ledger[s].output == Some(sidecar);
      LedgerTells(disk, events, n, s);
      var k: nat :| LastAttempt(w, events, n, s, k);
    }
    if s: string, k: nat :| LastAttempt(w, events, n, s, k) && !events[k].ending.Fails? && n.dest(s) == sidecar {
      LedgerTells(disk, events, n, s);
    }
  }

  /** So a run on a source without an entry whose sidecar exists gets past the checks, and may overwrite
      the sidecar, if and only if another source's last attempt owns it by not having failed. */
  lemma RicherIff(disk: map<string, int>, events: seq<Event>, n: Naming, src: string)
    requires var r := Run(World(disk, map[]), events, n); src in r.disk && src !in r.ledger && n.dest(src) in r.disk
    ensures var w := World(disk, map[]);
            Enters(Run(w, events, n), src, n) <==>
              exists s: string, k: nat :: LastAttempt(w, events, n, s, k) && !events[k].ending.Fails? && n.dest(s) == n.dest(src)
  {
    hide Run, Claimed, LastAttempt;
    ClaimedIff(disk, events, n, n.dest(src));
  }

  /** A sidecar on disk while every attempt on the sources that share it failed is nobody's: no run on a
      source without an entry touches it. */
  lemma FailuresDisclaim(disk: map<string, int>, events: seq<Event>, n: Naming, src: string, ending: Ending)
    requires var r := Run(World(disk, map[]), events, n);
             && src in r.disk && src !in r.ledger && n.dest(src) in r.disk
             && forall s :: s in r.ledger && n.dest(s) == n.dest(src) ==> r.ledger[s].status == Quarantined
    ensures var r := Run(World(disk, map[]), events, n); Translate(r, src, n, ending) == r
  {
    var w := World(disk, map[]);
    var r := Run(w, events, n);
    RicherIff(disk, events, n, src);
    hide Run, AttemptAt;
    if Enters(r, src, n) {
      var s: string, k: nat :| LastAttempt(w, events, n, s, k) && !events[k].ending.Fails? && n.dest(s) == n.dest(src);
      LedgerTells(disk, events, n, s);
    }
  }

  /** A failed source, then a sidecar another tool wrote, then a run on a second source of that name:
      the file stays. */
  lemma SecondSourceSkips(first: string, second: string, n: Naming, theirs: int, ending: Ending)
    requires n.dest(first) == n.dest(second) && first != second && n.dest(first) != first && n.dest(first) != second
    ensures var sources := map[first := 0, second := 1];
            var events := [Job(first, Fails), Outside(sources[n.dest(first) := theirs])];
            var r := Run(World(sources, map[]), events, n);
            r.disk[n.dest(first)] == theirs && Run(World(sources, map[]), events + [Job(second, ending)], n) == r
  {
    var sources := map[first := 0, second := 1];
    var failed, outside := Job(first, Fails), Outside(sources[n.dest(first) := theirs]);
    var w := World(sources, map[]);
    assert [failed, outside][..1] == [failed] && [failed][..0] == [];
    assert Run(w, [failed], n) == Step(Run(w, [], n), failed, n) == Step(w, failed, n);
    var r := Run(w, [failed, outside], n);
    assert r == Step(Step(w, failed, n), outside, n);
    var all := [failed, outside] + [Job(second, ending)];
    assert all[..2] == [failed, outside];
    FailuresDisclaim(sources, [failed, outside], n, second, ending);
  }

  // ---- idempotency -----------------------------------------------------------------------

  /** Done, sidecar in place, source unchanged. */
  predicate Settled(w: World, src: string, n: Naming)
  {
    && src in w.disk && n.dest(src) in w.disk
    && src in w.ledger && w.ledger[src].status == Done && w.ledger[src].hash == w.disk[src]
  }

  predicate Undisturbed(w: World, e: Event, src: string, n: Naming)
  {
    match e
    case Job(s, _) => n.dest(s) != src
    case Outside(disk) => src in disk && n.dest(src) in disk && src in w.disk && disk[src] == w.disk[src]
  }

  lemma SettledStep(w: World, e: Event, src: string, n: Naming)
    requires Settled(w, src, n) && Undisturbed(w, e, src, n)
    ensures Settled(Step(w, e, n), src, n)
  {
  }

  /** A finished source is never translated again, nor listed as work, while its content and its
      sidecar stay: not by later runs on itself, and not by runs on a richer or poorer source that
      shares the sidecar, which therefore cannot take turns overwriting each other. */
  lemma {:induction false} DoneStaysDone(w: World, text: int, events: seq<Event>, src: string, n: Naming)
    requires src in w.disk && Enters(w, src, n) && n.dest(src) != src
    requires var done := Translate(w, src, n, Finishes(text));
             forall k :: 0 <= k < |events| ==> Undisturbed(Run(done, events[..k], n), events[k], src, n)
    ensures var after := Run(Translate(w, src, n, Finishes(text)), events, n);
            Settled(after, src, n) && !Eligible(after, src, n) && forall e :: Translate(after, src, n, e) == after
  {
    var done := Translate(w, src, n, Finishes(text));
    if |events| > 0 {
      var m := |events| - 1;
      var fewer := events[..m];
      forall k | 0 <= k < m
        ensures Undisturbed(Run(done, fewer[..k], n), fewer[k], src, n)
      {
        assert fewer[..k] == events[..k];
      }
      DoneStaysDone(w, text, fewer, src, n);
      SettledStep(Run(done, fewer, n), events[m], src, n);
    }
  }

  // ---- the ledger object -----------------------------------------------------------------

  /** The ledger in memory: a dictionary in insertion order. */
  class Ledger {
    var data: map<string, LedgerEntry>
    var order: seq<string>

    ghost predicate Valid()
      reads this
    {
      && (forall k :: k in order <==> k in data)
      && (forall i, j :: 0 <= i < j < |order| ==> order[i] != order[j])
    }

    constructor ()
      ensures Valid() && data == map[]
    {
      data, order := map[], [];
    }

    method Check(source: string) returns (e: Option<LedgerEntry>)
      requires Valid()
      ensures e == if source in data then Some(data[source]) else None
    {
      e := if source in data then Some(data[source]) else None;
    }

    ghost predicate FirstAt(output: string, i: nat)
      requires i < |order|
      reads this
    {
      && order[i] in data && data[order[i]].output == Some(output)
      && forall j :: 0 <= j < i ==> order[j] in data && data[order[j]].output != Some(output)
    }

    /** The first entry in insertion order with this output. */
    method CheckByOutputPath(output: string) returns (e: Option<LedgerEntry>)
      requires Valid()
      ensures e.Some? <==> Claimed(World(map[], data), output)
      ensures e.Some? ==> exists i :: 0 <= i < |order| && order[i] in data && e == Some(data[order[i]]) && FirstAt(output, i)
    {
      var i := 0;
      while i < |order|
        invariant 0 <= i <= |order|
        invariant forall j :: 0 <= j < i ==> order[j] in data && data[order[j]].output != Some(output)
      {
        assert order[i] in order;
        if data[order[i]].output == Some(output) {
          return Some(data[order[i]]);
        }
        i := i + 1;
      }
      e := None;
    }

    method Record(e: LedgerEntry)
      requires Valid()
      modifies this
      ensures Valid() && data == old(data)[e.source := e]
      ensures order == if e.source in old(data) then old(order) else old(order) + [e.source]
    {
      if e.source !in data {
        order := order + [e.source];
      }
      data := data[e.source := e];
    }
  }

  /** The head and the tail of `translate_file` over a ledger object and a disk. */
  class Translator {
    const ledger: Ledger
    const naming: Naming
    var disk: map<string, int>

    constructor (n: Naming, files: map<string, int>)
      ensures ledger.Valid() && fresh(ledger) && naming == n && Now() == World(files, map[])
    {
      ledger := new Ledger();
      naming, disk := n, files;
    }

    ghost function Now(): World
      reads this, ledger
    {
      World(disk, ledger.data)
    }

    /** `is_eligible` for an existing, readable source. */
    method IsEligible(src: string) returns (r: bool)
      requires ledger.Valid()
      ensures r == Eligible(Now(), src, naming)
    {
      if src !in disk {
        return false;
      }
      var dest := naming.dest(src);
      var entry := ledger.Check(src);
      if dest in disk && entry.None? {
        var prior := ledger.CheckByOutputPath(dest);
        ClaimedFrame(disk, ledger.data, dest);
        return prior.Some?;
      }
      if entry.Some? && entry.value.status == Done && dest in disk {
        return entry.value.hash != disk[src];
      }
      r := true;
    }

    method TranslateFile(src: string, ending: Ending) returns (entered: bool)
      requires ledger.Valid() && src in disk
      modifies this, ledger
      ensures ledger.Valid() && Now() == Translate(old(Now()), src, naming, ending)
      ensures entered == Enters(old(Now()), src, naming)
    {
      var hash := disk[src];
      var dest := naming.dest(src);
      var entry := ledger.Check(src);
      if entry.None? && dest in disk {
        var prior := ledger.CheckByOutputPath(dest);
        ClaimedFrame(disk, ledger.data, dest);
        if prior.None? {
          return false;
        }
      }
      if entry.Some? && entry.value.status == Done && dest in disk && entry.value.hash == hash {
        return false;
      }
      entered := true;
      ledger.Record(LedgerEntry(src, Some(dest), InProgress, hash));
      if ending.Fails? {
        ledger.Record(LedgerEntry(src, None, Quarantined, hash));
      } else if Writes(ending) {
        disk := disk[dest := ending.text];
        if ending.Finishes? {
          ledger.Record(LedgerEntry(src, Some(dest), Done, hash));
        }
      }
    }
  }

  lemma ClaimedFrame(disk: map<string, int>, ledger: map<string, LedgerEntry>, output: string)
    ensures Claimed(World(map[], ledger), output) <==> Claimed(World(disk, ledger), output)
  {
  }
}
