/**
 Code-owner label resolution (hacking/pr_labeler/label.py).

 A run copies the configured owner-to-labels table, walks the pull request's
 changed files in order, asks the ownership matcher for the owners of each
 file and pops each matched owner from the copy; a popped, non-empty label
 list is reported as an addition. After each file the run stops if the copy
 is empty. The ownership matcher is a parameter `ownersOf`.
 */
module CodeownerLabels {
  import opened Wrappers

  /** Kind of an owner token in a CODEOWNERS file. */
  datatype OwnerKind = Username | Team | Email

  /** An owner as the ownership matcher yields it: a (kind, identifier) pair. */
  datatype Owner = Owner(kind: OwnerKind, id: string)

  type LabelTable = map<Owner, seq<string>>

  /** The configured table: the steering committee team gets `sc_approval`. */
  const LABELS: LabelTable := map[Owner(Team, "@ansible/steering-committee") := ["sc_approval"]]

  /** One "Adding labels" report: an owner and the labels popped for it. */
  datatype Addition = Addition(owner: Owner, labels: seq<string>)

  /** Python truthiness of the value returned by `labels.pop(owner, None)`. */
  predicate Truthy(v: Option<seq<string>>)
  {
    v.Some? && v.value != []
  }

  /** A Python dict from owners to label lists, updated in place. */
  class LabelDict {
    var entries: LabelTable

    constructor (entries: LabelTable)
      ensures this.entries == entries
    {
      this.entries := entries;
    }

    /** `dict.copy()`: a new dict object with the same entries. */
    method Copy() returns (c: LabelDict)
      ensures fresh(c) && c.entries == entries
    {
      c := new LabelDict(entries);
    }

    /** `dict.pop(key, None)`: removes the key and returns its value, or None if absent. */
    method Pop(key: Owner) returns (v: Option<seq<string>>)
      modifies this
      ensures entries == old(entries) - {key}
      ensures v == if key in old(entries) then Some(old(entries)[key]) else None
    {
      v := if key in entries then Some(entries[key]) else None;
      entries := entries - {key};
    }
  }

  // ---------------------------------------------------------------------
  // Specification of one run
  // ---------------------------------------------------------------------

  /** The set of owners occurring in a sequence. */
  function Elems(os: seq<Owner>): set<Owner>
  {
    set o | o in os
  }

  /** The working copy and the additions reported so far. */
  datatype Pass = Pass(pending: LabelTable, added: seq<Addition>)

  /** One iteration of the owner loop: pop `o`, report the popped value if truthy. */
  function PopOwner(s: Pass, o: Owner): Pass
  {
    var popped := if o in s.pending then Some(s.pending[o]) else None;
    Pass(s.pending - {o}, if Truthy(popped) then s.added + [Addition(o, popped.value)] else s.added)
  }

  /** The owner loop of one file, starting from `pending` with nothing reported. */
  function ConsumeOwners(pending: LabelTable, owners: seq<Owner>): (r: Pass)
    ensures r.pending == pending - Elems(owners)
    decreases |owners|
  {
    if owners == [] then Pass(pending, [])
    else PopOwner(ConsumeOwners(pending, owners[..|owners| - 1]), owners[|owners| - 1])
  }

  /** What a run reports, what is left of the copy, and how many files it asked the matcher about. */
  datatype Run = Run(added: seq<Addition>, remaining: LabelTable, examined: nat)

  /** The file loop with its early exit, from the working copy `pending`. */
  function Resolve(pending: LabelTable, files: seq<string>, ownersOf: string -> seq<Owner>): (r: Run)
    ensures r.examined <= |files|
    decreases |files|
  {
    if files == [] then Run([], pending, 0)
    else
      var s := ConsumeOwners(pending, ownersOf(files[0]));
      if s.pending == map[] then Run(s.added, s.pending, 1)
      else
        var rest := Resolve(s.pending, files[1..], ownersOf);
        Run(s.added + rest.added, rest.remaining, 1 + rest.examined)
  }

  /** Owners the matcher yields for `files`: file order first, then match order. */
  function Matched(files: seq<string>, ownersOf: string -> seq<Owner>): seq<Owner>
    decreases |files|
  {
    if files == [] then [] else ownersOf(files[0]) + Matched(files[1..], ownersOf)
  }

  /**
   Reference definition without a working copy: the owners of `os` that
   the table gives a non-empty label list, each once, at its first
   occurrence, in order.
   */
  function FirstHits(table: LabelTable, os: seq<Owner>): (r: seq<Addition>)
    ensures forall i :: 0 <= i < |r| ==>
              && r[i].owner in os
              && r[i].owner in table
              && r[i].labels == table[r[i].owner]
              && r[i].labels != []
    ensures forall i, j :: 0 <= i < j < |r| ==> r[i].owner != r[j].owner
    ensures forall o :: o in os && o in table && table[o] != [] ==> Addition(o, table[o]) in r
    decreases |os|
  {
    if os == [] then []
    else
      var init, o := os[..|os| - 1], os[|os| - 1];
      var prev := FirstHits(table, init);
      assert forall x :: x in os ==> x in init || x == o;
      if o in table && table[o] != [] && o !in init then
        prev + [Addition(o, table[o])]
      else
        prev
  }

  // ---------------------------------------------------------------------
  // The run as the source writes it
  // ---------------------------------------------------------------------

  /** The owner loop of `handle_codeowner_labels` for one file: pops each owner in match order. */
  method PopOwners(labels: LabelDict, owners: seq<Owner>) returns (newly: seq<Addition>)
    modifies labels
    ensures labels.entries == ConsumeOwners(old(labels.entries), owners).pending
    ensures newly == ConsumeOwners(old(labels.entries), owners).added
  {
    newly := [];
    var j := 0;
    while j < |owners|
      invariant 0 <= j <= |owners|
      invariant labels.entries == ConsumeOwners(old(labels.entries), owners[..j]).pending
      invariant newly == ConsumeOwners(old(labels.entries), owners[..j]).added
    {
      assert owners[..j + 1][..j] == owners[..j];
      var labelsToAdd := labels.Pop(owners[j]);
      if Truthy(labelsToAdd) {
        newly := newly + [Addition(owners[j], labelsToAdd.value)];
      }
      j := j + 1;
    }
    assert owners[..j] == owners;
  }

  /** `handle_codeowner_labels`: the copy, the file loop and the early return. */
  method HandleCodeownerLabels(config: LabelDict, files: seq<string>, ownersOf: string -> seq<Owner>)
    returns (added: seq<Addition>, remaining: LabelTable, examined: nat)
    ensures Run(added, remaining, examined) == Resolve(config.entries, files, ownersOf)
  {
    ghost var table := config.entries;
    var labels := config.Copy();
    added := [];
    var i := 0;
    while i < |files|
      invariant 0 <= i <= |files|
      invariant fresh(labels)
      invariant var rest := Resolve(labels.entries, files[i..], ownersOf);
        Resolve(table, files, ownersOf) == Run(added + rest.added, rest.remaining, i + rest.examined)
    {
      ghost var before := labels.entries;
      ResolveUnfold(before, files, i, ownersOf);
      var newly := PopOwners(labels, ownersOf(files[i]));
      added := added + newly;
      if labels.entries == map[] {
        remaining, examined := labels.entries, i + 1;
        return;
      }
      i := i + 1;
    }
    remaining, examined := labels.entries, i;
  }

  /**
   `main` after fetching the pull request: a pull request whose state is not
   "open" is refused and the table is not consulted.
   */
  method LabelPullRequest(state: string, config: LabelDict, files: seq<string>, ownersOf: string -> seq<Owner>)
    returns (processed: bool, added: seq<Addition>, examined: nat)
    ensures processed <==> state == "open"
    ensures !processed ==> added == [] && examined == 0
    ensures processed ==> (added == Resolve(config.entries, files, ownersOf).added
                           && examined == Resolve(config.entries, files, ownersOf).examined)
  {
    if state != "open" {
      return false, [], 0;
    }
    var remaining;
    added, remaining, examined := HandleCodeownerLabels(config, files, ownersOf);
    processed := true;
  }

  /**
   Two runs on the same configuration report the same additions: a run leaves
   the table alone. That is what `HandleCodeownerLabels` having no `modifies`
   clause guarantees: it pops from a fresh copy only, so `config.entries` is
   the same before the second run as before the first.
   */
  method RepeatedRunsAgree(config: LabelDict, files: seq<string>, ownersOf: string -> seq<Owner>)
    returns (first: seq<Addition>, second: seq<Addition>)
    ensures first == second
  {
    var remaining, examined;
    first, remaining, examined := HandleCodeownerLabels(config, files, ownersOf);
    second, remaining, examined := HandleCodeownerLabels(config, files, ownersOf);
  }

  // ---------------------------------------------------------------------
  // Lemmas
  // ---------------------------------------------------------------------

  /** The owner loop consumes exactly the owners it meets and reports their first hits. */
  lemma {:induction false} ConsumeMatchesFirstHits(table: LabelTable, os: seq<Owner>)
    ensures ConsumeOwners(table, os).pending == table - Elems(os)
    ensures ConsumeOwners(table, os).added == FirstHits(table, os)
    decreases |os|
  {
    if os != [] {
      var init, o := os[..|os| - 1], os[|os| - 1];
      ConsumeMatchesFirstHits(table, init);
      var s := ConsumeOwners(table, init);
      assert Elems(os) == Elems(init) + {o} by {
        assert os == init + [o];
      }
      assert o in s.pending <==> o in table && o !in init;
      assert s.pending - {o} == table - Elems(os);
    }
  }

  /** Running the owner loop over `a + b` is running it over `a`, then over `b`. */
  lemma {:induction false} ConsumeAppend(p: LabelTable, a: seq<Owner>, b: seq<Owner>)
    ensures var s := ConsumeOwners(p, a);
            var t := ConsumeOwners(s.pending, b);
            ConsumeOwners(p, a + b) == Pass(t.pending, s.added + t.added)
    decreases |b|
  {
    if b == [] {
      assert a + b == a;
    } else {
      var init := b[..|b| - 1];
      assert (a + b)[..|a + b| - 1] == a + init;
      ConsumeAppend(p, a, init);
    }
  }

  /** One step of the file loop, from file `i`. */
  lemma ResolveUnfold(p: LabelTable, files: seq<string>, i: nat, ownersOf: string -> seq<Owner>)
    requires i < |files|
    ensures var s := ConsumeOwners(p, ownersOf(files[i]));
            Resolve(p, files[i..], ownersOf) ==
              if s.pending == map[] then Run(s.added, s.pending, 1)
              else
                var rest := Resolve(s.pending, files[i + 1..], ownersOf);
                Run(s.added + rest.added, rest.remaining, 1 + rest.examined)
  {
  }

  /** The matched owners of the first `k` files split after the first file. */
  lemma MatchedPrefix(files: seq<string>, ownersOf: string -> seq<Owner>, k: nat)
    requires 1 <= k <= |files|
    ensures Matched(files[..k], ownersOf) == ownersOf(files[0]) + Matched(files[1..][..k - 1], ownersOf)
  {
    assert files[..k][1..] == files[1..][..k - 1];
  }

  /** A run does what the owner loop does over the owners of the files it examined. */
  lemma {:induction false} ResolveIsConsumeOfExamined(p: LabelTable, files: seq<string>, ownersOf: string -> seq<Owner>)
    ensures var r := Resolve(p, files, ownersOf);
            && r.examined <= |files|
            && r.added == ConsumeOwners(p, Matched(files[..r.examined], ownersOf)).added
            && r.remaining == ConsumeOwners(p, Matched(files[..r.examined], ownersOf)).pending
    decreases |files|
  {
    if files != [] {
      var first := ownersOf(files[0]);
      var s := ConsumeOwners(p, first);
      var r := Resolve(p, files, ownersOf);
      if s.pending == map[] {
        MatchedPrefix(files, ownersOf, 1);
        assert files[1..][..0] == [];
        assert first + [] == first;
      } else {
        var rest := Resolve(s.pending, files[1..], ownersOf);
        ResolveIsConsumeOfExamined(s.pending, files[1..], ownersOf);
        MatchedPrefix(files, ownersOf, r.examined);
        ConsumeAppend(p, first, Matched(files[1..][..rest.examined], ownersOf));
      }
    }
  }

  /**
   A run reports, in order, the first hit of every owner matched by the
   files it examined, and leaves exactly the unmatched entries in the copy.
   */
  lemma ResolveReportsFirstHits(table: LabelTable, files: seq<string>, ownersOf: string -> seq<Owner>)
    ensures var r := Resolve(table, files, ownersOf);
            && r.examined <= |files|
            && r.added == FirstHits(table, Matched(files[..r.examined], ownersOf))
            && r.remaining == table - Elems(Matched(files[..r.examined], ownersOf))
  {
    var r := Resolve(table, files, ownersOf);
    ResolveIsConsumeOfExamined(table, files, ownersOf);
    ConsumeMatchesFirstHits(table, Matched(files[..r.examined], ownersOf));
  }

  /**
   Every reported addition is an owner's configured, non-empty label list,
   and no owner is reported twice, however many files it owns.
   */
  lemma ResolveReportsEachOwnerOnce(table: LabelTable, files: seq<string>, ownersOf: string -> seq<Owner>)
    ensures var r := Resolve(table, files, ownersOf);
            && (forall i :: 0 <= i < |r.added| ==>
                  && r.added[i].owner in table
                  && r.added[i].labels == table[r.added[i].owner]
                  && r.added[i].labels != [])
            && (forall i, j :: 0 <= i < j < |r.added| ==> r.added[i].owner != r.added[j].owner)
  {
    ResolveReportsFirstHits(table, files, ownersOf);
  }

  /**
   The consumed keys (matched by an examined file) and the remaining keys
   partition the table's keys; remaining entries keep their configured
   labels; every consumed owner with labels is reported.
   */
  lemma ResolvePartitionsKeys(table: LabelTable, files: seq<string>, ownersOf: string -> seq<Owner>)
    ensures var r := Resolve(table, files, ownersOf);
            var consumed := table.Keys * Elems(Matched(files[..r.examined], ownersOf));
            && r.remaining.Keys + consumed == table.Keys
            && r.remaining.Keys * consumed == {}
            && (forall o :: o in r.remaining ==> r.remaining[o] == table[o])
            && (forall o :: o in consumed && table[o] != [] ==> Addition(o, table[o]) in r.added)
  {
    ResolveReportsFirstHits(table, files, ownersOf);
  }

  /** An owner absent from the table is never reported and never appears in the copy. */
  lemma ResolveIgnoresAbsentOwner(table: LabelTable, files: seq<string>, ownersOf: string -> seq<Owner>, o: Owner)
    requires o !in table
    ensures var r := Resolve(table, files, ownersOf);
            o !in r.remaining && forall i :: 0 <= i < |r.added| ==> r.added[i].owner != o
  {
    ResolveReportsFirstHits(table, files, ownersOf);
  }

  /** An owner configured with no labels is consumed once matched but never reported. */
  lemma ResolveConsumesUnlabelledOwnerSilently(table: LabelTable, files: seq<string>, ownersOf: string -> seq<Owner>, o: Owner)
    requires o in table && table[o] == []
    ensures var r := Resolve(table, files, ownersOf);
            && (o in r.remaining <==> o !in Matched(files[..r.examined], ownersOf))
            && forall i :: 0 <= i < |r.added| ==> r.added[i].owner != o
  {
    ResolveReportsFirstHits(table, files, ownersOf);
  }

  /**
   Early exit: a run stops exactly after the first file whose owners empty
   the copy. No file is examined once the copy is empty, every earlier file
   left it non-empty, a non-empty file list has at least its first file
   examined (the check follows all owners of a file), and an empty file list
   reports nothing.
   */
  lemma {:induction false} ResolveStopsWhenExhausted(p: LabelTable, files: seq<string>, ownersOf: string -> seq<Owner>)
    ensures var r := Resolve(p, files, ownersOf);
            && r.examined <= |files|
            && (files == [] ==> r == Run([], p, 0))
            && (files != [] <==> r.examined > 0)
            && (r.examined < |files| ==> r.remaining == map[])
            && (forall k :: 1 <= k < r.examined ==> p - Elems(Matched(files[..k], ownersOf)) != map[])
    decreases |files|
  {
    if files != [] {
      var first := ownersOf(files[0]);
      var s := ConsumeOwners(p, first);
      ConsumeMatchesFirstHits(p, first);
      if s.pending != map[] {
        var r := Resolve(p, files, ownersOf);
        ResolveStopsWhenExhausted(s.pending, files[1..], ownersOf);
        forall k | 1 <= k < r.examined
          ensures p - Elems(Matched(files[..k], ownersOf)) != map[]
        {
          MatchedPrefix(files, ownersOf, k);
          var later := Matched(files[1..][..k - 1], ownersOf);
          assert Elems(first + later) == Elems(first) + Elems(later);
          assert p - Elems(first + later) == (p - Elems(first)) - Elems(later);
          if k == 1 {
            assert files[1..][..0] == [];
            assert later == [];
          }
        }
      }
    }
  }

  /** The files after the last examined one are never looked at: replacing them changes nothing. */
  lemma {:induction false} ResolveIgnoresUnexaminedFiles(p: LabelTable, files: seq<string>, later: seq<string>, ownersOf: string -> seq<Owner>)
    requires Resolve(p, files, ownersOf).examined < |files|
    ensures var r := Resolve(p, files, ownersOf);
            Resolve(p, files[..r.examined] + later, ownersOf) == r
    decreases |files|
  {
    var r := Resolve(p, files, ownersOf);
    var files' := files[..r.examined] + later;
    assert files'[0] == files[0];
    var s := ConsumeOwners(p, ownersOf(files[0]));
    if s.pending != map[] {
      var rest := Resolve(s.pending, files[1..], ownersOf);
      ResolveIgnoresUnexaminedFiles(s.pending, files[1..], later, ownersOf);
      assert files'[1..] == files[1..][..rest.examined] + later;
    }
  }

  /**
   The configured table with one changed file under the steering committee's
   ownership: `sc_approval` is reported once and the second file is never
   examined, because the copy is empty after the first.
   */
  lemma SteeringCommitteeScenario()
    ensures var sc := Owner(Team, "@ansible/steering-committee");
            var ownersOf := (f: string) => if f == "docs/x.md" then [sc] else [];
            Resolve(LABELS, ["docs/x.md", "src/y.py"], ownersOf) == Run([Addition(sc, ["sc_approval"])], map[], 1)
  {
    var sc := Owner(Team, "@ansible/steering-committee");
    var ownersOf := (f: string) => if f == "docs/x.md" then [sc] else [];
    var files := ["docs/x.md", "src/y.py"];
    assert ownersOf(files[0]) == [sc];
    assert [sc][..0] == [];
    assert ConsumeOwners(LABELS, [sc]) == Pass(map[], [Addition(sc, ["sc_approval"])]);
  }

  /** The first hits and the leftover of a one-entry table with a non-empty label list. */
  lemma OneEntryTable(o: Owner, labels: seq<string>, os: seq<Owner>)
    requires labels != []
    ensures FirstHits(map[o := labels], os) == if o in os then [Addition(o, labels)] else []
    ensures map[o := labels] - Elems(os) == if o in os then map[] else map[o := labels]
  {
    var r := FirstHits(map[o := labels], os);
    assert forall i :: 0 <= i < |r| ==> r[i] == Addition(o, labels);
    assert r != [] ==> o in os by {
      if r != [] {
        assert r[0].owner in os;
      }
    }
    if o in os {
      assert Addition(o, labels) in r;
      assert |r| == 1;
      assert (map[o := labels] - Elems(os)).Keys == {};
    }
  }

  /**
   With the configured table `LABELS` a run reports `sc_approval` at most
   once: it either reports nothing and keeps the steering committee in the
   copy, or reports exactly that addition and empties the copy.
   */
  lemma ConfiguredTableReportsAtMostOnce(files: seq<string>, ownersOf: string -> seq<Owner>)
    ensures var sc := Owner(Team, "@ansible/steering-committee");
            var r := Resolve(LABELS, files, ownersOf);
            && (r.added == [] <==> r.remaining == LABELS)
            && (r.added != [] <==> r.added == [Addition(sc, ["sc_approval"])] && r.remaining == map[])
  {
    var r := Resolve(LABELS, files, ownersOf);
    ResolveReportsFirstHits(LABELS, files, ownersOf);
    OneEntryTable(Owner(Team, "@ansible/steering-committee"), ["sc_approval"], Matched(files[..r.examined], ownersOf));
  }
}
