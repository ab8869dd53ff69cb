/**
 The registry of MCP servers under concurrent refresh, add, replace and remove (src/mcp/health.rs,
 src/mcp/registry.rs). A refresh copies the entries, probes upstream without a lock, and merges the
 result by id; every other write happens under the write lock alone.
 */
module McpRegistry {
  import opened Prelude
  import opened Dedup

  datatype Kind = Tools | Prompts

  /** A server with its wrapped tools and prompts. */
  datatype Entry<T> = Entry(id: string, tools: seq<Item<T>>, prompts: seq<Item<T>>) {
    function Of(kind: Kind): seq<Item<T>> { if kind == Tools then tools else prompts }
  }

  function IdOf<T>(e: Entry<T>): string { e.id }

  ghost predicate DistinctIds<T>(entries: seq<Entry<T>>) { Distinct(Map(IdOf, entries)) }

  /** Two entries share no name of this kind. */
  ghost predicate Apart<T>(a: Entry<T>, b: Entry<T>, kind: Kind) { Wires(a.Of(kind)) !! Wires(b.Of(kind)) }

  /** No wire name of this kind occurs twice in the registry. */
  ghost predicate NamesDistinct<T>(entries: seq<Entry<T>>, kind: Kind) {
    && (forall i :: 0 <= i < |entries| ==> DistinctWires(entries[i].Of(kind)))
    && (forall i, j :: 0 <= i < j < |entries| ==> Apart(entries[i], entries[j], kind))
  }

  /** The names of this kind that the entries hold. */
  function NamesOf<T>(entries: seq<Entry<T>>, kind: Kind): set<string> {
    set i, w | 0 <= i < |entries| && w in Wires(entries[i].Of(kind)) :: w
  }

  /** `dedup_against_others`: what is left of an entry beside the others. */
  function Beside<T>(others: seq<Entry<T>>, e: Entry<T>): (r: Entry<T>)
    ensures r.id == e.id
  {
    e.(tools := Keep(e.tools, NamesOf(others, Tools)), prompts := Keep(e.prompts, NamesOf(others, Prompts)))
  }

  function Position<T>(entries: seq<Entry<T>>, id: string): (i: nat)
    ensures i <= |entries| && (i < |entries| ==> entries[i].id == id) && forall j :: 0 <= j < i ==> entries[j].id != id
  {
    FirstWith(IdOf, entries, id)
  }

  // ── The writes ──

  function Add<T>(entries: seq<Entry<T>>, e: Entry<T>): seq<Entry<T>> {
    if Position(entries, e.id) < |entries| then entries else entries + [Beside(entries, e)]
  }

  function Replace<T>(entries: seq<Entry<T>>, e: Entry<T>): seq<Entry<T>> {
    var pos := Position(entries, e.id);
    if pos == |entries| then entries else entries[pos := Beside(entries[..pos] + entries[pos + 1..], e)]
  }

  function Remove<T>(entries: seq<Entry<T>>, id: string): seq<Entry<T>> {
    Filter((e: Entry<T>) => e.id != id, entries)
  }

  /** A refresh pushes the probed entries in turn, each past the names of those before it. */
  function Pushed<T>(probed: seq<Entry<T>>): (r: seq<Entry<T>>)
    ensures |r| == |probed|
  {
    if probed == [] then []
    else
      var before := Pushed(probed[..|probed| - 1]);
      before + [Beside(before, probed[|probed| - 1])]
  }

  /** What a refresh brings for this id: its last entry, since later replacements overwrite earlier ones. */
  function Refreshed<T>(refreshed: seq<Entry<T>>, id: string): (r: Option<Entry<T>>)
    ensures r.Some? ==> r.value in refreshed && r.value.id == id
    ensures r.None? ==> forall e :: e in refreshed ==> e.id != id
  {
    if refreshed == [] then None
    else if refreshed[|refreshed| - 1].id == id then Some(refreshed[|refreshed| - 1])
    else Refreshed(refreshed[..|refreshed| - 1], id)
  }

  /** The entry is the first of its id and the refresh has one for it. */
  predicate Replaced<T>(entries: seq<Entry<T>>, refreshed: seq<Entry<T>>, i: nat)
    requires i < |entries|
  {
    Position(entries, entries[i].id) == i && Refreshed(refreshed, entries[i].id).Some?
  }

  function MergedAt<T>(entries: seq<Entry<T>>, refreshed: seq<Entry<T>>, i: nat): (r: Entry<T>)
    requires i < |entries|
    ensures r.id == entries[i].id
  {
    if Replaced(entries, refreshed, i) then Refreshed(refreshed, entries[i].id).value else entries[i]
  }

  /** Servers added meanwhile stay, removed ones do not come back. */
  function Merged<T>(entries: seq<Entry<T>>, refreshed: seq<Entry<T>>): (r: seq<Entry<T>>)
    ensures |r| == |entries| && forall i :: 0 <= i < |r| ==> r[i] == MergedAt(entries, refreshed, i)
  {
    seq(|entries|, i requires 0 <= i < |entries| => MergedAt(entries, refreshed, i))
  }

  // ── What the writes bring and take ──

  /** A new server is added at the end with everything it offers that nobody has; a known id changes nothing. */
  lemma AddBrings<T>(entries: seq<Entry<T>>, e: Entry<T>, kind: Kind)
    ensures (exists i :: 0 <= i < |entries| && entries[i].id == e.id) ==> Add(entries, e) == entries
    ensures (forall i :: 0 <= i < |entries| ==> entries[i].id != e.id) ==>
              var r := Add(entries, e);
              && |r| == |entries| + 1 && r[..|entries|] == entries && r[|entries|].id == e.id
              && Wires(r[|entries|].Of(kind)) == Wires(e.Of(kind)) - NamesOf(entries, kind)
  {
    if forall i :: 0 <= i < |entries| ==> entries[i].id != e.id { BesideKeeps(entries, e, kind); }
  }

  lemma BesideKeeps<T>(others: seq<Entry<T>>, e: Entry<T>, kind: Kind)
    ensures Wires(Beside(others, e).Of(kind)) == Wires(e.Of(kind)) - NamesOf(others, kind)
  {
    var taken, kept := NamesOf(others, kind), Beside(others, e).Of(kind);
    assert kept == Keep(e.Of(kind), taken);
    KeepFacts(e.Of(kind), taken);
    assert taken + Wires(kept) == taken + Wires(e.Of(kind));
    forall w | w in Wires(kept) ensures w !in taken {
      var i :| 0 <= i < |kept| && kept[i].wire == w;
      assert kept[i] in kept;
    }
  }

  /** A replaced server has everything its new entry offers that no other server has; the others stay as they are. */
  lemma ReplaceBrings<T>(entries: seq<Entry<T>>, e: Entry<T>, pos: nat, kind: Kind)
    requires pos < |entries| && entries[pos].id == e.id && forall j :: 0 <= j < pos ==> entries[j].id != e.id
    ensures var r, others := Replace(entries, e), entries[..pos] + entries[pos + 1..];
            && |r| == |entries| && r[pos].id == e.id && (forall j :: 0 <= j < |r| && j != pos ==> r[j] == entries[j])
            && Wires(r[pos].Of(kind)) == Wires(e.Of(kind)) - NamesOf(others, kind)
  {
    assert Position(entries, e.id) == pos;
    BesideKeeps(entries[..pos] + entries[pos + 1..], e, kind);
  }

  /** Removing takes exactly the entries with the id, and leaves the others in order. */
  lemma RemoveTakes<T>(before: seq<Entry<T>>, e: Entry<T>, after: seq<Entry<T>>, id: string)
    ensures Remove(before + [e] + after, id) ==
            Remove(before, id) + (if e.id == id then [] else [e]) + Remove(after, id)
  {
    var other := (x: Entry<T>) => x.id != id;
    FilterAppend(other, before + [e], after);
    FilterAppend(other, before, [e]);
  }

  lemma {:induction false} RefreshedIsLast<T>(refreshed: seq<Entry<T>>, j: nat)
    requires j < |refreshed| && forall k :: j < k < |refreshed| ==> refreshed[k].id != refreshed[j].id
    ensures Refreshed(refreshed, refreshed[j].id) == Some(refreshed[j])
  {
    if j < |refreshed| - 1 { RefreshedIsLast(refreshed[..|refreshed| - 1], j); }
  }

  /**
   A merge replaces exactly the first entry of each id that the refresh has an entry for, by the last such entry,
   and adds and removes none.
   */
  lemma MergeBrings<T>(entries: seq<Entry<T>>, refreshed: seq<Entry<T>>, i: nat)
    requires i < |entries|
    ensures |Merged(entries, refreshed)| == |entries|
    ensures (forall j :: 0 <= j < |refreshed| ==> refreshed[j].id != entries[i].id)
            || (exists j :: 0 <= j < i && entries[j].id == entries[i].id) ==>
              Merged(entries, refreshed)[i] == entries[i]
    ensures forall j :: && 0 <= j < |refreshed| && refreshed[j].id == entries[i].id
                        && (forall k :: j < k < |refreshed| ==> refreshed[k].id != entries[i].id)
                        && (forall k :: 0 <= k < i ==> entries[k].id != entries[i].id) ==>
              Merged(entries, refreshed)[i] == refreshed[j]
  {
    forall j | && 0 <= j < |refreshed| && refreshed[j].id == entries[i].id
               && forall k :: j < k < |refreshed| ==> refreshed[k].id != entries[i].id
      ensures Refreshed(refreshed, entries[i].id) == Some(refreshed[j])
    {
      RefreshedIsLast(refreshed, j);
    }
  }

  // ── Names beside each other ──

  lemma BesideOthers<T>(others: seq<Entry<T>>, e: Entry<T>, kind: Kind)
    ensures DistinctWires(Beside(others, e).Of(kind))
    ensures forall i :: 0 <= i < |others| ==> Apart(others[i], Beside(others, e), kind)
  {
    KeepFacts(e.Of(kind), NamesOf(others, kind));
    var kept := Beside(others, e).Of(kind);
    assert kept == Keep(e.Of(kind), NamesOf(others, kind));
    forall i, w | 0 <= i < |others| && w in Wires(others[i].Of(kind)) ensures w !in Wires(kept) {
      assert w in NamesOf(others, kind);
    }
  }

  /** Adding a server keeps names distinct. */
  lemma AddKeepsNames<T>(entries: seq<Entry<T>>, e: Entry<T>, kind: Kind)
    requires NamesDistinct(entries, kind)
    ensures NamesDistinct(Add(entries, e), kind)
  {
    BesideOthers(entries, e, kind);
  }

  lemma UpdateKeepsNames<T>(entries: seq<Entry<T>>, pos: nat, left: Entry<T>, kind: Kind)
    requires NamesDistinct(entries, kind) && pos < |entries| && DistinctWires(left.Of(kind))
    requires forall i :: 0 <= i < |entries| && i != pos ==> Apart(entries[i], left, kind)
    ensures NamesDistinct(entries[pos := left], kind)
  {
    var r := entries[pos := left];
    forall i, j | 0 <= i < j < |r| ensures Apart(r[i], r[j], kind) {
      if i == pos { assert Apart(entries[j], left, kind); }
    }
  }

  lemma ReplacedApart<T>(entries: seq<Entry<T>>, pos: nat, e: Entry<T>, kind: Kind, i: nat)
    requires pos < |entries| && i < |entries| && i != pos
    ensures Apart(entries[i], Beside(entries[..pos] + entries[pos + 1..], e), kind)
  {
    var others := entries[..pos] + entries[pos + 1..];
    BesideOthers(others, e, kind);
    assert others[if i < pos then i else i - 1] == entries[i];
  }

  /** So does replacing one by what a probe or reconnect found. */
  lemma ReplaceKeepsNames<T>(entries: seq<Entry<T>>, e: Entry<T>, kind: Kind)
    requires NamesDistinct(entries, kind)
    ensures NamesDistinct(Replace(entries, e), kind)
  {
    var pos := Position(entries, e.id);
    if pos < |entries| {
      var left := Beside(entries[..pos] + entries[pos + 1..], e);
      assert DistinctWires(left.Of(kind)) by { BesideOthers(entries[..pos] + entries[pos + 1..], e, kind); }
      forall i | 0 <= i < |entries| && i != pos ensures Apart(entries[i], left, kind) {
        ReplacedApart(entries, pos, e, kind, i);
      }
      UpdateKeepsNames(entries, pos, left, kind);
    }
  }

  /** So does removing one. */
  lemma {:induction false} RemoveKeepsNames<T>(entries: seq<Entry<T>>, id: string, kind: Kind)
    requires NamesDistinct(entries, kind)
    ensures NamesDistinct(Remove(entries, id), kind)
  {
    if entries != [] {
      var rest := entries[1..];
      RemoveKeepsNames(rest, id, kind);
      var kept := Remove(rest, id);
      forall j | 0 <= j < |kept| ensures Apart(entries[0], kept[j], kind) {
        assert kept[j] in rest;
        var i :| 0 <= i < |rest| && rest[i] == kept[j];
        assert entries[i + 1] == kept[j];
      }
    }
  }

  lemma {:induction false} PushedId<T>(probed: seq<Entry<T>>, i: nat)
    requires i < |probed|
    ensures Pushed(probed)[i].id == probed[i].id
  {
    var n := |probed| - 1;
    if i < n {
      PushedId(probed[..n], i);
      assert probed[..n][i] == probed[i];
    }
  }

  /** A refresh by itself has distinct names, whatever the servers offered. */
  lemma {:induction false} PushedNames<T>(probed: seq<Entry<T>>, kind: Kind)
    ensures NamesDistinct(Pushed(probed), kind)
  {
    if probed != [] {
      var front := probed[..|probed| - 1];
      PushedNames(front, kind);
      BesideOthers(Pushed(front), probed[|probed| - 1], kind);
    }
  }

  lemma NamesOfAppend<T>(entries: seq<Entry<T>>, e: Entry<T>, kind: Kind)
    ensures NamesOf(entries + [e], kind) == NamesOf(entries, kind) + Wires(e.Of(kind))
  {
    var all := entries + [e];
    forall w | w in NamesOf(entries, kind) ensures w in NamesOf(all, kind) {
      var i :| 0 <= i < |entries| && w in Wires(entries[i].Of(kind));
      assert all[i] == entries[i];
    }
    forall w | w in Wires(e.Of(kind)) ensures w in NamesOf(all, kind) {
      assert all[|entries|] == e;
    }
  }

  lemma BesideLosesNothing<T>(before: seq<Entry<T>>, e: Entry<T>, kind: Kind, all: set<string>)
    requires NamesOf(before, kind) == all
    ensures NamesOf(before + [Beside(before, e)], kind) == all + Wires(e.Of(kind))
  {
    KeptAreDistinct(e.Of(kind), all);
    NamesOfAppend(before, Beside(before, e), kind);
    assert Beside(before, e).Of(kind) == Keep(e.Of(kind), all);
  }

  /** The names that the entries offer, entry by entry. */
  function Offered<T>(entries: seq<Entry<T>>, kind: Kind): set<string> {
    if entries == [] then {} else Offered(entries[..|entries| - 1], kind) + Wires(entries[|entries| - 1].Of(kind))
  }

  lemma {:induction false} OfferedHas<T>(entries: seq<Entry<T>>, kind: Kind, i: nat, w: string)
    requires i < |entries| && w in Wires(entries[i].Of(kind))
    ensures w in Offered(entries, kind)
  {
    var n := |entries| - 1;
    var front := entries[..n];
    if i < n {
      assert front[i] == entries[i];
      OfferedHas(front, kind, i, w);
    }
  }

  lemma {:induction false} OfferedBy<T>(entries: seq<Entry<T>>, kind: Kind, w: string) returns (i: nat)
    requires w in Offered(entries, kind)
    ensures i < |entries| && w in Wires(entries[i].Of(kind))
  {
    var n := |entries| - 1;
    if w in Wires(entries[n].Of(kind)) { return n; }
    i := OfferedBy(entries[..n], kind, w);
    assert entries[..n][i] == entries[i];
  }

  lemma OfferedIsNamesOf<T>(entries: seq<Entry<T>>, kind: Kind)
    ensures Offered(entries, kind) == NamesOf(entries, kind)
  {
    forall w | w in Offered(entries, kind) ensures w in NamesOf(entries, kind) {
      var i := OfferedBy(entries, kind, w);
    }
    forall w | w in NamesOf(entries, kind) ensures w in Offered(entries, kind) {
      var i :| 0 <= i < |entries| && w in Wires(entries[i].Of(kind));
      OfferedHas(entries, kind, i, w);
    }
  }

  lemma {:induction false} PushedNamesAre<T>(probed: seq<Entry<T>>, kind: Kind)
    ensures NamesOf(Pushed(probed), kind) == Offered(probed, kind)
  {
    if probed != [] {
      var front, e := probed[..|probed| - 1], probed[|probed| - 1];
      PushedNamesAre(front, kind);
      BesideLosesNothing(Pushed(front), e, kind, Offered(front, kind));
    }
  }

  /** And loses no offered name. */
  lemma PushedLosesNothing<T>(probed: seq<Entry<T>>, kind: Kind)
    ensures NamesOf(Pushed(probed), kind) == NamesOf(probed, kind)
  {
    PushedNamesAre(probed, kind);
    OfferedIsNamesOf(probed, kind);
  }

  /** What a server keeps depends on the servers before it only through the names they offered. */
  lemma {:induction false} PushedAt<T>(probed: seq<Entry<T>>, i: nat)
    requires i < |probed|
    ensures Pushed(probed)[i] == Beside(probed[..i], probed[i])
  {
    var front := probed[..|probed| - 1];
    if i < |front| {
      PushedAt(front, i);
      assert front[..i] == probed[..i];
    } else {
      PushedLosesNothing(front, Tools);
      PushedLosesNothing(front, Prompts);
    }
  }

  /** A server keeps only items of its own that it offered first and no earlier server offered. */
  lemma PushedKeepsFirst<T>(probed: seq<Entry<T>>, i: nat, kind: Kind, x: Item<T>)
    requires i < |probed| && x in Pushed(probed)[i].Of(kind)
    ensures FirstOffered(probed[i].Of(kind), x) && x.wire !in NamesOf(probed[..i], kind)
  {
    PushedAt(probed, i);
    KeepFacts(probed[i].Of(kind), NamesOf(probed[..i], kind));
  }

  // ── The merge ──

  /** No entry that the merge brings shares a name with one that it leaves in place. */
  ghost predicate NothingTaken<T>(entries: seq<Entry<T>>, refreshed: seq<Entry<T>>, kind: Kind) {
    forall i, j :: && 0 <= i < |entries| && 0 <= j < |entries|
                   && Replaced(entries, refreshed, i) && !Replaced(entries, refreshed, j) ==>
      Apart(entries[j], MergedAt(entries, refreshed, i), kind)
  }

  lemma ApartAt<T>(entries: seq<Entry<T>>, kind: Kind, i: nat, j: nat)
    requires NamesDistinct(entries, kind) && i < |entries| && j < |entries| && i != j
    ensures Apart(entries[i], entries[j], kind)
  {
    if j < i { assert Apart(entries[j], entries[i], kind); }
  }

  /** Two entries that a merge brings are apart, since they stood in one refresh. */
  lemma BroughtApart<T>(entries: seq<Entry<T>>, refreshed: seq<Entry<T>>, kind: Kind, i: nat, j: nat)
    requires NamesDistinct(refreshed, kind) && i < |entries| && j < |entries| && i != j
    requires Replaced(entries, refreshed, i) && Replaced(entries, refreshed, j)
    ensures Apart(MergedAt(entries, refreshed, i), MergedAt(entries, refreshed, j), kind)
  {
    var a, b := MergedAt(entries, refreshed, i), MergedAt(entries, refreshed, j);
    var m :| 0 <= m < |refreshed| && refreshed[m] == a;
    var n :| 0 <= n < |refreshed| && refreshed[n] == b;
    assert a.id == entries[i].id && b.id == entries[j].id && a.id != b.id;
    ApartAt(refreshed, kind, m, n);
  }

  lemma MergedPair<T>(entries: seq<Entry<T>>, refreshed: seq<Entry<T>>, kind: Kind, i: nat, j: nat)
    requires NamesDistinct(entries, kind) && NamesDistinct(refreshed, kind) && NothingTaken(entries, refreshed, kind)
    requires i < j < |entries|
    ensures Apart(MergedAt(entries, refreshed, i), MergedAt(entries, refreshed, j), kind)
  {
    if Replaced(entries, refreshed, i) && Replaced(entries, refreshed, j) {
      BroughtApart(entries, refreshed, kind, i, j);
    } else if Replaced(entries, refreshed, i) {
      assert Apart(entries[j], MergedAt(entries, refreshed, i), kind);
    } else if Replaced(entries, refreshed, j) {
      assert Apart(entries[i], MergedAt(entries, refreshed, j), kind);
    }
  }

  lemma MergedItemsDistinct<T>(entries: seq<Entry<T>>, refreshed: seq<Entry<T>>, kind: Kind, i: nat)
    requires i < |entries| && NamesDistinct(refreshed, kind)
    requires Replaced(entries, refreshed, i) || DistinctWires(entries[i].Of(kind))
    ensures DistinctWires(MergedAt(entries, refreshed, i).Of(kind))
  {
    if Replaced(entries, refreshed, i) {
      var m :| 0 <= m < |refreshed| && refreshed[m] == MergedAt(entries, refreshed, i);
    }
  }

  /**
   The merge of a refresh keeps names distinct exactly when none of the entries it brings offers a name
   of an entry that it leaves in place: a server added since its snapshot, or a second entry of one id.
   */
  lemma MergeKeepsNamesIff<T>(entries: seq<Entry<T>>, refreshed: seq<Entry<T>>, kind: Kind)
    requires NamesDistinct(entries, kind) && NamesDistinct(refreshed, kind)
    ensures NamesDistinct(Merged(entries, refreshed), kind) <==> NothingTaken(entries, refreshed, kind)
  {
    var merged := Merged(entries, refreshed);
    if NothingTaken(entries, refreshed, kind) {
      forall i | 0 <= i < |merged| ensures DistinctWires(merged[i].Of(kind)) {
        MergedItemsDistinct(entries, refreshed, kind, i);
      }
      forall i, j | 0 <= i < j < |merged| ensures Apart(merged[i], merged[j], kind) {
        MergedPair(entries, refreshed, kind, i, j);
      }
    }
    if NamesDistinct(merged, kind) {
      forall i, j | 0 <= i < |entries| && 0 <= j < |entries| && Replaced(entries, refreshed, i)
          && !Replaced(entries, refreshed, j)
        ensures Apart(entries[j], MergedAt(entries, refreshed, i), kind)
      {
        ApartAt(merged, kind, j, i);
      }
    }
  }

  /** If the merge replaces every entry, names are distinct afterwards, whatever was there before. */
  lemma CoveredMergeHeals<T>(entries: seq<Entry<T>>, refreshed: seq<Entry<T>>, kind: Kind)
    requires NamesDistinct(refreshed, kind) && forall i :: 0 <= i < |entries| ==> Replaced(entries, refreshed, i)
    ensures NamesDistinct(Merged(entries, refreshed), kind)
  {
    forall i, j | 0 <= i < j < |entries|
      ensures Apart(MergedAt(entries, refreshed, i), MergedAt(entries, refreshed, j), kind)
    {
      BroughtApart(entries, refreshed, kind, i, j);
    }
    forall i | 0 <= i < |entries| ensures DistinctWires(MergedAt(entries, refreshed, i).Of(kind)) {
      assert Replaced(entries, refreshed, i);
      MergedItemsDistinct(entries, refreshed, kind, i);
    }
  }

  /** With distinct ids that is the case when the refresh saw every server. */
  lemma SeenIsReplaced<T>(entries: seq<Entry<T>>, refreshed: seq<Entry<T>>, i: nat)
    requires DistinctIds(entries) && i < |entries| && Refreshed(refreshed, entries[i].id).Some?
    ensures Replaced(entries, refreshed, i)
  {
    var k := Position(entries, entries[i].id);
    assert Map(IdOf, entries)[k] == Map(IdOf, entries)[i];
  }

  // ── The registry as an object ──

  /** One more replacement: at the first entry with its id, if there is one. */
  lemma MergedStep<T>(entries: seq<Entry<T>>, refreshed: seq<Entry<T>>, k: nat)
    requires k < |refreshed|
    ensures var before, after := Merged(entries, refreshed[..k]), Merged(entries, refreshed[..k + 1]);
            var pos := Position(before, refreshed[k].id);
            after == if pos < |before| then before[pos := refreshed[k]] else before
  {
    var r, before := refreshed[k], Merged(entries, refreshed[..k]);
    var pos := Position(before, r.id);
    assert refreshed[..k + 1][..k] == refreshed[..k];
    SamePositions(entries, before, r.id);
    forall i | 0 <= i < |entries|
      ensures MergedAt(entries, refreshed[..k + 1], i) == if i == pos then r else before[i]
    {
      assert entries[i].id == r.id && i != pos ==> !Replaced(entries, refreshed[..k + 1], i);
    }
  }

  lemma SamePositions<T>(a: seq<Entry<T>>, b: seq<Entry<T>>, id: string)
    requires |a| == |b| && forall i :: 0 <= i < |a| ==> a[i].id == b[i].id
    ensures Position(a, id) == Position(b, id)
  {
  }

  lemma AddKeepsIds<T>(entries: seq<Entry<T>>, e: Entry<T>)
    requires DistinctIds(entries)
    ensures DistinctIds(Add(entries, e))
  {
    if Position(entries, e.id) == |entries| {
      assert Map(IdOf, entries + [Beside(entries, e)]) == Map(IdOf, entries) + [e.id];
    }
  }

  lemma WritesKeepIds<T>(entries: seq<Entry<T>>, e: Entry<T>, id: string, refreshed: seq<Entry<T>>)
    requires DistinctIds(entries)
    ensures DistinctIds(Replace(entries, e)) && DistinctIds(Remove(entries, id))
            && DistinctIds(Merged(entries, refreshed))
  {
    FilterDistinct((x: Entry<T>) => x.id != id, IdOf, entries);
    assert Map(IdOf, Replace(entries, e)) == Map(IdOf, entries);
    assert Map(IdOf, Merged(entries, refreshed)) == Map(IdOf, entries);
  }

  class McpServerRegistry<T(!new)> {
    var entries: seq<Entry<T>>

    /** `connect_all_with`: the configured servers, pushed in order. */
    constructor (probed: seq<Entry<T>>)
      ensures entries == Pushed(probed)
    {
      entries := [];
      new;
      entries := PushAll(probed);
    }

    /** `add_server`, under the write lock: refused if the id is taken meanwhile. */
    method AddServer(e: Entry<T>) returns (added: bool)
      modifies this
      ensures entries == Add(old(entries), e)
      ensures added <==> forall i :: 0 <= i < |old(entries)| ==> old(entries)[i].id != e.id
    {
      if Position(entries, e.id) < |entries| { return false; }
      var left := DedupBeside(entries, e);
      entries := entries + [left];
      return true;
    }

    /** `replace_entry`: a server removed meanwhile does not come back. */
    method ReplaceEntry(e: Entry<T>) returns (found: bool)
      modifies this
      ensures entries == Replace(old(entries), e)
      ensures found <==> exists i :: 0 <= i < |old(entries)| && old(entries)[i].id == e.id
    {
      var pos := Position(entries, e.id);
      if pos == |entries| { return false; }
      var left := DedupBeside(entries[..pos] + entries[pos + 1..], e);
      entries := entries[pos := left];
      return true;
    }

    method RemoveServer(id: string)
      modifies this
      ensures entries == Remove(old(entries), id)
    {
      entries := Filter((e: Entry<T>) => e.id != id, entries);
    }

    /** The second half of a refresh, under the write lock: replace by id, one after the other. */
    method MergeRefreshed(refreshed: seq<Entry<T>>)
      modifies this
      ensures entries == Merged(old(entries), refreshed)
    {
      assert Merged(entries, refreshed[..0]) == entries;
      for k := 0 to |refreshed|
        invariant entries == Merged(old(entries), refreshed[..k])
      {
        MergedStep(old(entries), refreshed, k);
        var pos := Position(entries, refreshed[k].id);
        if pos < |entries| { entries := entries[pos := refreshed[k]]; }
      }
      assert refreshed[..|refreshed|] == refreshed;
    }
  }

  method CollectNames<T>(entries: seq<Entry<T>>, kind: Kind) returns (names: set<string>)
    ensures names == NamesOf(entries, kind)
  {
    names := {};
    for i := 0 to |entries|
      invariant names == NamesOf(entries[..i], kind)
    {
      assert entries[..i + 1] == entries[..i] + [entries[i]];
      NamesOfAppend(entries[..i], entries[i], kind);
      names := names + Wires(entries[i].Of(kind));
    }
    assert entries[..|entries|] == entries;
  }

  method DedupBeside<T>(others: seq<Entry<T>>, e: Entry<T>) returns (r: Entry<T>)
    ensures r == Beside(others, e)
  {
    var seenTools := CollectNames(others, Tools);
    var tools, _ := DedupItems(e.tools, seenTools);
    var seenPrompts := CollectNames(others, Prompts);
    var prompts, _ := DedupItems(e.prompts, seenPrompts);
    return e.(tools := tools, prompts := prompts);
  }

  /**
   `push_deduped_entry` for every probed entry: one running set for tools, the prompts of the pushed
   entries for prompts.
   */
  method PushAll<T>(probed: seq<Entry<T>>) returns (pushed: seq<Entry<T>>)
    ensures pushed == Pushed(probed)
  {
    pushed := [];
    var seen: set<string> := {};
    for i := 0 to |probed|
      invariant pushed == Pushed(probed[..i]) && seen == NamesOf(pushed, Tools)
    {
      assert probed[..i + 1][..i] == probed[..i];
      var e := probed[i];
      var tools, seen' := DedupItems(e.tools, seen);
      var seenPrompts := CollectNames(pushed, Prompts);
      var prompts, _ := DedupItems(e.prompts, seenPrompts);
      KeepFacts(e.tools, seen);
      NamesOfAppend(pushed, e.(tools := tools, prompts := prompts), Tools);
      pushed, seen := pushed + [e.(tools := tools, prompts := prompts)], seen';
    }
    assert probed[..|probed|] == probed;
  }

  // ── Runs ──

  /** The registry and the snapshots of the refreshes in flight. */
  datatype State<T> = State(entries: seq<Entry<T>>, pending: map<nat, seq<Entry<T>>>)

  /** `probed` is what upstream answered for the servers of the snapshot. */
  datatype Step<T> =
    | Snapshot(task: nat)
    | Merge(task: nat, probed: seq<Entry<T>>)
    | AddStep(entry: Entry<T>)
    | ReplaceStep(entry: Entry<T>)
    | RemoveStep(id: string)

  ghost predicate Enabled<T>(s: State<T>, step: Step<T>) {
    step.Merge? ==> step.task in s.pending && Map(IdOf, step.probed) == Map(IdOf, s.pending[step.task])
  }

  function Next<T>(s: State<T>, step: Step<T>): State<T> {
    match step
    case Snapshot(task) => s.(pending := s.pending[task := s.entries])
    case Merge(task, probed) => State(Merged(s.entries, Pushed(probed)), s.pending - {task})
    case AddStep(entry) => s.(entries := Add(s.entries, entry))
    case ReplaceStep(entry) => s.(entries := Replace(s.entries, entry))
    case RemoveStep(id) => s.(entries := Remove(s.entries, id))
  }

  ghost predicate IdsDistinct<T>(s: State<T>) {
    DistinctIds(s.entries) && forall t :: t in s.pending ==> DistinctIds(s.pending[t])
  }

  lemma StepKeepsIds<T>(s: State<T>, step: Step<T>)
    requires IdsDistinct(s) && Enabled(s, step)
    ensures IdsDistinct(Next(s, step))
  {
    match step
    case Merge(_, probed) => WritesKeepIds(s.entries, Entry("", [], []), "", Pushed(probed));
    case AddStep(entry) => AddKeepsIds(s.entries, entry);
    case ReplaceStep(entry) => WritesKeepIds(s.entries, entry, "", []);
    case RemoveStep(id) => WritesKeepIds(s.entries, Entry("", [], []), id, []);
    case _ =>
  }

  /** Every step keeps names distinct, but a merge only if nothing it brings is taken. */
  lemma StepKeepsNamesIff<T>(s: State<T>, step: Step<T>, kind: Kind)
    requires NamesDistinct(s.entries, kind)
    ensures NamesDistinct(Next(s, step).entries, kind) <==>
            (step.Merge? ==> NothingTaken(s.entries, Pushed(step.probed), kind))
  {
    match step
    case Snapshot(_) =>
    case Merge(task, probed) =>
      PushedNames(probed, kind);
      MergeKeepsNamesIff(s.entries, Pushed(probed), kind);
    case AddStep(entry) => AddKeepsNames(s.entries, entry, kind);
    case ReplaceStep(entry) => ReplaceKeepsNames(s.entries, entry, kind);
    case RemoveStep(id) => RemoveKeepsNames(s.entries, id, kind);
  }

  function Run<T>(s: State<T>, steps: seq<Step<T>>): State<T>
    decreases |steps|
  {
    if steps == [] then s else Run(Next(s, steps[0]), steps[1..])
  }

  ghost predicate NamesThroughout<T>(s: State<T>, steps: seq<Step<T>>, kind: Kind)
    decreases |steps|
  {
    NamesDistinct(s.entries, kind) && (steps == [] || NamesThroughout(Next(s, steps[0]), steps[1..], kind))
  }

  /** A run in which every merge finds nothing taken. */
  ghost predicate NothingEverTaken<T>(s: State<T>, steps: seq<Step<T>>, kind: Kind)
    decreases |steps|
  {
    steps == [] ||
    (&& (steps[0].Merge? ==> NothingTaken(s.entries, Pushed(steps[0].probed), kind))
     && NothingEverTaken(Next(s, steps[0]), steps[1..], kind))
  }

  /** Over every run: names are distinct in every state exactly when no merge brings a taken name. */
  lemma {:induction false} RunKeepsNamesIff<T>(s: State<T>, steps: seq<Step<T>>, kind: Kind)
    requires NamesDistinct(s.entries, kind)
    ensures NamesThroughout(s, steps, kind) <==> NothingEverTaken(s, steps, kind)
    decreases |steps|
  {
    if steps != [] {
      StepKeepsNamesIff(s, steps[0], kind);
      if NamesDistinct(Next(s, steps[0]).entries, kind) {
        RunKeepsNamesIff(Next(s, steps[0]), steps[1..], kind);
      }
    }
  }

  // ── Adding only between refreshes ──

  /** Every server is in the snapshot of every refresh in flight. */
  ghost predicate Covered<T>(s: State<T>) {
    forall t, e :: t in s.pending && e in s.entries ==> exists o :: o in s.pending[t] && o.id == e.id
  }

  /** A run that adds servers only while no refresh is in flight. */
  ghost predicate AddsBetween<T>(s: State<T>, steps: seq<Step<T>>)
    decreases |steps|
  {
    steps == [] ||
    (Enabled(s, steps[0]) && (steps[0].AddStep? ==> s.pending == map[]) && AddsBetween(Next(s, steps[0]), steps[1..]))
  }

  /** No step but an add brings in a new id. */
  lemma NoNewIds<T>(s: State<T>, step: Step<T>, e: Entry<T>)
    requires !step.AddStep? && e in Next(s, step).entries
    ensures exists o :: o in s.entries && o.id == e.id
  {
    var i :| 0 <= i < |Next(s, step).entries| && Next(s, step).entries[i] == e;
    if !step.RemoveStep? {
      assert s.entries[i] in s.entries && s.entries[i].id == e.id;
    }
  }

  lemma StepKeepsCovered<T>(s: State<T>, step: Step<T>)
    requires Covered(s) && (step.AddStep? ==> s.pending == map[])
    ensures Covered(Next(s, step))
  {
    var s' := Next(s, step);
    forall t, e | t in s'.pending && e in s'.entries ensures exists o :: o in s'.pending[t] && o.id == e.id {
      if !step.AddStep? && step != Snapshot(t) {
        NoNewIds(s, step, e);
        var o :| o in s.entries && o.id == e.id;
        assert t in s.pending && s.pending[t] == s'.pending[t];
      }
    }
  }

  lemma CoveredIsReplaced<T>(s: State<T>, task: nat, probed: seq<Entry<T>>, i: nat)
    requires DistinctIds(s.entries) && Covered(s) && Enabled(s, Merge(task, probed)) && i < |s.entries|
    ensures Replaced(s.entries, Pushed(probed), i)
  {
    var e := s.entries[i];
    assert e in s.entries;
    var o :| o in s.pending[task] && o.id == e.id;
    var n :| 0 <= n < |s.pending[task]| && s.pending[task][n] == o;
    assert Map(IdOf, probed)[n] == Map(IdOf, s.pending[task])[n];
    PushedId(probed, n);
    assert Pushed(probed)[n] in Pushed(probed);
    SeenIsReplaced(s.entries, Pushed(probed), i);
  }

  /**
   With distinct ids: if servers are added only while no refresh is in flight, names stay distinct
   through every such run.
   */
  lemma {:induction false} AddsBetweenKeepNames<T>(s: State<T>, steps: seq<Step<T>>, kind: Kind)
    requires IdsDistinct(s) && NamesDistinct(s.entries, kind) && Covered(s) && AddsBetween(s, steps)
    ensures NamesThroughout(s, steps, kind)
    decreases |steps|
  {
    if steps != [] {
      var step := steps[0];
      StepKeepsIds(s, step);
      StepKeepsCovered(s, step);
      if step.Merge? {
        PushedNames(step.probed, kind);
        forall i | 0 <= i < |s.entries| ensures Replaced(s.entries, Pushed(step.probed), i) {
          CoveredIsReplaced(s, step.task, step.probed, i);
        }
        CoveredMergeHeals(s.entries, Pushed(step.probed), kind);
      } else {
        StepKeepsNamesIff(s, step, kind);
      }
      AddsBetweenKeepNames(Next(s, step), steps[1..], kind);
    }
  }

  lemma BesideNobody<T>(others: seq<Entry<T>>, id: string, x: Item<T>)
    requires forall i :: 0 <= i < |others| ==> others[i].tools == []
    ensures Beside(others, Entry(id, [x], [])) == Entry(id, [x], [])
  {
    assert NamesOf(others, Tools) == {};
    assert [x][..0] == [] && Keep([x], {}) == [x];
  }

  /** For instance, a refresh that started before a server was added can bring in that server's tool name. */
  lemma RefreshTakesAddedName<T>(a: string, c: string, x: Item<T>)
    requires a != c
    ensures var s := State([Entry(a, [], [])], map[]);
            var added := Next(Next(s, Snapshot(0)), AddStep(Entry(c, [x], [])));
            && Enabled(added, Merge(0, [Entry(a, [x], [])])) && NamesDistinct(added.entries, Tools)
            && !NamesDistinct(Next(added, Merge(0, [Entry(a, [x], [])])).entries, Tools)
  {
    var s, probed := State([Entry(a, [], [])], map[]), [Entry(a, [x], [])];
    var added := Next(Next(s, Snapshot(0)), AddStep(Entry(c, [x], [])));
    BesideNobody(s.entries, c, x);
    assert added.entries == [Entry(a, [], []), Entry(c, [x], [])];
    BesideNobody([], a, x);
    assert probed[..0] == [] && Pushed(probed) == probed;
    assert Map(IdOf, probed) == [a] == Map(IdOf, s.entries);
    StepKeepsNamesIff(added, Merge(0, probed), Tools);
    TakenByFirst(added.entries, probed, x);
  }

  /** The merge brings `x` for the first entry while the second, which it leaves, has it. */
  lemma TakenByFirst<T>(entries: seq<Entry<T>>, refreshed: seq<Entry<T>>, x: Item<T>)
    requires |entries| == 2 && |refreshed| == 1 && refreshed[0].id == entries[0].id != entries[1].id
    requires refreshed[0].tools == [x] && entries[1].tools == [x]
    ensures !NothingTaken(entries, refreshed, Tools)
  {
    assert Replaced(entries, refreshed, 0) && !Replaced(entries, refreshed, 1);
    assert MergedAt(entries, refreshed, 0) == refreshed[0];
    assert x.wire in Wires([x]) by { assert [x][0] == x; }
  }
}
