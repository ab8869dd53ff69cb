/** First come, first served removal of duplicate wire names (src/mcp/dedup.rs). */
module Dedup {
  /** A tool with the descriptor that travels with it, or a prompt, under its wire name. */
  datatype Item<T> = Item(wire: string, payload: T)

  function Wires<T>(items: seq<Item<T>>): (r: set<string>)
    ensures forall i :: 0 <= i < |items| ==> items[i].wire in r
  {
    set i | 0 <= i < |items| :: items[i].wire
  }

  ghost predicate DistinctWires<T>(items: seq<Item<T>>) {
    forall i, j :: 0 <= i < j < |items| ==> items[i].wire != items[j].wire
  }

  lemma JoinDistinct<T>(xs: seq<Item<T>>, ys: seq<Item<T>>, taken: set<string>)
    requires DistinctWires(xs) && DistinctWires(ys) && Wires(xs) <= taken && forall y :: y in ys ==> y.wire !in taken
    ensures DistinctWires(xs + ys)
  {
  }

  lemma WiresStep<T>(items: seq<Item<T>>)
    requires items != []
    ensures Wires(items) == Wires(items[..|items| - 1]) + {items[|items| - 1].wire}
  {
  }

  /** What is kept of `items` when the names in `seen` are taken. */
  function Keep<T>(items: seq<Item<T>>, seen: set<string>): seq<Item<T>> {
    if items == [] then []
    else
      var n := |items| - 1;
      var before := Keep(items[..n], seen);
      if items[n].wire in seen + Wires(items[..n]) then before else before + [items[n]]
  }

  /** `x` is the first item offered under its name. */
  ghost predicate FirstOffered<T>(items: seq<Item<T>>, x: Item<T>) {
    exists i :: 0 <= i < |items| && items[i] == x && x.wire !in Wires(items[..i])
  }

  lemma FirstOfferedLater<T>(items: seq<Item<T>>, x: Item<T>)
    requires items != [] && FirstOffered(items[..|items| - 1], x)
    ensures FirstOffered(items, x)
  {
    var front := items[..|items| - 1];
    var i :| 0 <= i < |front| && front[i] == x && x.wire !in Wires(front[..i]);
    assert front[..i] == items[..i] && items[i] == x;
  }

  lemma {:induction false} KeptAreFirst<T>(items: seq<Item<T>>, seen: set<string>, x: Item<T>)
    requires x in Keep(items, seen)
    ensures FirstOffered(items, x) && x.wire !in seen
  {
    var n := |items| - 1;
    if x in Keep(items[..n], seen) {
      KeptAreFirst(items[..n], seen, x);
      FirstOfferedLater(items, x);
    } else {
      assert items[n] == x;
    }
  }

  lemma {:induction false} KeptAreDistinct<T>(items: seq<Item<T>>, seen: set<string>)
    ensures DistinctWires(Keep(items, seen)) && seen + Wires(Keep(items, seen)) == seen + Wires(items)
  {
    if items != [] {
      var n := |items| - 1;
      var before, x := items[..n], items[n];
      var kb := Keep(before, seen);
      KeptAreDistinct(before, seen);
      WiresStep(items);
      if x.wire !in seen + Wires(before) {
        assert (kb + [x])[..|kb|] == kb;
        WiresStep(kb + [x]);
        JoinDistinct(kb, [x], seen + Wires(before));
      }
    }
  }

  /** Kept items are distinct and new, the first of their name, and every offered name is taken or kept. */
  lemma KeepFacts<T>(items: seq<Item<T>>, seen: set<string>)
    ensures var kept := Keep(items, seen);
            && DistinctWires(kept)
            && (forall x :: x in kept ==> FirstOffered(items, x) && x.wire !in seen)
            && seen + Wires(kept) == seen + Wires(items)
  {
    KeptAreDistinct(items, seen);
    forall x | x in Keep(items, seen) ensures FirstOffered(items, x) && x.wire !in seen {
      KeptAreFirst(items, seen, x);
    }
  }

  /** They stay in the order in which they were offered; `at` says where. */
  lemma {:induction false} KeptInOrder<T>(items: seq<Item<T>>, seen: set<string>) returns (at: seq<nat>)
    ensures |at| == |Keep(items, seen)|
    ensures forall k :: 0 <= k < |at| ==> at[k] < |items| && items[at[k]] == Keep(items, seen)[k]
    ensures forall j, k :: 0 <= j < k < |at| ==> at[j] < at[k]
  {
    at := [];
    if items != [] {
      var n := |items| - 1;
      at := KeptInOrder(items[..n], seen);
      if items[n].wire !in seen + Wires(items[..n]) { at := at + [n]; }
    }
  }

  /** `dedup_entry_tools` and `dedup_prompts`: the in-place filter with its growing set of seen names. */
  method DedupItems<T>(items: seq<Item<T>>, seen: set<string>) returns (kept: seq<Item<T>>, seen': set<string>)
    ensures kept == Keep(items, seen) && seen' == seen + Wires(items)
  {
    kept, seen' := [], seen;
    for i := 0 to |items|
      invariant kept == Keep(items[..i], seen) && seen' == seen + Wires(items[..i])
    {
      assert items[..i + 1][..i] == items[..i];
      WiresStep(items[..i + 1]);
      if items[i].wire !in seen' {
        kept := kept + [items[i]];
        seen' := seen' + {items[i].wire};
      }
    }
    assert items[..|items|] == items;
  }
}
