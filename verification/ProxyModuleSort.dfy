/**
 Ordering of entity specifications by location (proxy/proxy_message_handlers.cpp,
 `sort_module_by_location`).
 */
module ProxyModuleSort {
  import opened Common
  import opened StableSort

  const UINT32_MAX := 0xFFFF_FFFF

  type uint32 = x: int | 0 <= x <= UINT32_MAX

  datatype Location = Location(stack: uint32, carrier: uint32)

  datatype Item = Specification(location: Option<Location>, data: nat) | Other(data: nat)

  /** The comparison key; an unknown location comes last. */
  function LocationOf(item: Item): Location {
    if item.Specification? && item.location.Some? then item.location.value else Location(UINT32_MAX, UINT32_MAX)
  }

  predicate Before(a: Location, b: Location) {
    a.stack < b.stack || (a.stack == b.stack && a.carrier < b.carrier)
  }

  /** Pairs compared in order, as one number. */
  function Rank(item: Item): int {
    LocationOf(item).stack * (UINT32_MAX + 1) + LocationOf(item).carrier
  }

  lemma RankIsOrder(a: Item, b: Item)
    ensures Rank(a) < Rank(b) <==> Before(LocationOf(a), LocationOf(b))
    ensures Rank(a) == Rank(b) <==> LocationOf(a) == LocationOf(b)
  {
  }

  // ---------------------------------------------------------------- specification

  function Specs(items: seq<Item>): (r: seq<Item>)
    ensures |r| == |SpecIndices(items)|
  {
    if items == [] then []
    else Specs(items[..|items| - 1]) + if items[|items| - 1].Specification? then [items[|items| - 1]] else []
  }

  function SpecIndices(items: seq<Item>): seq<int> {
    if items == [] then []
    else SpecIndices(items[..|items| - 1]) + if items[|items| - 1].Specification? then [|items| - 1] else []
  }

  lemma {:induction false} IndexAt(items: seq<Item>, j: nat)
    requires j < |SpecIndices(items)|
    ensures 0 <= SpecIndices(items)[j] < |items| && items[SpecIndices(items)[j]].Specification?
  {
    var n := |items| - 1;
    if j < |SpecIndices(items[..n])| {
      IndexAt(items[..n], j);
    }
  }

  lemma {:induction false} IndexOf(items: seq<Item>, i: nat) returns (j: nat)
    requires i < |items| && items[i].Specification?
    ensures j < |SpecIndices(items)| && SpecIndices(items)[j] == i
  {
    var n := |items| - 1;
    if i == n {
      j := |SpecIndices(items[..n])|;
    } else {
      j := IndexOf(items[..n], i);
    }
  }

  lemma {:induction false} IndicesIncrease(items: seq<Item>, j: nat, k: nat)
    requires j < k < |SpecIndices(items)|
    ensures SpecIndices(items)[j] < SpecIndices(items)[k]
  {
    var n := |items| - 1;
    IndexAt(items[..n], j);
    if k < |SpecIndices(items[..n])| {
      IndicesIncrease(items[..n], j, k);
    }
  }

  function Itself(i: int): int {
    i
  }

  /** The items with their specifications replaced, in order, by the given ones. */
  function Scatter(items: seq<Item>, specs: seq<Item>): (r: seq<Item>)
    requires |specs| == |Specs(items)|
    ensures |r| == |items|
  {
    if items == [] then []
    else
      var n, k := |items| - 1, |specs| - 1;
      if items[n].Specification? then Scatter(items[..n], specs[..k]) + [specs[k]]
      else Scatter(items[..n], specs) + [items[n]]
  }

  function SortedModule(items: seq<Item>): seq<Item> {
    Scatter(items, Sort(Specs(items), Rank))
  }

  // ---------------------------------------------------------------- what it means

  lemma {:induction false} SpecsAt(items: seq<Item>, j: nat)
    requires j < |Specs(items)|
    ensures 0 <= SpecIndices(items)[j] < |items| && Specs(items)[j] == items[SpecIndices(items)[j]]
  {
    var n := |items| - 1;
    if j < |Specs(items[..n])| {
      SpecsAt(items[..n], j);
    }
  }

  lemma {:induction false} ScatterSpecs(items: seq<Item>, specs: seq<Item>)
    requires |specs| == |Specs(items)| && forall x :: x in specs ==> x.Specification?
    ensures Specs(Scatter(items, specs)) == specs
  {
    hide SpecIndices;
    if items != [] {
      var n, k, r := |items| - 1, |specs| - 1, Scatter(items, specs);
      if items[n].Specification? {
        ScatterSpecs(items[..n], specs[..k]);
        assert specs == specs[..k] + [specs[k]];
        assert r[..n] == Scatter(items[..n], specs[..k]);
      } else {
        ScatterSpecs(items[..n], specs);
        assert r[..n] == Scatter(items[..n], specs);
      }
    }
  }

  lemma {:induction false} ScatterKeeps(items: seq<Item>, specs: seq<Item>, i: nat)
    requires |specs| == |Specs(items)| && i < |items| && !items[i].Specification?
    ensures Scatter(items, specs)[i] == items[i]
  {
    var n := |items| - 1;
    if i < n {
      ScatterKeeps(items[..n], if items[n].Specification? then specs[..|specs| - 1] else specs, i);
    }
  }

  lemma {:induction false} ScatterPuts(items: seq<Item>, specs: seq<Item>, j: nat)
    requires |specs| == |Specs(items)| && j < |specs|
    ensures 0 <= SpecIndices(items)[j] < |items| && Scatter(items, specs)[SpecIndices(items)[j]] == specs[j]
  {
    var n, k := |items| - 1, |specs| - 1;
    if !items[n].Specification? {
      ScatterPuts(items[..n], specs, j);
    } else if j < k {
      ScatterPuts(items[..n], specs[..k], j);
    }
  }

  lemma {:induction false} SpecsAreSpecs(items: seq<Item>)
    ensures forall x :: x in Specs(items) ==> x.Specification?
  {
    if items != [] {
      SpecsAreSpecs(items[..|items| - 1]);
    }
  }

  function Others(items: seq<Item>): seq<Item> {
    if items == [] then []
    else Others(items[..|items| - 1]) + if items[|items| - 1].Specification? then [] else [items[|items| - 1]]
  }

  lemma {:induction false} PartsOfModule(items: seq<Item>)
    ensures multiset(items) == multiset(Specs(items)) + multiset(Others(items))
  {
    if items != [] {
      PartsOfModule(items[..|items| - 1]);
      LastApart(items);
    }
  }

  lemma {:induction false} ScatterOthers(items: seq<Item>, specs: seq<Item>)
    requires |specs| == |Specs(items)| && forall x :: x in specs ==> x.Specification?
    ensures Others(Scatter(items, specs)) == Others(items)
  {
    hide SpecIndices;
    if items != [] {
      var n, k, r := |items| - 1, |specs| - 1, Scatter(items, specs);
      if items[n].Specification? {
        ScatterOthers(items[..n], specs[..k]);
        assert specs[k] in specs;
        assert r[..n] == Scatter(items[..n], specs[..k]);
      } else {
        ScatterOthers(items[..n], specs);
        assert r[..n] == Scatter(items[..n], specs);
      }
    }
  }

  /** Two specifications in order by their own fields: by stack, within a stack by carrier; behind one without a
      location there is none with a location but the largest. */
  ghost predicate InOrder(x: Item, y: Item) {
    x.Specification? && y.Specification? ==>
      && (x.location.Some? && y.location.Some? ==>
            var a, b := x.location.value, y.location.value;
            a.stack < b.stack || (a.stack == b.stack && a.carrier <= b.carrier))
      && (x.location.None? && y.location.Some? ==>
            y.location.value.stack == 0xFFFF_FFFF && y.location.value.carrier == 0xFFFF_FFFF)
  }

  /** Main result: the sorted module is a permutation of the module; what is no specification stays in its
      position; the specifications come in order of (stack, carrier), unknown locations last; and
      specifications with one location keep the order they had. */
  lemma SortedModuleProperties(items: seq<Item>)
    ensures multiset(SortedModule(items)) == multiset(items)
    ensures forall i :: 0 <= i < |items| && !items[i].Specification? ==> SortedModule(items)[i] == items[i]
    ensures forall i, j :: 0 <= i < j < |items| &&
                           SortedModule(items)[i].Specification? && SortedModule(items)[j].Specification?
              ==> !Before(LocationOf(SortedModule(items)[j]), LocationOf(SortedModule(items)[i]))
    ensures forall i, j :: 0 <= i < j < |items| ==> InOrder(SortedModule(items)[i], SortedModule(items)[j])
    ensures forall k :: WithKey(Specs(SortedModule(items)), Rank, k) == WithKey(Specs(items), Rank, k)
  {
    hide Specs, Sort, Scatter, Others, WithKey, Rank;
    var specs := Sort(Specs(items), Rank);
    var r := SortedModule(items);
    SpecsAreSpecs(items);
    SortSorts(Specs(items), Rank);
    ScatterSpecs(items, specs);
    ScatterOthers(items, specs);
    PartsOfModule(items);
    PartsOfModule(r);
    forall i | 0 <= i < |items| && !items[i].Specification? ensures r[i] == items[i] {
      ScatterKeeps(items, specs, i);
    }
    forall k ensures WithKey(Specs(r), Rank, k) == WithKey(Specs(items), Rank, k) {
      SortStable(Specs(items), Rank, k);
    }
    forall i, j | 0 <= i < j < |items| && r[i].Specification? && r[j].Specification?
      ensures !Before(LocationOf(r[j]), LocationOf(r[i]))
    {
      SpecsInOrder(r, i, j);
      RankIsOrder(r[j], r[i]);
    }
    forall i, j | 0 <= i < j < |items| ensures InOrder(r[i], r[j]) {
    }
  }

  lemma SpecsInOrder(r: seq<Item>, i: nat, j: nat)
    requires i < j < |r| && r[i].Specification? && r[j].Specification? && Sorted(Specs(r), Rank)
    ensures Rank(r[i]) <= Rank(r[j])
  {
    hide Rank, Specs, SpecIndices;
    var a := IndexOf(r, i);
    var b := IndexOf(r, j);
    if b < a {
      IndicesIncrease(r, b, a);
    }
    SpecsAt(r, a);
    SpecsAt(r, b);
  }

  // ---------------------------------------------------------------- the method

  /** What an index points at. */
  function ItemAt(items: seq<Item>): int -> Item {
    i => if 0 <= i < |items| then items[i] else Other(0)
  }

  function IndexRank(items: seq<Item>): int -> int {
    i => Rank(ItemAt(items)(i))
  }

  /** `sort_module_by_location`: indices of the specifications, sorted by location, copied out and written
      back to the same positions. */
  method SortModuleByLocation(items: array<Item>)
    modifies items
    ensures items[..] == SortedModule(old(items[..]))
  {
    hide Rank, Specs, SpecIndices, Scatter, Sort, Mapped;
    var was := items[..];
    var specIndices := CollectSpecs(items);
    if |specIndices| <= 1 {
      FewSpecs(was);
      return;
    }
    var order := Sort(specIndices, IndexRank(was));
    var sortedSpecs := [];
    assert Mapped(order[..0], ItemAt(was)) == [];
    for k := 0 to |order|
      invariant items[..] == was && sortedSpecs == Mapped(order[..k], ItemAt(was))
    {
      OrderWithin(was, order, k);
      MappedEnd(order[..k], order[k], ItemAt(was));
      assert order[..k + 1] == order[..k] + [order[k]];
      sortedSpecs := sortedSpecs + [items[order[k]]];
    }
    assert order[..|order|] == order;
    PickedIsSpecs(was);
    SortMapped(specIndices, ItemAt(was), IndexRank(was), Rank);
    var slots := Sort(order, Itself);
    SlotsAreIndices(was, order);
    WriteBack(items, slots, sortedSpecs);
  }

  lemma OrderWithin(items: seq<Item>, order: seq<int>, k: nat)
    requires order == Sort(SpecIndices(items), IndexRank(items)) && k < |order|
    ensures 0 <= order[k] < |items|
  {
    hide SpecIndices, IndexRank;
    var idx := SpecIndices(items);
    assert order[k] in idx;
    var j :| 0 <= j < |idx| && idx[j] == order[k];
    IndexAt(items, j);
  }

  method CollectSpecs(items: array<Item>) returns (indices: seq<int>)
    ensures indices == SpecIndices(items[..])
  {
    indices := [];
    for i := 0 to items.Length
      invariant indices == SpecIndices(items[..i])
    {
      assert items[..i + 1][..i] == items[..i];
      if items[i].Specification? {
        indices := indices + [i];
      }
    }
    assert items[..items.Length] == items[..];
  }

  lemma {:induction false} PickedIsSpecs(items: seq<Item>)
    ensures Mapped(SpecIndices(items), ItemAt(items)) == Specs(items)
  {
    if items != [] {
      var n := |items| - 1;
      var idx := SpecIndices(items[..n]);
      PickedIsSpecs(items[..n]);
      forall x | x in idx ensures ItemAt(items[..n])(x) == ItemAt(items)(x) {
        var j :| 0 <= j < |idx| && idx[j] == x;
        IndexAt(items[..n], j);
      }
      MappedAgrees(idx, ItemAt(items[..n]), ItemAt(items));
      if items[n].Specification? {
        MappedEnd(idx, n, ItemAt(items));
      } else {
        assert SpecIndices(items) == idx;
      }
    }
  }

  lemma {:induction false} SortOfFew<T>(s: seq<T>, key: T -> int)
    requires |s| <= 1
    ensures Sort(s, key) == s
  {
    if s != [] {
      assert s[..0] == [];
      assert Sort(s[..0], key) == [];
    }
  }

  lemma FewSpecs(items: seq<Item>)
    requires |SpecIndices(items)| <= 1
    ensures SortedModule(items) == items
  {
    hide Scatter, Specs, SpecIndices, Sort, Rank;
    var specs := Specs(items);
    SortOfFew(specs, Rank);
    forall k | 0 <= k < |specs|
      ensures 0 <= SpecIndices(items)[k] < |items| && items[SpecIndices(items)[k]] == specs[k]
    {
      SpecsAt(items, k);
    }
    Scattered(items, specs, items);
  }

  lemma SlotsAreIndices(items: seq<Item>, order: seq<int>)
    requires order == Sort(SpecIndices(items), IndexRank(items))
    ensures Sort(order, Itself) == SpecIndices(items)
  {
    hide SpecIndices, IndexRank, Sort;
    SortSorts(SpecIndices(items), IndexRank(items));
    SortSorts(order, Itself);
    IndicesSorted(items);
    SortedUnique(Sort(order, Itself), SpecIndices(items), Itself);
  }

  lemma IndicesSorted(items: seq<Item>)
    ensures StrictlySorted(SpecIndices(items), Itself)
  {
    hide SpecIndices;
    var idx := SpecIndices(items);
    forall i, j | 0 <= i < j < |idx| ensures Itself(idx[i]) < Itself(idx[j]) {
      IndicesIncrease(items, i, j);
    }
  }

  method WriteBack(items: array<Item>, slots: seq<int>, specs: seq<Item>)
    requires slots == SpecIndices(items[..]) && |specs| == |slots|
    modifies items
    ensures items[..] == Scatter(old(items[..]), specs)
  {
    hide Scatter, Specs, SpecIndices;
    ghost var was := items[..];
    for j := 0 to |slots|
      invariant forall k :: 0 <= k < j ==> 0 <= slots[k] < items.Length && items[slots[k]] == specs[k]
      invariant forall i :: 0 <= i < items.Length && !was[i].Specification? ==> items[i] == was[i]
    {
      IndexAt(was, j);
      forall k | 0 <= k < j ensures slots[k] != slots[j] {
        IndicesIncrease(was, k, j);
      }
      items[slots[j]] := specs[j];
    }
    Scattered(was, specs, items[..]);
  }

  lemma Scattered(items: seq<Item>, specs: seq<Item>, r: seq<Item>)
    requires |specs| == |SpecIndices(items)| == |Specs(items)| && |r| == |items|
    requires forall k :: 0 <= k < |specs| ==>
               0 <= SpecIndices(items)[k] < |r| && r[SpecIndices(items)[k]] == specs[k]
    requires forall i :: 0 <= i < |items| && !items[i].Specification? ==> r[i] == items[i]
    ensures r == Scatter(items, specs)
  {
    hide Scatter, Specs, SpecIndices;
    forall i | 0 <= i < |items| ensures r[i] == Scatter(items, specs)[i] {
      if items[i].Specification? {
        var j := IndexOf(items, i);
        ScatterPuts(items, specs, j);
      } else {
        ScatterKeeps(items, specs, i);
      }
    }
  }
}
