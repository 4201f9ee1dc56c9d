/**
 Routing of configuration items to backends (proxy/proxy_message_handlers.cpp, `handle_config`;
 proxy/proxy_backend_handler.cpp, the path table, `find_backend_for_path` and `broadcast_to_backends`).
 Backends are numbered in the order they were added.
 */
module ProxyRouting {
  import opened Common

  datatype Item = Item(path: string, data: nat)

  // ---------------------------------------------------------------- paths

  /** `std::string::find`; the length stands for "not found". */
  function FindSlash(path: string, start: nat): (at: nat)
    requires start <= |path|
    ensures start <= at <= |path| && (at < |path| ==> path[at] == '/')
    ensures forall i :: start <= i < at ==> path[i] != '/'
    decreases |path| - start
  {
    if start == |path| || path[start] == '/' then start else FindSlash(path, start + 1)
  }

  /** The carrier address a path starts with, after one optional slash. */
  function FirstSegment(path: string): string
    requires path != ""
  {
    var start := if path[0] == '/' then 1 else 0;
    path[start..FindSlash(path, start)]
  }

  /** Independent reading: the address is what stands before the first further slash; it may be empty only
      after a leading slash. */
  lemma SegmentOfPath(mac: string, rest: string)
    requires '/' !in mac && (rest == "" || rest[0] == '/')
    ensures FirstSegment("/" + mac + rest) == mac
    ensures mac != "" ==> FirstSegment(mac + rest) == mac
  {
    var b := "/" + mac + rest;
    var j := FindSlash(b, 1);
    assert b[0] == '/' && (rest != "" ==> b[|mac| + 1] == '/');
    assert forall k :: 1 <= k < |mac| + 1 ==> b[k] == mac[k - 1] && mac[k - 1] in mac;
    assert j == |mac| + 1 && b[1..j] == mac;
    if mac != "" {
      var a := mac + rest;
      var i := FindSlash(a, 0);
      assert a[0] == mac[0] && mac[0] in mac && (rest != "" ==> a[|mac|] == '/');
      assert forall k :: 0 <= k < |mac| ==> a[k] == mac[k] && mac[k] in mac;
      assert i == |mac| && a[0..i] == mac;
    }
  }

  // ---------------------------------------------------------------- the path table

  /** The backend that owns a carrier address: the last one that announced it. */
  function OwnerOf(backends: seq<seq<string>>, mac: string): (r: Option<nat>)
    ensures r.Some? ==> r.value < |backends| && mac in backends[r.value]
    ensures r.Some? ==> forall b :: r.value < b < |backends| ==> mac !in backends[b]
    ensures r.None? ==> forall b :: 0 <= b < |backends| ==> mac !in backends[b]
  {
    if backends == [] then None
    else if mac in backends[|backends| - 1] then Some(|backends| - 1)
    else OwnerOf(backends[..|backends| - 1], mac)
  }

  ghost predicate IsTable(table: map<string, nat>, backends: seq<seq<string>>) {
    forall mac :: OwnerOf(backends, mac) == if mac in table then Some(table[mac]) else None
  }

  /** The loop over backends and their carrier paths in `start`. */
  method BuildTable(backends: seq<seq<string>>) returns (table: map<string, nat>)
    ensures IsTable(table, backends)
  {
    table := map[];
    for b := 0 to |backends|
      invariant IsTable(table, backends[..b])
    {
      ghost var before := table;
      for k := 0 to |backends[b]|
        invariant forall mac :: mac in table <==> mac in before || mac in backends[b][..k]
        invariant forall mac :: mac in table ==> table[mac] == if mac in backends[b][..k] then b else before[mac]
      {
        table := table[backends[b][k] := b];
      }
      assert backends[b][..|backends[b]|] == backends[b];
      assert backends[..b + 1][..b] == backends[..b];
    }
    assert backends[..|backends|] == backends;
  }

  // ---------------------------------------------------------------- configuration

  function BackendFor(backends: seq<seq<string>>, path: string): Option<nat> {
    if path == "" then None else OwnerOf(backends, FirstSegment(path))
  }

  /** Items without a path go to every backend, the others to the owner of their path. */
  predicate Concerns(backends: seq<seq<string>>, item: Item, b: nat) {
    item.path == "" || BackendFor(backends, item.path) == Some(b)
  }

  /** The part of a module that concerns one backend, in order. */
  function PartFor(backends: seq<seq<string>>, items: seq<Item>, b: nat): seq<Item> {
    if items == [] then []
    else
      var last := items[|items| - 1];
      PartFor(backends, items[..|items| - 1], b) + if Concerns(backends, last, b) then [last] else []
  }

  function Unroutable(backends: seq<seq<string>>, items: seq<Item>): seq<string> {
    if items == [] then []
    else
      var last := items[|items| - 1];
      Unroutable(backends, items[..|items| - 1]) +
      if last.path != "" && BackendFor(backends, last.path).None? then [last.path] else []
  }

  function Part(per: map<nat, seq<Item>>, b: nat): seq<Item> {
    if b in per then per[b] else []
  }

  /** `per_backend`: a module for exactly the backends that get something. */
  ghost predicate IsSplit(per: map<nat, seq<Item>>, backends: seq<seq<string>>, items: seq<Item>) {
    && (forall b :: b in per ==> b < |backends| && per[b] != [])
    && forall b: nat :: b < |backends| ==> Part(per, b) == PartFor(backends, items, b)
  }

  datatype Reply = Rejected(paths: seq<string>) | Failed | Accepted

  /** The routing loop of `handle_config`. */
  method SplitModule(backends: seq<seq<string>>, table: map<string, nat>, items: seq<Item>)
    returns (per: map<nat, seq<Item>>, unroutable: seq<string>)
    requires IsTable(table, backends)
    ensures IsSplit(per, backends, items) && unroutable == Unroutable(backends, items)
  {
    hide FirstSegment, OwnerOf, IsSplit, Unroutable, Part;
    per, unroutable := map[], [];
    SplitNothing(backends);
    assert items[..0] == [];
    for i := 0 to |items|
      invariant IsSplit(per, backends, items[..i]) && unroutable == Unroutable(backends, items[..i])
    {
      var item := items[i];
      assert items[..i + 1][..i] == items[..i] && items[..i + 1][i] == item;
      UnroutableEnd(backends, items[..i + 1]);
      if item.path == "" {
        per := Broadcast(backends, items[..i + 1], per, |backends|, item);
      } else {
        var mac := FirstSegment(item.path);
        assert OwnerOf(backends, mac) == if mac in table then Some(table[mac]) else None;
        if mac !in table {
          SplitUnowned(backends, items[..i + 1], per);
          unroutable := unroutable + [item.path];
        } else {
          SplitOwned(backends, items[..i + 1], per, table[mac]);
          per := per[table[mac] := Part(per, table[mac]) + [item]];
        }
      }
    }
    assert items[..|items|] == items;
  }

  lemma SplitNothing(backends: seq<seq<string>>)
    ensures IsSplit(map[], backends, []) && Unroutable(backends, []) == []
  {
  }

  lemma UnroutableEnd(backends: seq<seq<string>>, items: seq<Item>)
    requires items != []
    ensures var n := |items| - 1;
            Unroutable(backends, items)
            == if items[n].path != "" && BackendFor(backends, items[n].path).None?
               then Unroutable(backends, items[..n]) + [items[n].path] else Unroutable(backends, items[..n])
  {
    hide BackendFor;
  }

  /** An item with an owner goes to that backend, */
  lemma SplitOwned(backends: seq<seq<string>>, items: seq<Item>, per: map<nat, seq<Item>>, owner: nat)
    requires items != [] && IsSplit(per, backends, items[..|items| - 1]) && items[|items| - 1].path != ""
    requires BackendFor(backends, items[|items| - 1].path) == Some(owner)
    ensures IsSplit(per[owner := Part(per, owner) + [items[|items| - 1]]], backends, items)
  {
    hide OwnerOf, FirstSegment, PartFor;
    BackendInRange(backends, items[|items| - 1].path);
    SplitAdds(backends, items, per, per[owner := Part(per, owner) + [items[|items| - 1]]]);
  }

  /** one without an owner to none, */
  lemma SplitUnowned(backends: seq<seq<string>>, items: seq<Item>, per: map<nat, seq<Item>>)
    requires items != [] && IsSplit(per, backends, items[..|items| - 1]) && items[|items| - 1].path != ""
    requires BackendFor(backends, items[|items| - 1].path) == None
    ensures IsSplit(per, backends, items)
  {
    hide BackendFor, PartFor;
    SplitAdds(backends, items, per, per);
  }

  lemma SplitAdds(backends: seq<seq<string>>, items: seq<Item>, per: map<nat, seq<Item>>, r: map<nat, seq<Item>>)
    requires items != [] && IsSplit(per, backends, items[..|items| - 1])
    requires forall b :: b in r ==> b < |backends| && r[b] != []
    requires forall b: nat :: b < |backends| ==>
               Part(r, b)
               == Part(per, b) + if Concerns(backends, items[|items| - 1], b) then [items[|items| - 1]] else []
    ensures IsSplit(r, backends, items)
  {
    hide Concerns, Part;
  }

  /** and a global one is added to every backend's module. */
  method Broadcast(ghost backends: seq<seq<string>>, ghost items: seq<Item>, per: map<nat, seq<Item>>, count: nat,
                   item: Item)
    returns (r: map<nat, seq<Item>>)
    requires items != [] && item == items[|items| - 1] && item.path == "" && count == |backends|
    requires IsSplit(per, backends, items[..|items| - 1])
    ensures IsSplit(r, backends, items)
  {
    hide PartFor, BackendFor;
    r := per;
    for k := 0 to count
      invariant forall b :: b in r ==> b < count && r[b] != []
      invariant forall b: nat :: b < count ==> Part(r, b) == if b < k then Part(per, b) + [item] else Part(per, b)
    {
      r := r[k := Part(r, k) + [item]];
    }
    SplitAdds(backends, items, per, r);
  }

  /** `handle_config`: nothing is sent unless every path has a backend; then each connected backend that the
      module concerns is sent its part.  `refuse` are the backends that would answer with an error. */
  method HandleConfig(backends: seq<seq<string>>, table: map<string, nat>, items: seq<Item>,
                      connected: set<nat>, refuse: set<nat>)
    returns (sent: map<nat, seq<Item>>, reply: Reply)
    requires IsTable(table, backends)
    ensures reply.Rejected? <==> Unroutable(backends, items) != []
    ensures reply.Rejected? ==> reply.paths == Unroutable(backends, items) && sent == map[]
    ensures !reply.Rejected? ==> IsSent(sent, backends, items, connected)
    ensures !reply.Rejected? ==>
              (reply.Accepted? <==> forall b: nat :: b < |backends| && PartFor(backends, items, b) != []
                                      ==> b in connected && b !in refuse)
  {
    hide PartFor, Unroutable, IsTable;
    var per, unroutable := SplitModule(backends, table, items);
    sent := map[];
    if unroutable != [] {
      return sent, Rejected(unroutable);
    }
    var failed := false;
    var left := per.Keys;
    while left != {}
      invariant left <= per.Keys
      invariant forall b :: b in sent <==> b in per && b !in left && b in connected
      invariant forall b :: b in sent ==> sent[b] == per[b]
      invariant !failed <==> forall b :: b in per && b !in left ==> b in connected && b !in refuse
      decreases left
    {
      var b :| b in left;
      left := left - {b};
      if b !in connected {
        failed := true;
      } else {
        sent := sent[b := per[b]];
        if b in refuse {
          failed := true;
        }
      }
    }
    assert forall b: nat :: b < |backends| ==> Part(per, b) == PartFor(backends, items, b);
    reply := if failed then Failed else Accepted;
  }

  ghost predicate IsSent(sent: map<nat, seq<Item>>, backends: seq<seq<string>>, items: seq<Item>,
                         connected: set<nat>)
  {
    && (forall b :: b in sent ==> b < |backends|)
    && forall b: nat :: b < |backends| ==>
         (b in sent <==> b in connected && PartFor(backends, items, b) != []) &&
         (b in sent ==> sent[b] == PartFor(backends, items, b))
  }

  // ---------------------------------------------------------------- conservation

  /** Which positions of a module concern a backend. */
  function Positions(backends: seq<seq<string>>, items: seq<Item>, b: nat): seq<nat> {
    if items == [] then []
    else
      var n := |items| - 1;
      Positions(backends, items[..n], b) + if Concerns(backends, items[n], b) then [n] else []
  }

  /** A backend's part is the items at its positions, */
  lemma {:induction false} PositionAt(backends: seq<seq<string>>, items: seq<Item>, b: nat, k: nat)
    requires k < |Positions(backends, items, b)|
    ensures |Positions(backends, items, b)| == |PartFor(backends, items, b)|
    ensures var i := Positions(backends, items, b)[k]; i < |items| && items[i] == PartFor(backends, items, b)[k]
  {
    hide Concerns;
    var n := |items| - 1;
    PositionCount(backends, items[..n], b);
    if k < |Positions(backends, items[..n], b)| {
      PositionAt(backends, items[..n], b, k);
    }
  }

  lemma {:induction false} PositionCount(backends: seq<seq<string>>, items: seq<Item>, b: nat)
    ensures |Positions(backends, items, b)| == |PartFor(backends, items, b)|
  {
    hide Concerns;
    if items != [] {
      PositionCount(backends, items[..|items| - 1], b);
    }
  }

  /** in the order of the module, */
  lemma {:induction false} PositionsIncrease(backends: seq<seq<string>>, items: seq<Item>, b: nat, j: nat, k: nat)
    requires j < k < |Positions(backends, items, b)|
    ensures Positions(backends, items, b)[j] < Positions(backends, items, b)[k]
  {
    hide Concerns;
    var n := |items| - 1;
    PositionAt(backends, items[..n], b, j);
    if k < |Positions(backends, items[..n], b)| {
      PositionsIncrease(backends, items[..n], b, j, k);
    }
  }

  /** and they are exactly the items that concern it. */
  lemma {:induction false} PositionOf(backends: seq<seq<string>>, items: seq<Item>, b: nat, i: nat)
    requires i < |items|
    ensures i in Positions(backends, items, b) <==> Concerns(backends, items[i], b)
  {
    hide Concerns;
    var n := |items| - 1;
    if i < n {
      PositionOf(backends, items[..n], b, i);
    } else {
      PositionsBelow(backends, items[..n], b);
    }
  }

  lemma PositionsBelow(backends: seq<seq<string>>, items: seq<Item>, b: nat)
    ensures forall i :: i in Positions(backends, items, b) ==> i < |items|
  {
    hide Positions, PartFor;
    forall i | i in Positions(backends, items, b) ensures i < |items| {
      var k :| 0 <= k < |Positions(backends, items, b)| && Positions(backends, items, b)[k] == i;
      PositionAt(backends, items, b, k);
    }
  }

  /** Main result in terms of announcements: an item whose path names address `mac`, with or without a leading
      slash and whatever follows, concerns exactly the last backend that announced `mac`. */
  lemma PathReachesOwner(backends: seq<seq<string>>, mac: string, rest: string, data: nat, b: nat)
    requires '/' !in mac && (rest == "" || rest[0] == '/')
    ensures Concerns(backends, Item("/" + mac + rest, data), b) <==>
            b < |backends| && mac in backends[b] && forall c :: b < c < |backends| ==> mac !in backends[c]
    ensures mac != "" ==>
              (Concerns(backends, Item(mac + rest, data), b) <==> Concerns(backends, Item("/" + mac + rest, data), b))
  {
    hide FirstSegment;
    SegmentOfPath(mac, rest);
    LastAnnouncer(backends, mac, b);
  }

  lemma {:induction false} LastAnnouncer(backends: seq<seq<string>>, mac: string, b: nat)
    ensures OwnerOf(backends, mac) == Some(b) <==>
            b < |backends| && mac in backends[b] && forall c :: b < c < |backends| ==> mac !in backends[c]
  {
    hide *;
    var r := OwnerOf(backends, mac);
    if r.Some? && b < |backends| && mac in backends[b] && (forall c :: b < c < |backends| ==> mac !in backends[c]) {
      assert b <= r.value;
    }
  }

  /** Modules are split item by item: the parts of two modules in a row are those of each, */
  lemma {:induction false} PartConcat(backends: seq<seq<string>>, x: seq<Item>, y: seq<Item>, b: nat)
    ensures PartFor(backends, x + y, b) == PartFor(backends, x, b) + PartFor(backends, y, b)
  {
    hide PartFor, Concerns;
    PartEnd(backends, y, b);
    if y == [] {
      assert x + y == x;
    } else {
      var n := |y| - 1;
      PartConcat(backends, x, y[..n], b);
      PartEnd(backends, x + y, b);
      assert (x + y)[..|x + y| - 1] == x + y[..n] && (x + y)[|x + y| - 1] == y[n];
    }
  }

  lemma PartEnd(backends: seq<seq<string>>, items: seq<Item>, b: nat)
    ensures items == [] ==> PartFor(backends, items, b) == []
    ensures items != [] ==>
              var n := |items| - 1;
              PartFor(backends, items, b)
              == if Concerns(backends, items[n], b) then PartFor(backends, items[..n], b) + [items[n]]
                 else PartFor(backends, items[..n], b)
  {
    hide Concerns;
  }

  /** and so are their unroutable paths. */
  lemma {:induction false} UnroutableConcat(backends: seq<seq<string>>, x: seq<Item>, y: seq<Item>)
    ensures Unroutable(backends, x + y) == Unroutable(backends, x) + Unroutable(backends, y)
  {
    hide Unroutable, BackendFor, IsSplit;
    SplitNothing(backends);
    if y == [] {
      assert x + y == x;
    } else {
      var n := |y| - 1;
      UnroutableConcat(backends, x, y[..n]);
      UnroutableEnd(backends, x + y);
      UnroutableEnd(backends, y);
      assert (x + y)[..|x + y| - 1] == x + y[..n] && (x + y)[|x + y| - 1] == y[n];
    }
  }

  /** And for one item: it is in the part of whom it concerns, and listed if it has a path without an owner. */
  lemma SplitOne(backends: seq<seq<string>>, item: Item, b: nat)
    ensures PartFor(backends, [item], b) == if Concerns(backends, item, b) then [item] else []
    ensures Unroutable(backends, [item])
         == if item.path != "" && forall c :: 0 <= c < |backends| ==> FirstSegment(item.path) !in backends[c]
            then [item.path] else []
  {
    hide FirstSegment, Concerns;
    assert [item][..0] == [];
  }

  /** Conservation: unless the module is rejected, every item without a path concerns all backends and every
      other item exactly one, so together the parts hold every item, each part in the original order. */
  lemma EveryItemRouted(backends: seq<seq<string>>, items: seq<Item>, i: nat)
    requires Unroutable(backends, items) == [] && i < |items|
    ensures items[i].path == "" ==> forall b: nat :: b < |backends| ==> i in Positions(backends, items, b)
    ensures items[i].path != "" ==>
              exists b: nat :: b < |backends| && i in Positions(backends, items, b) &&
                               forall c: nat :: c < |backends| && i in Positions(backends, items, c) ==> c == b
  {
    hide Positions, BackendFor, OwnerOf;
    forall b: nat ensures i in Positions(backends, items, b) <==> Concerns(backends, items[i], b) {
      PositionOf(backends, items, b, i);
    }
    if items[i].path != "" {
      Routable(backends, items, i);
      var b := BackendFor(backends, items[i].path).value;
      BackendInRange(backends, items[i].path);
      assert i in Positions(backends, items, b);
    }
  }

  lemma BackendInRange(backends: seq<seq<string>>, path: string)
    requires BackendFor(backends, path).Some?
    ensures BackendFor(backends, path).value < |backends|
  {
  }

  lemma {:induction false} Routable(backends: seq<seq<string>>, items: seq<Item>, i: nat)
    requires Unroutable(backends, items) == [] && i < |items| && items[i].path != ""
    ensures BackendFor(backends, items[i].path).Some?
  {
    var n := |items| - 1;
    if i < n {
      Routable(backends, items[..n], i);
    }
  }

  /** One item whose path nobody owns rejects the whole module. */
  lemma {:induction false} UnroutableRejects(backends: seq<seq<string>>, items: seq<Item>, i: nat)
    requires i < |items| && items[i].path != "" && BackendFor(backends, items[i].path).None?
    ensures items[i].path in Unroutable(backends, items)
  {
    var n := |items| - 1;
    if i < n {
      UnroutableRejects(backends, items[..n], i);
    }
  }

  /** A routable module is sent whole exactly if every backend it concerns is connected: a lost connection
      leaves the others configured. */
  lemma SentWhole(backends: seq<seq<string>>, items: seq<Item>, connected: set<nat>, sent: map<nat, seq<Item>>)
    requires IsSent(sent, backends, items, connected)
    ensures (forall b: nat :: b < |backends| ==> Part(sent, b) == PartFor(backends, items, b))
        <==> forall b: nat :: b < |backends| && PartFor(backends, items, b) != [] ==> b in connected
  {
    hide PartFor;
    if b: nat :| b < |backends| && PartFor(backends, items, b) != [] && b !in connected {
      assert Part(sent, b) != PartFor(backends, items, b);
    }
  }

  lemma PartOfTwo(backends: seq<seq<string>>, x: Item, y: Item, b: nat)
    ensures PartFor(backends, [x, y], b)
         == (if Concerns(backends, x, b) then [x] else []) + if Concerns(backends, y, b) then [y] else []
  {
    hide Concerns;
    assert [x, y][..1] == [x] && [x][..0] == [];
    assert PartFor(backends, [x], b) == if Concerns(backends, x, b) then [x] else [];
  }

  lemma TwoOwners()
    ensures BackendFor([["a"], ["b"]], "a") == Some(0) && BackendFor([["a"], ["b"]], "b") == Some(1)
  {
    hide FirstSegment;
    SegmentOfPath("a", "");
    SegmentOfPath("b", "");
    assert "a" + "" == "a" && "b" + "" == "b";
    assert "a" in ["a"] && "b" in ["b"] && "a" !in ["b"];
  }

  /** Two backends of which one is connected: the module is routable, yet only the first backend is sent its
      part, and the module is not sent whole. */
  lemma PartialConfiguration(sent: map<nat, seq<Item>>)
    requires IsSent(sent, [["a"], ["b"]], [Item("a", 1), Item("b", 2)], {0})
    ensures Unroutable([["a"], ["b"]], [Item("a", 1), Item("b", 2)]) == []
    ensures sent == map[0 := [Item("a", 1)]]
    ensures Part(sent, 1) != PartFor([["a"], ["b"]], [Item("a", 1), Item("b", 2)], 1)
  {
    hide BackendFor, PartFor;
    TwoOwners();
    var backends, x, y := [["a"], ["b"]], Item("a", 1), Item("b", 2);
    PartOfTwo(backends, x, y, 0);
    PartOfTwo(backends, x, y, 1);
    assert [x, y][..1] == [x] && [x][..0] == [];
    assert Unroutable(backends, [x]) == [];
    assert PartFor(backends, [x, y], 0) == [x] && PartFor(backends, [x, y], 1) == [y];
    assert 0 in sent && 1 !in sent;
  }
}
