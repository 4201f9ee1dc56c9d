/**
 What every route keeps, and why tracing stops on every reachable configuration: the two unbounded loops of
 `find_coef` end whatever was routed over registered blocks, and need no cycle check as long as the routes
 name real clusters.
 */
module RoutingReachability {
  import opened Common
  import opened Routing
  import opened RoutingTheorems

  // ---------------------------------------------------------------- the invariant

  /** What a backplane cell may hold: a sector other than the one it feeds when it leads to another stack; a
      neighbour stack that carries on; a carrier, and where routes name real clusters (`driven`) one whose
      T-block drives the backplane. */
  ghost predicate GoodCell(c: Config, id: BackplaneId, sector: int, lane: int, driven: bool)
    requires BCell(sector, lane)
  {
    match BSource(c, id, sector, lane)
    case None => true
    case Some(v) =>
      && 0 <= v < 9 && 0 <= id.1 < 3 && v != (if sector == UP then UP else if sector == DOWN then DOWN else 9)
      && (driven && v < 7 ==> DrivesBackplane(c, (id.0, v), id.1 * 8 + lane))
      && (v == DOWN ==> BSource(c, (id.0 - 1, id.1), UP, lane).Some?)
      && (v == UP ==> BSource(c, (id.0 + 1, id.1), DOWN, lane).Some?)
  }

  /** The T-block of carrier `id` puts one of its clusters on the backplane on this lane. */
  predicate DrivesBackplane(c: Config, id: CarrierId, lane: int) {
    0 <= lane < 24 && TSource(c, id, 0, lane).Some? && 1 <= TSource(c, id, 0, lane).value < 4
  }

  predicate GoodMux(c: Config, id: CarrierId, sector: int, lane: int)
    requires TCell(sector, lane)
  {
    TSource(c, id, sector, lane).Some? && 0 <= TSource(c, id, sector, lane).value < 4
  }

  ghost predicate Inv(c: Config, driven: bool) {
    && (forall id, sector, l {:trigger GoodMux(c, id, sector, l)} :: TCell(sector, l) ==> GoodMux(c, id, sector, l))
    && (forall id, sector, l {:trigger GoodCell(c, id, sector, l, driven)} ::
          BCell(sector, l) ==> GoodCell(c, id, sector, l, driven))
    && DummyUntouched(c)
  }

  ghost predicate DummyUntouched(c: Config) {
    forall sector, l {:trigger c.backplaneDummy[sector][l]} :: BCell(sector, l) ==> c.backplaneDummy[sector][l] == None
  }

  /** Blocks as constructed or reset. */
  ghost predicate Fresh(c: Config) {
    && (forall id, sector, l {:trigger TSource(c, id, sector, l)} :: TCell(sector, l) ==>
          TSource(c, id, sector, l) == Some(sector))
    && (forall id, sector, l {:trigger BSource(c, id, sector, l)} :: BCell(sector, l) ==>
          BSource(c, id, sector, l) == None)
    && DummyUntouched(c)
  }

  lemma FreshInv(c: Config)
    requires Fresh(c)
    ensures Inv(c, true) && Inv(c, false)
  {
  }

  // ---------------------------------------------------------------- every write keeps it

  predicate SameKeys(c: Config, c': Config) {
    c'.carriers.Keys == c.carriers.Keys && c'.backplanes.Keys == c.backplanes.Keys
  }

  lemma InvConnectT(driven: bool, c: Config, id: CarrierId, src: int, dst: int, lane: int)
    requires Inv(c, driven) && id in c.carriers && (driven ==> src > 0 || dst > 0)
    ensures Inv(ConnectT(c, id, src, dst, lane).config, driven) && SameKeys(c, ConnectT(c, id, src, dst, lane).config)
  {
    var c' := ConnectT(c, id, src, dst, lane).config;
    forall id', sector, l | TCell(sector, l) ensures GoodMux(c', id', sector, l) {
      assert GoodMux(c, id', sector, l);
    }
    forall id', sector, l | BCell(sector, l) ensures GoodCell(c', id', sector, l, driven) {
      assert GoodCell(c, id', sector, l, driven);
    }
  }

  lemma InvConnectB(driven: bool, c: Config, id: BackplaneId, src: int, dst: int, lane: int)
    requires Inv(c, driven) && id in c.backplanes && 0 <= id.1 < 3 && 0 <= lane < 8
    requires src >= 7 ==> src != dst
    requires driven && 0 <= src < 7 ==> DrivesBackplane(c, (id.0, src), id.1 * 8 + lane)
    requires src == DOWN ==> BSource(c, (id.0 - 1, id.1), UP, lane).Some?
    requires src == UP ==> BSource(c, (id.0 + 1, id.1), DOWN, lane).Some?
    ensures Inv(ConnectB(c, id, src, dst, lane).config, driven) && SameKeys(c, ConnectB(c, id, src, dst, lane).config)
  {
    var c' := ConnectB(c, id, src, dst, lane).config;
    if 0 <= src < 9 && 0 <= dst < 9 {
      hide ConnectB, BSource;
      ConnectBEffect(c, id, src, dst, lane);
      forall id', sector, l | TCell(sector, l) ensures GoodMux(c', id', sector, l) {
        assert GoodMux(c, id', sector, l);
      }
      forall id', sector, l | BCell(sector, l) ensures GoodCell(c', id', sector, l, driven) {
        assert GoodCell(c, id', sector, l, driven);
      }
    }
  }

  lemma {:induction false} InvBetween(driven: bool, c: Config, stack: int, end: int, dir: int, part: int, entry: int,
                                      exit: int, lane: int)
    requires Heads(stack, end, dir) && 0 <= part < 3 && 0 <= lane < 8
    requires exit == (if dir == 1 then UP else DOWN) && entry == (if dir == 1 then DOWN else UP)
    requires forall s :: stack <= s < end || end < s <= stack ==> (s, part) in c.backplanes
    requires Inv(c, driven) && BSource(c, (stack - dir, part), exit, lane).Some?
    ensures var o := Between(c, stack, end, dir, part, entry, exit, lane);
            Inv(o.config, driven) && SameKeys(c, o.config) && BSource(o.config, (end - dir, part), exit, lane).Some?
    decreases Distance(stack, end)
  {
    hide Inv;
    if stack != end {
      InvConnectB(driven, c, (stack, part), entry, exit, lane);
      ConnectBSets(c, (stack, part), entry, exit, lane);
      InvBetween(driven, ConnectB(c, (stack, part), entry, exit, lane).config, stack + dir, end, dir, part, entry, exit,
                 lane);
    }
  }

  lemma InvBackplane(driven: bool, c: Config, src: Loc, dst: Loc)
    requires Inv(c, driven) && Registered(c, src, dst) && CarrierOf(src) != CarrierOf(dst)
    requires 8 <= src.lane < 32 && src.lane == dst.lane && src.carrier < 7 && dst.carrier < 7
    requires driven ==> DrivesBackplane(c, CarrierOf(src), src.lane - 8)
    ensures Inv(RouteBackplane(c, src, dst).config, driven) && SameKeys(c, RouteBackplane(c, src, dst).config)
  {
    hide Inv;
    var part, lane := Partition(src.lane), dst.lane % 8;
    assert part * 8 + lane == src.lane - 8;
    if src.stack == dst.stack {
      InvConnectB(driven, c, (src.stack, part), src.carrier, dst.carrier, lane);
    } else {
      var dir := if src.stack < dst.stack then 1 else -1;
      var exit := if dir == 1 then UP else DOWN;
      var entry := if dir == 1 then DOWN else UP;
      InvConnectB(driven, c, (src.stack, part), src.carrier, exit, lane);
      var o1 := ConnectB(c, (src.stack, part), src.carrier, exit, lane);
      if o1.ok {
        InvCrossStack(driven, c, src, dst, part, lane, dir, entry, exit);
      }
    }
  }

  /** The part of a route that crosses stacks, from the first backplane on. */
  lemma InvCrossStack(driven: bool, c: Config, src: Loc, dst: Loc, part: int, lane: int, dir: int,
                      entry: int, exit: int)
    requires Inv(c, driven) && Registered(c, src, dst) && src.stack != dst.stack && 0 <= part < 3 && 0 <= lane < 8
    requires dst.carrier < 7 && 8 <= src.lane < 32 && part == Partition(src.lane)
    requires dir == (if src.stack < dst.stack then 1 else -1)
    requires exit == (if dir == 1 then UP else DOWN) && entry == (if dir == 1 then DOWN else UP)
    requires ConnectB(c, (src.stack, part), src.carrier, exit, lane).ok
    requires Inv(ConnectB(c, (src.stack, part), src.carrier, exit, lane).config, driven)
    ensures var o1 := ConnectB(c, (src.stack, part), src.carrier, exit, lane);
            var o2 := Between(o1.config, src.stack + dir, dst.stack, dir, part, entry, exit, lane);
            var r := if o2.ok then ConnectB(o2.config, (dst.stack, part), entry, dst.carrier, lane) else o2;
            Inv(r.config, driven) && SameKeys(c, r.config)
  {
    hide Inv, GoodCell, GoodMux, ConnectB, BSource, Between, Registered;
    var o1 := ConnectB(c, (src.stack, part), src.carrier, exit, lane);
    StacksRegistered(c, src, dst, dir);
    ConnectBSets(c, (src.stack, part), src.carrier, exit, lane);
    var o2 := Between(o1.config, src.stack + dir, dst.stack, dir, part, entry, exit, lane);
    InvBetween(driven, o1.config, src.stack + dir, dst.stack, dir, part, entry, exit, lane);
    InvConnectB(driven, o2.config, (dst.stack, part), entry, dst.carrier, lane);
  }

  lemma ConnectBSets(c: Config, id: BackplaneId, src: int, dst: int, lane: int)
    requires id in c.backplanes && ConnectB(c, id, src, dst, lane).ok
    ensures SameKeys(c, ConnectB(c, id, src, dst, lane).config) && BCell(dst, lane)
    ensures BSource(ConnectB(c, id, src, dst, lane).config, id, dst, lane) == Some(src)
  {
  }

  /** Every route over registered blocks keeps the invariant - the stronger one too if it names real clusters -
      whether it succeeds, is rejected, or raises after some of its writes. */
  lemma InvRoute(driven: bool, c: Config, src: Loc, dst: Loc)
    requires Inv(c, driven) && Registered(c, src, dst)
    requires driven ==> src.cluster >= 0 && dst.cluster >= 0
    ensures Inv(Route(c, src, dst).config, driven) && SameKeys(c, Route(c, src, dst).config)
  {
    if src.lane == dst.lane && 8 <= src.lane < 32 {
      if CarrierOf(src) == CarrierOf(dst) {
        InvConnectT(driven, c, CarrierOf(dst), src.cluster + 1, dst.cluster + 1, dst.lane - 8);
      } else if src.carrier < 7 && dst.carrier < 7 && src.cluster < 3 && dst.cluster < 3 {
        InvStack(driven, c, src, dst);
      }
    } else {
      assert Route(c, src, dst).config == c;
    }
  }

  lemma InvStack(driven: bool, c: Config, src: Loc, dst: Loc)
    requires Inv(c, driven) && Registered(c, src, dst) && CarrierOf(src) != CarrierOf(dst)
    requires 8 <= src.lane < 32 && src.lane == dst.lane && src.carrier < 7 && dst.carrier < 7
    requires src.cluster < 3 && dst.cluster < 3 && (driven ==> 0 <= src.cluster && 0 <= dst.cluster)
    ensures Inv(RouteStack(c, src, dst).config, driven) && SameKeys(c, RouteStack(c, src, dst).config)
  {
    hide Inv, ConnectT, RouteBackplane, Registered, TSource;
    var lane := src.lane - 8;
    RegisteredAfterEnds(c, src, dst, lane);
    var o1 := ConnectT(c, CarrierOf(src), src.cluster + 1, 0, lane);
    InvConnectT(driven, c, CarrierOf(src), src.cluster + 1, 0, lane);
    var o2 := ConnectT(o1.config, CarrierOf(dst), 0, dst.cluster + 1, lane);
    InvConnectT(driven, o1.config, CarrierOf(dst), 0, dst.cluster + 1, lane);
    if o1.ok && o2.ok {
      ConnectTOk(c, CarrierOf(src), src.cluster + 1, 0, lane);
      ConnectTOk(o1.config, CarrierOf(dst), 0, dst.cluster + 1, lane);
      TSourceAfterConnectT(c, CarrierOf(src), src.cluster + 1, 0, lane, CarrierOf(src), 0, lane);
      TSourceAfterConnectT(o1.config, CarrierOf(dst), 0, dst.cluster + 1, lane, CarrierOf(src), 0, lane);
      InvBackplane(driven, o2.config, src, dst);
    }
  }

  lemma ConnectTOk(c: Config, id: CarrierId, src: int, dst: int, lane: int)
    requires ConnectT(c, id, src, dst, lane).ok
    ensures 0 <= src < 4 && TCell(dst, lane)
  {
  }

  // ---------------------------------------------------------------- exactly which routes keep carriers driven

  /** Some backplane cell that the route does not overwrite listens to the destination's carrier. */
  ghost predicate Listening(c: Config, src: Loc, dst: Loc)
    requires 8 <= src.lane < 32
  {
    exists sector {:trigger BSource(c, (dst.stack, Partition(src.lane)), sector, src.lane % 8)} ::
      && BCell(sector, src.lane % 8)
      && BSource(c, (dst.stack, Partition(src.lane)), sector, src.lane % 8) == Some(dst.carrier)
      && WantedB(src, dst, (dst.stack, Partition(src.lane)), sector).None?
  }

  /** What the caller can look up: a carrier whose cluster -1 is named may not be listened to. */
  ghost predicate KeepsDriven(c: Config, src: Loc, dst: Loc)
    requires 8 <= src.lane < 32
  {
    if CarrierOf(src) == CarrierOf(dst) then src.cluster >= 0 || dst.cluster >= 0 || !Listening(c, src, dst)
    else src.cluster >= 0 && (dst.cluster >= 0 || !Listening(c, src, dst))
  }

  /** All backplane cells that name a carrier name one that drives the backplane. */
  ghost predicate AllDriven(c: Config) {
    forall id: BackplaneId, sector, l {:trigger BSource(c, id, sector, l)} ::
      BCell(sector, l) && BSource(c, id, sector, l).Some? && BSource(c, id, sector, l).value < 7 ==>
        DrivesBackplane(c, (id.0, BSource(c, id, sector, l).value), id.1 * 8 + l)
  }

  lemma InvIsDriven(c: Config)
    ensures Inv(c, true) <==> Inv(c, false) && AllDriven(c)
  {
    hide BSource, DrivesBackplane;
    if Inv(c, true) {
      forall id: BackplaneId, sector, l | BCell(sector, l) ensures GoodCell(c, id, sector, l, false) {
        assert GoodCell(c, id, sector, l, true);
      }
      forall id: BackplaneId, sector, l |
        BCell(sector, l) && BSource(c, id, sector, l).Some? && BSource(c, id, sector, l).value < 7
        ensures DrivesBackplane(c, (id.0, BSource(c, id, sector, l).value), id.1 * 8 + l)
      {
        assert GoodCell(c, id, sector, l, true);
      }
    }
    if Inv(c, false) && AllDriven(c) {
      forall id: BackplaneId, sector, l | BCell(sector, l) ensures GoodCell(c, id, sector, l, true) {
        assert GoodCell(c, id, sector, l, false);
      }
    }
  }

  /** The carrier cell a backplane cell depends on. */
  lemma DrivenCell(c: Config, c': Config, src: Loc, dst: Loc, id: BackplaneId, sector: int, l: int)
    requires Overwritten(c, c', src, dst) && 8 <= src.lane < 32 && src.carrier < 7 && dst.carrier < 7
    requires -1 <= src.cluster < 3 && -1 <= dst.cluster < 3
    requires AllDriven(c) && KeepsDriven(c, src, dst)
    requires BCell(sector, l) && 0 <= id.1 < 3
    requires BSource(c', id, sector, l).Some? && 0 <= BSource(c', id, sector, l).value < 7
    ensures DrivesBackplane(c', (id.0, BSource(c', id, sector, l).value), id.1 * 8 + l)
  {
    hide TSource, BSource;
    var v, lane := BSource(c', id, sector, l).value, id.1 * 8 + l;
    assert lane == src.lane - 8 <==> id.1 == Partition(src.lane) && l == src.lane % 8;
    if l == src.lane % 8 && WantedB(src, dst, id, sector).Some? {
      assert (id.0, v) == CarrierOf(src) && lane == src.lane - 8;
    } else {
      assert DrivesBackplane(c, (id.0, v), lane);
    }
    assert TSource(c', (id.0, v), 0, lane)
        == Or(if lane == src.lane - 8 then WantedT(src, dst, (id.0, v), 0) else None, TSource(c, (id.0, v), 0, lane));
  }

  /** The cell that shows it, where a route does not keep carriers driven. */
  lemma UndrivenCell(c: Config, c': Config, src: Loc, dst: Loc)
    requires Overwritten(c, c', src, dst) && 8 <= src.lane < 32
    requires -1 <= src.cluster < 3 && -1 <= dst.cluster < 3
    requires CarrierOf(src) != CarrierOf(dst) ==> 0 <= src.carrier < 7 && 0 <= dst.carrier < 7
    requires dst.carrier < 7 && !KeepsDriven(c, src, dst)
    ensures !AllDriven(c')
  {
    hide TSource, BSource;
    var part, l := Partition(src.lane), src.lane % 8;
    assert part * 8 + l == src.lane - 8;
    if CarrierOf(src) != CarrierOf(dst) && src.cluster < 0 {
      var sector := if src.stack == dst.stack then dst.carrier else if src.stack < dst.stack then UP else DOWN;
      assert BSource(c', (src.stack, part), sector, l) == Some(src.carrier);
      assert TSource(c', CarrierOf(src), 0, src.lane - 8) == Some(0);
    } else {
      var sector :| BCell(sector, l) && BSource(c, (dst.stack, part), sector, l) == Some(dst.carrier) &&
                    WantedB(src, dst, (dst.stack, part), sector).None?;
      assert BSource(c', (dst.stack, part), sector, l) == Some(dst.carrier);
      assert TSource(c', CarrierOf(dst), 0, src.lane - 8) == Some(0);
    }
  }

  /** Exactly the routes that keep the stronger invariant: a successful route leaves every carrier on the
      backplane driven if and only if it names real clusters, or the carrier whose cluster -1 it names is not
      listened to. */
  lemma RouteKeepsDriven(c: Config, src: Loc, dst: Loc)
    requires Inv(c, true) && Registered(c, src, dst) && Route(c, src, dst).ok && src.lane >= 8
    ensures src.lane < 32 && (Inv(Route(c, src, dst).config, true) <==> KeepsDriven(c, src, dst))
  {
    var c' := Route(c, src, dst).config;
    RouteEffect(c, src, dst);
    InvIsDriven(c);
    InvIsDriven(c');
    InvRoute(false, c, src, dst);
    assert src.carrier < 7 && dst.carrier < 7;
    hide Route, Registered, Overwritten, KeepsDriven;
    if KeepsDriven(c, src, dst) {
      forall id: BackplaneId, sector, l |
        BCell(sector, l) && BSource(c', id, sector, l).Some? && BSource(c', id, sector, l).value < 7
        ensures DrivesBackplane(c', (id.0, BSource(c', id, sector, l).value), id.1 * 8 + l)
      {
        assert GoodCell(c', id, sector, l, false);
        DrivenCell(c, c', src, dst, id, sector, l);
      }
    } else {
      UndrivenCell(c, c', src, dst);
    }
  }

  // ---------------------------------------------------------------- whole runs

  datatype Request = Request(src: Loc, dst: Loc)

  /** A history of routes; one that raises leaves its partial writes and the next one starts there. */
  function Run(c: Config, requests: seq<Request>): Config
    decreases |requests|
  {
    if requests == [] then c
    else Run(Route(c, requests[0].src, requests[0].dst).config, requests[1..])
  }

  ghost predicate Proper(driven: bool, c: Config, r: Request) {
    Registered(c, r.src, r.dst) && (driven ==> r.src.cluster >= 0 && r.dst.cluster >= 0)
  }

  lemma {:induction false} RunKeepsInv(driven: bool, c: Config, requests: seq<Request>)
    requires Inv(c, driven) && forall i :: 0 <= i < |requests| ==> Proper(driven, c, requests[i])
    ensures Inv(Run(c, requests), driven) && SameKeys(c, Run(c, requests))
    decreases |requests|
  {
    if requests != [] {
      var c' := Route(c, requests[0].src, requests[0].dst).config;
      InvRoute(driven, c, requests[0].src, requests[0].dst);
      forall i | 0 <= i < |requests[1..]| ensures Proper(driven, c', requests[1..][i]) {
        assert Proper(driven, c, requests[i + 1]);
      }
      RunKeepsInv(driven, c', requests[1..]);
    }
  }

  /** A route that keeps carriers driven: between real clusters, or as looked up before it. */
  ghost predicate Harmless(c: Config, r: Request) {
    && Registered(c, r.src, r.dst)
    && (8 <= r.src.lane < 32 && !(r.src.cluster >= 0 && r.dst.cluster >= 0) ==>
          Route(c, r.src, r.dst).ok && KeepsDriven(c, r.src, r.dst))
  }

  ghost predicate AllHarmless(c: Config, requests: seq<Request>)
    decreases |requests|
  {
    requests != [] ==>
      Harmless(c, requests[0]) && AllHarmless(Route(c, requests[0].src, requests[0].dst).config, requests[1..])
  }

  lemma {:induction false} RunKeepsDriven(c: Config, requests: seq<Request>)
    requires Inv(c, true) && AllHarmless(c, requests)
    ensures Inv(Run(c, requests), true) && SameKeys(c, Run(c, requests))
    decreases |requests|
  {
    hide Inv, Route, Registered, KeepsDriven;
    if requests != [] {
      var src, dst := requests[0].src, requests[0].dst;
      InvWeakens(c);
      InvRoute(false, c, src, dst);
      if !(8 <= src.lane < 32) {
        OffLaneRoute(c, src, dst);
      } else if src.cluster >= 0 && dst.cluster >= 0 {
        InvRoute(true, c, src, dst);
      } else {
        RouteKeepsDriven(c, src, dst);
      }
      RunKeepsDriven(Route(c, src, dst).config, requests[1..]);
    }
  }

  lemma {:induction false} RealIsHarmless(c: Config, requests: seq<Request>)
    requires Inv(c, true) && forall i :: 0 <= i < |requests| ==> Proper(true, c, requests[i])
    ensures AllHarmless(c, requests)
    decreases |requests|
  {
    hide Inv, Route, KeepsDriven;
    if requests != [] {
      var c' := Route(c, requests[0].src, requests[0].dst).config;
      assert Proper(true, c, requests[0]);
      InvRoute(true, c, requests[0].src, requests[0].dst);
      forall i | 0 <= i < |requests[1..]| ensures Proper(true, c', requests[1..][i]) {
        assert Proper(true, c, requests[i + 1]);
      }
      RealIsHarmless(c', requests[1..]);
    }
  }

  lemma InvWeakens(c: Config)
    requires Inv(c, true)
    ensures Inv(c, false)
  {
    InvIsDriven(c);
  }

  lemma OffLaneRoute(c: Config, src: Loc, dst: Loc)
    requires !(8 <= src.lane < 32)
    ensures Route(c, src, dst).config == c
  {
  }

  // ---------------------------------------------------------------- tracing stops

  /** All registered backplane blocks lie in stacks `lo` to `hi`. */
  ghost predicate StacksWithin(c: Config, lo: int, hi: int) {
    lo <= hi && forall id :: id in c.backplanes ==> lo <= id.0 <= hi
  }

  /** The walk has reached a carrier, where routes name real clusters one that drives the backplane. */
  ghost predicate ArrivedWell(driven: bool, c: Config, w: Walk, part: int, lane: int) {
    w.Arrived? && 0 <= w.carrier < 7 && (driven ==> DrivesBackplane(c, (w.stack, w.carrier), part * 8 + lane))
  }

  lemma CellRegistered(driven: bool, c: Config, id: BackplaneId, sector: int, lane: int)
    requires Inv(c, driven) && BCell(sector, lane) && BSource(c, id, sector, lane).Some?
    ensures id in c.backplanes && GoodCell(c, id, sector, lane, driven)
  {
    assert GoodCell(c, id, sector, lane, driven);
    assert c.backplaneDummy[sector][lane] == None;
  }

  /** A walk that enters sector UP only goes down; it cannot pass the lowest stack. */
  lemma {:induction false} WalkDown(driven: bool, c: Config, lo: int, hi: int, stack: int, part: int, lane: int,
                                    steps: nat)
    requires Inv(c, driven) && StacksWithin(c, lo, hi) && 0 <= lane < 8
    requires BSource(c, (stack, part), UP, lane).Some? && steps > stack - lo
    ensures var w := BackplaneWalk(c, stack, UP, part, lane, steps);
            ArrivedWell(driven, c, w, part, lane) && lo <= w.stack <= stack
    decreases steps
  {
    CellRegistered(driven, c, (stack, part), UP, lane);
    if BSource(c, (stack, part), UP, lane) == Some(DOWN) {
      CellRegistered(driven, c, (stack - 1, part), UP, lane);
      WalkDown(driven, c, lo, hi, stack - 1, part, lane, steps - 1);
    }
  }

  /** A walk that enters sector DOWN only goes up. */
  lemma {:induction false} WalkUp(driven: bool, c: Config, lo: int, hi: int, stack: int, part: int, lane: int,
                                  steps: nat)
    requires Inv(c, driven) && StacksWithin(c, lo, hi) && 0 <= lane < 8
    requires BSource(c, (stack, part), DOWN, lane).Some? && steps > hi - stack
    ensures var w := BackplaneWalk(c, stack, DOWN, part, lane, steps);
            ArrivedWell(driven, c, w, part, lane) && stack <= w.stack <= hi
    decreases steps
  {
    CellRegistered(driven, c, (stack, part), DOWN, lane);
    if BSource(c, (stack, part), DOWN, lane) == Some(UP) {
      CellRegistered(driven, c, (stack + 1, part), DOWN, lane);
      WalkUp(driven, c, lo, hi, stack + 1, part, lane, steps - 1);
    }
  }

  lemma WalkStops(driven: bool, c: Config, lo: int, hi: int, stack: int, sector: int, part: int, lane: int, steps: nat)
    requires Inv(c, driven) && StacksWithin(c, lo, hi) && 0 <= lane < 8 && 0 <= sector < 9
    requires steps > hi - lo + 1
    ensures var w := BackplaneWalk(c, stack, sector, part, lane, steps);
            if BSource(c, (stack, part), sector, lane).None? then w == Lost
            else ArrivedWell(driven, c, w, part, lane) && lo <= w.stack <= hi
  {
    var v := BSource(c, (stack, part), sector, lane);
    if v.Some? {
      CellRegistered(driven, c, (stack, part), sector, lane);
      if v.value == DOWN {
        CellRegistered(driven, c, (stack - 1, part), UP, lane);
        WalkDown(driven, c, lo, hi, stack - 1, part, lane, steps - 1);
      } else if v.value == UP {
        CellRegistered(driven, c, (stack + 1, part), DOWN, lane);
        WalkUp(driven, c, lo, hi, stack + 1, part, lane, steps - 1);
      }
    }
  }

  // ---------------------------------------------------------------- after any routes

  /** The locations the outer loop can come back to: sector 0 of a carrier on a stack with a backplane. */
  function Pool(lo: int, hi: int, lane: int): set<Loc> {
    set s, k | lo <= s <= hi && 0 <= k < 7 :: Loc(s, k, 0, lane)
  }

  /** The inner loop, entered with any carrier number, ends; where it arrives lies in the pool. */
  lemma WalkEnds(c: Config, lo: int, hi: int, loc: Loc, part: int, lane: int, steps: nat)
    requires Inv(c, false) && StacksWithin(c, lo, hi) && 0 <= lane < 8 && steps > hi - lo + 1
    ensures var w := BackplaneWalk(c, loc.stack, loc.carrier, part, lane, steps);
            w != Moving && (w.Arrived? ==> Loc(w.stack, w.carrier, 0, loc.lane) in Pool(lo, hi, loc.lane))
  {
    hide Inv;
    if SectorIndex(loc.carrier).Some? {
      var sector := SectorIndex(loc.carrier).value;
      WalkStops(false, c, lo, hi, loc.stack, sector, part, lane, steps);
      assert BackplaneWalk(c, loc.stack, loc.carrier, part, lane, steps)
          == BackplaneWalk(c, loc.stack, sector, part, lane, steps);
    }
  }

  function RoundsLeft(pool: set<Loc>, loc: Loc, visited: set<Loc>): nat {
    |pool - visited| + if loc in pool then 0 else 1
  }

  lemma RoundUsed(pool: set<Loc>, loc: Loc, visited: set<Loc>, next: Loc)
    requires loc !in visited && next in pool
    ensures RoundsLeft(pool, next, visited + {loc}) < RoundsLeft(pool, loc, visited)
  {
    if loc in pool {
      assert pool - (visited + {loc}) == pool - visited - {loc};
    } else {
      assert pool - (visited + {loc}) == pool - visited;
    }
  }

  lemma {:induction false} TraceEnds(c: Config, loc: Loc, visited: set<Loc>, lo: int, hi: int, steps: nat)
    requires Inv(c, false) && StacksWithin(c, lo, hi)
    requires steps > hi - lo + 2 + RoundsLeft(Pool(lo, hi, loc.lane), loc, visited)
    ensures TraceFrom(c, loc, visited, steps) != Exhausted
    decreases steps
  {
    hide Inv, Pool, RoundsLeft;
    if 8 <= loc.lane < 32 && loc !in visited && 0 <= loc.cluster < 4 {
      var part, lane := (loc.lane - 8) / 8, (loc.lane - 8) % 8;
      WalkEnds(c, lo, hi, loc, part, lane, steps);
      var w := BackplaneWalk(c, loc.stack, loc.carrier, part, lane, steps);
      if w.Arrived? {
        var next := Loc(w.stack, w.carrier, 0, loc.lane);
        RoundUsed(Pool(lo, hi, loc.lane), loc, visited, next);
        TraceEnds(c, next, visited + {loc}, lo, hi, steps - 1);
      }
    }
  }

  /** Enough steps for any trace on a lane, whatever was routed. */
  function AllRounds(lo: int, hi: int, lane: int): nat
    requires lo <= hi
  {
    hi - lo + 4 + |Pool(lo, hi, lane)|
  }

  /** Main result: on every configuration that routes over registered blocks can leave behind, cluster -1
      included, both loops of `find_coef` end for every location: the walk over the stacks is monotone, and
      the outer loop either answers or meets a location again. */
  lemma EveryTraceEnds(c: Config, loc: Loc, lo: int, hi: int, steps: nat)
    requires Inv(c, false) && StacksWithin(c, lo, hi) && steps >= AllRounds(lo, hi, loc.lane)
    ensures FindCoef(c, loc, steps) != Exhausted
  {
    var first := loc.(cluster := loc.cluster + 1);
    var pool := Pool(lo, hi, loc.lane);
    assert pool - {} == pool;
    assert RoundsLeft(pool, first, {}) <= |pool| + 1;
    TraceEnds(c, first, {}, lo, hi, steps);
  }

  /** The same for every history of routes from reset blocks. */
  lemma ReachableTraceEnds(c: Config, requests: seq<Request>, loc: Loc, lo: int, hi: int, steps: nat)
    requires Fresh(c) && StacksWithin(c, lo, hi) && steps >= AllRounds(lo, hi, loc.lane)
    requires forall i :: 0 <= i < |requests| ==> Registered(c, requests[i].src, requests[i].dst)
    ensures FindCoef(Run(c, requests), loc, steps) != Exhausted
  {
    hide Inv;
    FreshInv(c);
    forall i | 0 <= i < |requests| ensures Proper(false, c, requests[i]) {
    }
    RunKeepsInv(false, c, requests);
    EveryTraceEnds(Run(c, requests), loc, lo, hi, steps);
  }

  // ---------------------------------------------------------------- after routes between real clusters

  /** Where routes name real clusters a trace takes at most two rounds of the outer loop: it answers with a
      cluster, or with nothing exactly when the location listens to a backplane cell that was never connected.
      The cycle check never fires. */
  lemma TraceStops(c: Config, loc: Loc, lo: int, hi: int, steps: nat)
    requires Inv(c, true) && StacksWithin(c, lo, hi) && steps > hi - lo + 2
    requires 8 <= loc.lane < 32 && -1 <= loc.cluster < 3 && SectorIndex(loc.carrier).Some?
    ensures var t := FindCoef(c, loc, steps);
            var unconnected :=
              && TSource(c, CarrierOf(loc), loc.cluster + 1, loc.lane - 8) == Some(0)
              && BSource(c, (loc.stack, Partition(loc.lane)), SectorIndex(loc.carrier).value, loc.lane % 8) == None;
            if unconnected then t == NoSource else t.Found? && t.loc.lane == loc.lane && 0 <= t.loc.cluster < 3
  {
    var first := loc.(cluster := loc.cluster + 1);
    var part, lane := Partition(loc.lane), loc.lane % 8;
    assert (loc.lane - 8) % 8 == lane && part * 8 + lane == loc.lane - 8;
    assert GoodMux(c, CarrierOf(loc), first.cluster, loc.lane - 8);
    if TSource(c, CarrierOf(loc), first.cluster, loc.lane - 8) == Some(0) {
      WalkStops(true, c, lo, hi, loc.stack, SectorIndex(loc.carrier).value, part, lane, steps);
      var w := BackplaneWalk(c, loc.stack, loc.carrier, part, lane, steps);
      assert w == BackplaneWalk(c, loc.stack, SectorIndex(loc.carrier).value, part, lane, steps);
      if w.Arrived? {
        var second := Loc(w.stack, w.carrier, 0, loc.lane);
        assert second != first;
        assert TraceFrom(c, second, {} + {first}, steps - 1).Found?;
      }
    }
  }

  /** No location at all exhausts that budget or trips the cycle check. */
  lemma EveryTraceStops(c: Config, loc: Loc, lo: int, hi: int, steps: nat)
    requires Inv(c, true) && StacksWithin(c, lo, hi) && steps > hi - lo + 2
    ensures FindCoef(c, loc, steps) != Exhausted && FindCoef(c, loc, steps) != Cycle
  {
    if 8 <= loc.lane < 32 && -1 <= loc.cluster < 3 && SectorIndex(loc.carrier).Some? {
      TraceStops(c, loc, lo, hi, steps);
    }
  }

  /** The same for every history of routes that keep carriers driven, from reset blocks. */
  lemma ReachableTraceStops(c: Config, requests: seq<Request>, loc: Loc, lo: int, hi: int, steps: nat)
    requires Fresh(c) && StacksWithin(c, lo, hi) && steps > hi - lo + 2
    requires AllHarmless(c, requests)
    requires 8 <= loc.lane < 32 && -1 <= loc.cluster < 3 && SectorIndex(loc.carrier).Some?
    ensures var t := FindCoef(Run(c, requests), loc, steps);
            t == NoSource || (t.Found? && t.loc.lane == loc.lane && 0 <= t.loc.cluster < 3)
  {
    hide Inv, Run, FindCoef;
    FreshInv(c);
    RunKeepsDriven(c, requests);
    TraceStops(Run(c, requests), loc, lo, hi, steps);
  }

  // ---------------------------------------------------------------- cluster number -1

  /** The five cells that two such routes leave behind. */
  ghost predicate Looped(c: Config) {
    && TSource(c, (0, 0), 0, 0) == Some(0) && TSource(c, (0, 1), 0, 0) == Some(0) && TSource(c, (0, 1), 1, 0) == Some(0)
    && BSource(c, (0, 0), 0, 0) == Some(1) && BSource(c, (0, 0), 1, 0) == Some(0)
  }

  lemma LoopedCycles(c: Config, steps: nat)
    requires Looped(c) && steps >= 3
    ensures FindCoef(c, Loc(0, 1, 0, 8), steps) == Cycle
  {
    hide TSource, BSource, BackplaneWalk;
    var l0, l1, l2 := Loc(0, 1, 1, 8), Loc(0, 0, 0, 8), Loc(0, 1, 0, 8);
    LoopWalks(c, steps);
    LoopWalks(c, steps - 1);
    LoopWalks(c, steps - 2);
    assert TraceFrom(c, l1, {} + {l0} + {l1} + {l2}, steps - 3) == Cycle;
    assert TraceFrom(c, l2, {} + {l0} + {l1}, steps - 2) == Cycle;
    assert TraceFrom(c, l1, {} + {l0}, steps - 1) == Cycle;
  }

  lemma LoopWalks(c: Config, steps: nat)
    requires Looped(c) && steps > 0
    ensures BackplaneWalk(c, 0, 0, 0, 0, steps) == Arrived(0, 1)
    ensures BackplaneWalk(c, 0, 1, 0, 0, steps) == Arrived(0, 0)
  {
    hide TSource, BSource;
  }

  lemma SameStackRoute(c: Config, src: Loc, dst: Loc)
    requires Registered(c, src, dst) && src.stack == dst.stack && src.lane == dst.lane == 8 && Partition(8) == 0
    requires 0 <= src.carrier < 7 && 0 <= dst.carrier < 7 && src.carrier != dst.carrier
    requires -1 <= src.cluster < 3 && 0 <= dst.cluster < 3
    ensures Route(c, src, dst).ok
    ensures var r := Route(c, src, dst).config;
            && SameKeys(c, r)
            && TSource(r, CarrierOf(src), 0, 0) == Some(src.cluster + 1)
            && TSource(r, CarrierOf(dst), dst.cluster + 1, 0) == Some(0)
            && TSource(r, CarrierOf(dst), 0, 0) == TSource(c, CarrierOf(dst), 0, 0)
            && TSource(r, CarrierOf(src), 1, 0) == TSource(c, CarrierOf(src), 1, 0)
            && BSource(r, (src.stack, 0), dst.carrier, 0) == Some(src.carrier)
            && (forall k :: 0 <= k < 9 && k != dst.carrier ==>
                  BSource(r, (src.stack, 0), k, 0) == BSource(c, (src.stack, 0), k, 0))
  {
    var o1 := ConnectT(c, CarrierOf(src), src.cluster + 1, 0, 0);
    var o2 := ConnectT(o1.config, CarrierOf(dst), 0, dst.cluster + 1, 0);
    assert Route(c, src, dst) == ConnectB(o2.config, (src.stack, 0), src.carrier, dst.carrier, 0);
    assert (src.stack, 0) in c.backplanes;
    hide Registered, Route;
  }

  /** With cluster number -1, which `Route` accepts, two routes over registered blocks build a loop
      that only the cycle check of `find_coef` ends. */
  lemma MinusOneClusterCycles(c: Config, steps: nat)
    requires c.carriers.Keys == {(0, 0), (0, 1)} && c.backplanes.Keys == {(0, 0)} && steps >= 3
    ensures var o1 := Route(c, Loc(0, 0, -1, 8), Loc(0, 1, 0, 8));
            var o2 := Route(o1.config, Loc(0, 1, -1, 8), Loc(0, 0, 0, 8));
            o1.ok && o2.ok && FindCoef(o2.config, Loc(0, 1, 0, 8), steps) == Cycle
  {
    hide Route, TSource, BSource, FindCoef;
    var a, b := Loc(0, 0, -1, 8), Loc(0, 1, 0, 8);
    var d, e := Loc(0, 1, -1, 8), Loc(0, 0, 0, 8);
    assert Partition(8) == 0;
    SameStackRoute(c, a, b);
    var c1 := Route(c, a, b).config;
    SameStackRoute(c1, d, e);
    LoopedCycles(Route(c1, d, e).config, steps);
  }
}
