/**
 Routing and tracing are inverse.  `route` also accepts blocks that were never registered and writes them all
 into one shared dummy; here is exactly when tracing still finds the way back.
 */
module RoutingUnregistered {
  import opened Common
  import opened Routing
  import opened RoutingReachability
  import opened RoutingTheorems

  // ---------------------------------------------------------------- the condition

  /** Stacks strictly between the two ends of a route. */
  predicate OnTheWay(src: Loc, dst: Loc, s: int) {
    src.stack < s < dst.stack || dst.stack < s < src.stack
  }

  /** Stacks on the far side of the source, seen from the destination. */
  predicate Beyond(src: Loc, dst: Loc, s: int) {
    if src.stack < dst.stack then s < src.stack else s > src.stack
  }

  function Entry(src: Loc, dst: Loc): int { if src.stack < dst.stack then DOWN else UP }

  function Exit(src: Loc, dst: Loc): int { if src.stack < dst.stack then UP else DOWN }

  /** Some block on the way is the dummy. */
  ghost predicate Overrun(keys: set<BackplaneId>, src: Loc, dst: Loc) {
    exists s :: OnTheWay(src, dst, s) && (s, Partition(src.lane)) !in keys
  }

  /** The two writes to the carrier ends do not meet in one cell of the dummy. */
  predicate CarriersApart(c: Config, src: Loc, dst: Loc) {
    CarrierOf(src) in c.carriers || CarrierOf(dst) in c.carriers || dst.cluster != -1
  }

  /** The source's backplane is not overwritten through the dummy by the stacks on the way. */
  ghost predicate BackplanesApart(c: Config, src: Loc, dst: Loc) {
    (src.stack, Partition(src.lane)) in c.backplanes || !Overrun(c.backplanes.Keys, src, dst)
  }

  /** No two writes of the route meet in one cell of a dummy. */
  ghost predicate Apart(c: Config, src: Loc, dst: Loc) {
    CarrierOf(src) == CarrierOf(dst) || (CarriersApart(c, src, dst) && BackplanesApart(c, src, dst))
  }

  lemma RegisteredApart(c: Config, src: Loc, dst: Loc)
    requires Registered(c, src, dst)
    ensures Apart(c, src, dst)
  {
  }

  // ---------------------------------------------------------------- what is written, registered or not

  lemma ConnectTAnywhere(c: Config, id: CarrierId, src: int, dst: int, lane: int)
    requires TCell(dst, lane) && 0 <= src < 4
    ensures var o := ConnectT(c, id, src, dst, lane);
            && o.ok && o.config.carriers.Keys == c.carriers.Keys
            && o.config.backplanes == c.backplanes && o.config.backplaneDummy == c.backplaneDummy
            && forall id', sector {:trigger TSource(o.config, id', sector, lane)} :: TCell(sector, lane) ==>
                 TSource(o.config, id', sector, lane)
                 == if sector == dst && (id' == id || (id !in c.carriers && id' !in c.carriers)) then Some(src)
                    else TSource(c, id', sector, lane)
  {
  }

  lemma ConnectBAnywhere(c: Config, id: BackplaneId, src: int, dst: int, lane: int)
    requires BCell(dst, lane) && 0 <= src < 9
    ensures var o := ConnectB(c, id, src, dst, lane);
            && o.ok && o.config.backplanes.Keys == c.backplanes.Keys
            && o.config.carriers == c.carriers && o.config.dummy == c.dummy
            && forall id', sector {:trigger BSource(o.config, id', sector, lane)} :: BCell(sector, lane) ==>
                 BSource(o.config, id', sector, lane)
                 == if sector == dst && (id' == id || (id !in c.backplanes && id' !in c.backplanes)) then Some(src)
                    else BSource(c, id', sector, lane)
  {
  }

  /** Whether the loop over stacks `stack` to `end` writes the block of stack `s`. */
  ghost predicate Hit(keys: set<BackplaneId>, part: int, stack: int, end: int, s: int) {
    || stack <= s < end || end < s <= stack
    || ((s, part) !in keys && exists t :: (stack <= t < end || end < t <= stack) && (t, part) !in keys)
  }

  lemma {:induction false} BetweenAnywhere(c: Config, stack: int, end: int, dir: int, part: int, entry: int, exit: int,
                                           lane: int)
    requires Heads(stack, end, dir) && BCell(exit, lane) && 0 <= entry < 9
    ensures var o := Between(c, stack, end, dir, part, entry, exit, lane);
            && o.ok && o.config.backplanes.Keys == c.backplanes.Keys
            && o.config.carriers == c.carriers && o.config.dummy == c.dummy
            && forall s {:trigger BSource(o.config, (s, part), exit, lane)} ::
                 BSource(o.config, (s, part), exit, lane)
                 == if Hit(c.backplanes.Keys, part, stack, end, s) then Some(entry)
                    else BSource(c, (s, part), exit, lane)
    decreases Distance(stack, end)
  {
    hide ConnectB, BSource;
    if stack != end {
      var o := ConnectB(c, (stack, part), entry, exit, lane);
      ConnectBAnywhere(c, (stack, part), entry, exit, lane);
      BetweenAnywhere(o.config, stack + dir, end, dir, part, entry, exit, lane);
      var keys := c.backplanes.Keys;
      forall s ensures Hit(keys, part, stack, end, s)
                  <==> Hit(keys, part, stack + dir, end, s) || s == stack
                       || ((stack, part) !in keys && (s, part) !in keys) {
        HitStep(keys, part, stack, end, dir, s);
      }
      hide Hit;
    }
  }

  lemma HitStep(keys: set<BackplaneId>, part: int, stack: int, end: int, dir: int, s: int)
    requires Heads(stack, end, dir) && stack != end
    ensures Hit(keys, part, stack, end, s)
       <==> Hit(keys, part, stack + dir, end, s) || s == stack || ((stack, part) !in keys && (s, part) !in keys)
  {
  }

  /** What the blocks hold where a route leaves them towards the destination. */
  ghost function ExitCell(c: Config, src: Loc, dst: Loc, s: int): Source
    requires 8 <= src.lane < 32
  {
    var keys, part := c.backplanes.Keys, Partition(src.lane);
    if OnTheWay(src, dst, s) || ((s, part) !in keys && Overrun(keys, src, dst)) then Some(Entry(src, dst))
    else if s == src.stack || ((s, part) !in keys && (src.stack, part) !in keys) then Some(src.carrier)
    else BSource(c, (s, part), Exit(src, dst), src.lane % 8)
  }

  lemma CrossStackCells(c: Config, src: Loc, dst: Loc)
    requires 8 <= src.lane < 32 && src.lane == dst.lane && src.carrier < 7 && dst.carrier < 7
    requires src.stack != dst.stack && RouteBackplane(c, src, dst).ok
    ensures 0 <= src.carrier && 0 <= dst.carrier
    ensures var c', part, lane := RouteBackplane(c, src, dst).config, Partition(src.lane), src.lane % 8;
            && c'.carriers == c.carriers && c'.dummy == c.dummy
            && BSource(c', (dst.stack, part), dst.carrier, lane) == Some(Entry(src, dst))
            && forall s {:trigger BSource(c', (s, part), Exit(src, dst), lane)} ::
                 BSource(c', (s, part), Exit(src, dst), lane) == ExitCell(c, src, dst, s)
  {
    hide ConnectB, Between, RouteBackplane, BSource, Hit, OnTheWay, Overrun;
    var part, lane, dir := Partition(src.lane), src.lane % 8, if src.stack < dst.stack then 1 else -1;
    var entry, exit := Entry(src, dst), Exit(src, dst);
    CrossStackParts(c, src, dst, dir, entry, exit);
    var o1 := ConnectB(c, (src.stack, part), src.carrier, exit, lane);
    ConnectBAnywhere(c, (src.stack, part), src.carrier, exit, lane);
    var o2 := Between(o1.config, src.stack + dir, dst.stack, dir, part, entry, exit, lane);
    BetweenAnywhere(o1.config, src.stack + dir, dst.stack, dir, part, entry, exit, lane);
    ConnectBAnywhere(o2.config, (dst.stack, part), entry, dst.carrier, lane);
    forall s ensures Hit(c.backplanes.Keys, part, src.stack + dir, dst.stack, s)
                <==> OnTheWay(src, dst, s) || ((s, part) !in c.backplanes && Overrun(c.backplanes.Keys, src, dst)) {
      HitOnTheWay(c.backplanes.Keys, src, dst, dir, s);
    }
  }

  lemma HitOnTheWay(keys: set<BackplaneId>, src: Loc, dst: Loc, dir: int, s: int)
    requires src.stack != dst.stack && dir == if src.stack < dst.stack then 1 else -1
    ensures Hit(keys, Partition(src.lane), src.stack + dir, dst.stack, s)
       <==> OnTheWay(src, dst, s) || ((s, Partition(src.lane)) !in keys && Overrun(keys, src, dst))
  {
    assert forall t :: OnTheWay(src, dst, t) <==> src.stack + dir <= t < dst.stack || dst.stack < t <= src.stack + dir;
  }

  /** The carrier ends and the backplane cells after a successful route between carriers. */
  lemma RouteCells(c: Config, src: Loc, dst: Loc)
    requires CarrierOf(src) != CarrierOf(dst) && Route(c, src, dst).ok
    ensures 8 <= src.lane == dst.lane < 32 && -1 <= src.cluster < 3 && -1 <= dst.cluster < 3
    ensures 0 <= src.carrier < 7 && 0 <= dst.carrier < 7
    ensures var c', part, lane := Route(c, src, dst).config, Partition(src.lane), src.lane % 8;
            && TSource(c', CarrierOf(dst), dst.cluster + 1, src.lane - 8) == Some(0)
            && TSource(c', CarrierOf(src), 0, src.lane - 8)
               == Some(if CarriersApart(c, src, dst) then src.cluster + 1 else 0)
            && (forall id {:trigger TSource(c', id, 0, src.lane - 8)} ::
                  TSource(c', id, 0, src.lane - 8) == DriveCell(c, src, dst, id))
            && (src.stack == dst.stack ==> BSource(c', (src.stack, part), dst.carrier, lane) == Some(src.carrier))
            && (src.stack != dst.stack ==>
                  && BSource(c', (dst.stack, part), dst.carrier, lane) == Some(Entry(src, dst))
                  && forall s {:trigger BSource(c', (s, part), Exit(src, dst), lane)} ::
                       BSource(c', (s, part), Exit(src, dst), lane) == ExitCell(c, src, dst, s))
  {
    var c2, part, lane := CarrierEnds(c, src, dst);
    if src.stack == dst.stack {
      SameStackCell(c2, (src.stack, part), src.carrier, dst.carrier, lane);
    } else {
      CrossStackCells(c2, src, dst);
      SameBackplanesSameExits(c, c2, src, dst);
    }
    var c' := Route(c, src, dst).config;
    hide RouteBackplane, BSource, ExitCell, CarriersApart, DriveCell, Route;
    forall id ensures TSource(c', id, 0, src.lane - 8) == DriveCell(c, src, dst, id) {
      assert TSource(c2, id, 0, src.lane - 8) == DriveCell(c, src, dst, id);
    }
  }

  /** What a carrier puts on the backplane after a route between carriers. */
  function DriveCell(c: Config, src: Loc, dst: Loc, id: CarrierId): Source
    requires 8 <= src.lane < 32
  {
    if dst.cluster == -1 && (id == CarrierOf(dst) || (id !in c.carriers && CarrierOf(dst) !in c.carriers)) then Some(0)
    else if id == CarrierOf(src) || (id !in c.carriers && CarrierOf(src) !in c.carriers) then Some(src.cluster + 1)
    else TSource(c, id, 0, src.lane - 8)
  }

  lemma SameStackCell(c: Config, id: BackplaneId, src: int, dst: int, lane: int)
    requires ConnectB(c, id, src, dst, lane).ok
    ensures BCell(dst, lane) && 0 <= src < 9
    ensures var c' := ConnectB(c, id, src, dst, lane).config;
            c'.carriers == c.carriers && c'.dummy == c.dummy && BSource(c', id, dst, lane) == Some(src)
  {
  }

  lemma SameBackplanesSameExits(c: Config, c': Config, src: Loc, dst: Loc)
    requires 8 <= src.lane < 32 && c'.backplanes == c.backplanes && c'.backplaneDummy == c.backplaneDummy
    ensures forall s :: ExitCell(c', src, dst, s) == ExitCell(c, src, dst, s)
  {
    hide Overrun, OnTheWay;
  }

  /** The part of a route before its backplanes. */
  lemma CarrierEnds(c: Config, src: Loc, dst: Loc) returns (c2: Config, part: int, lane: int)
    requires CarrierOf(src) != CarrierOf(dst) && Route(c, src, dst).ok
    ensures part == Partition(src.lane) && lane == src.lane % 8 && 0 <= lane < 8
    ensures 8 <= src.lane == dst.lane < 32 && -1 <= src.cluster < 3 && -1 <= dst.cluster < 3
    ensures src.carrier < 7 && dst.carrier < 7
    ensures c2.backplanes == c.backplanes && c2.backplaneDummy == c.backplaneDummy
    ensures TSource(c2, CarrierOf(dst), dst.cluster + 1, src.lane - 8) == Some(0)
    ensures TSource(c2, CarrierOf(src), 0, src.lane - 8)
         == Some(if CarriersApart(c, src, dst) then src.cluster + 1 else 0)
    ensures forall id {:trigger TSource(c2, id, 0, src.lane - 8)} ::
              TSource(c2, id, 0, src.lane - 8) == DriveCell(c, src, dst, id)
    ensures Route(c, src, dst) == RouteBackplane(c2, src, dst)
  {
    hide RouteBackplane, TSource;
    part, lane := Partition(src.lane), src.lane % 8;
    assert Route(c, src, dst) == RouteStack(c, src, dst);
    var l := src.lane - 8;
    var c1 := ConnectT(c, CarrierOf(src), src.cluster + 1, 0, l).config;
    c2 := ConnectT(c1, CarrierOf(dst), 0, dst.cluster + 1, l).config;
    assert ConnectT(c, CarrierOf(src), src.cluster + 1, 0, l).ok;
    ConnectTAnywhere(c, CarrierOf(src), src.cluster + 1, 0, l);
    ConnectTAnywhere(c1, CarrierOf(dst), 0, dst.cluster + 1, l);
  }

  // ---------------------------------------------------------------- the way back

  /** Where no two writes meet, every cell of the path holds what the path needs. */
  lemma ApartSetsPath(c: Config, src: Loc, dst: Loc)
    requires Route(c, src, dst).ok && src.lane >= 8 && Apart(c, src, dst)
    ensures src.lane == dst.lane < 32 && -1 <= src.cluster < 3 && -1 <= dst.cluster < 3
    ensures CarrierOf(src) != CarrierOf(dst) ==> 0 <= src.carrier < 7 && 0 <= dst.carrier < 7
    ensures PathSet(Route(c, src, dst).config, src, dst)
  {
    if CarrierOf(src) != CarrierOf(dst) {
      RouteCells(c, src, dst);
      PathOfCells(c, Route(c, src, dst).config, src, dst);
      hide Route, PathSet, ExitCell, TSource, BSource, Overrun;
    } else {
      ConnectTAnywhere(c, CarrierOf(dst), src.cluster + 1, dst.cluster + 1, dst.lane - 8);
      hide TSource, RouteStack;
    }
  }

  lemma PathOfCells(c: Config, c': Config, src: Loc, dst: Loc)
    requires 8 <= src.lane < 32 && 0 <= dst.carrier < 7 && CarrierOf(src) != CarrierOf(dst)
    requires -1 <= dst.cluster < 3 && BackplanesApart(c, src, dst)
    requires TSource(c', CarrierOf(dst), dst.cluster + 1, src.lane - 8) == Some(0)
    requires TSource(c', CarrierOf(src), 0, src.lane - 8) == Some(src.cluster + 1)
    requires src.stack == dst.stack ==>
               BSource(c', (src.stack, Partition(src.lane)), dst.carrier, src.lane % 8) == Some(src.carrier)
    requires src.stack != dst.stack ==>
               && BSource(c', (dst.stack, Partition(src.lane)), dst.carrier, src.lane % 8) == Some(Entry(src, dst))
               && forall s {:trigger BSource(c', (s, Partition(src.lane)), Exit(src, dst), src.lane % 8)} ::
                    BSource(c', (s, Partition(src.lane)), Exit(src, dst), src.lane % 8) == ExitCell(c, src, dst, s)
    ensures PathSet(c', src, dst)
  {
    hide TSource, BSource, Overrun;
    forall id: BackplaneId, sector | BCell(sector, src.lane % 8) && WantedB(src, dst, id, sector).Some?
      ensures BSource(c', id, sector, src.lane % 8) == WantedB(src, dst, id, sector)
    {
      assert id == (id.0, Partition(src.lane));
      if src.stack != dst.stack && sector == Exit(src, dst) {
        assert BSource(c', (id.0, Partition(src.lane)), Exit(src, dst), src.lane % 8) == ExitCell(c, src, dst, id.0);
      }
    }
  }

  /** Main result: after any successful route in which no two writes meet in a dummy - so always over
      registered blocks - from any configuration and over any number of stacks, tracing the destination gives
      the source back; it fails exactly for the cluster number -1, which `Route` does not reject, on the
      routable lanes. */
  lemma RouteThenTrace(c: Config, src: Loc, dst: Loc, steps: nat)
    requires Apart(c, src, dst) && Route(c, src, dst).ok && steps >= Enough(src, dst)
    ensures FindCoef(Route(c, src, dst).config, dst, steps) == Found(src) <==> src.lane < 8 || src.cluster >= 0
  {
    hide PathSet, Apart, TraceFrom;
    if src.lane >= 8 {
      var c' := Route(c, src, dst).config;
      ApartSetsPath(c, src, dst);
      if src.cluster >= 0 {
        TracePath(c', src, dst, steps);
      } else {
        TraceAnswersRealCluster(c', dst.(cluster := dst.cluster + 1), {}, steps);
      }
    }
  }

  // ---------------------------------------------------------------- and where it is lost

  /** What a registered block beyond the source may hold: nothing, the way on, or a carrier that puts something
      on the backplane and that the route does not disturb. */
  ghost predicate OrderlyCell(c: Config, src: Loc, dst: Loc, s: int)
    requires 8 <= src.lane < 32
  {
    var cell := BSource(c, (s, Partition(src.lane)), Exit(src, dst), src.lane % 8);
    cell == None || cell == Some(Entry(src, dst)) ||
    (0 <= cell.value < 7 && TSource(c, (s, cell.value), 0, src.lane - 8) != Some(0) &&
     ((s, cell.value) in c.carriers || CarrierOf(dst) in c.carriers || dst.cluster != -1))
  }

  ghost predicate OrderlyBeyond(c: Config, src: Loc, dst: Loc)
    requires 8 <= src.lane < 32
  {
    forall s {:trigger OrderlyCell(c, src, dst, s)} ::
      Beyond(src, dst, s) && (s, Partition(src.lane)) in c.backplanes ==> OrderlyCell(c, src, dst, s)
  }

  /** After any routes over registered blocks that keep carriers driven the blocks are orderly. */
  lemma DrivenIsOrderly(c: Config, src: Loc, dst: Loc)
    requires Inv(c, true) && 8 <= src.lane < 32 && (CarrierOf(dst) in c.carriers || dst.cluster != -1)
    ensures OrderlyBeyond(c, src, dst)
  {
    hide BSource, TSource;
    var part, lane := Partition(src.lane), src.lane % 8;
    assert part * 8 + lane == src.lane - 8;
    forall s | Beyond(src, dst, s) && (s, part) in c.backplanes ensures OrderlyCell(c, src, dst, s) {
      assert GoodCell(c, (s, part), Exit(src, dst), lane, true);
    }
  }

  /** On the way back the block of stack `s` hands on, leads nowhere, or, beyond the source, to a carrier that
      is the end of the trace. */
  ghost predicate StrayCell(c: Config, src: Loc, dst: Loc, s: int)
    requires 8 <= src.lane < 32
  {
    var cell := BSource(c, (s, Partition(src.lane)), Exit(src, dst), src.lane % 8);
    cell == None || cell == Some(Entry(src, dst)) || StrayEnd(c, src, dst, s, cell.value)
  }

  ghost predicate StrayEnd(c: Config, src: Loc, dst: Loc, s: int, carrier: int)
    requires 8 <= src.lane < 32
  {
    Beyond(src, dst, s) && 0 <= carrier < 7 && TSource(c, (s, carrier), 0, src.lane - 8) != Some(0)
  }

  /** A walk over such blocks does not arrive at the source. */
  lemma {:induction false} StrayWalk(c: Config, src: Loc, dst: Loc, s: int, steps: nat)
    requires 8 <= src.lane < 32 && src.stack != dst.stack
    requires forall t {:trigger StrayCell(c, src, dst, t)} ::
               OnTheWay(src, dst, t) || t == src.stack || Beyond(src, dst, t) ==> StrayCell(c, src, dst, t)
    requires OnTheWay(src, dst, s) || s == src.stack || Beyond(src, dst, s)
    ensures var w := BackplaneWalk(c, s, Exit(src, dst), Partition(src.lane), src.lane % 8, steps);
            w == Moving || w == Lost || (w.Arrived? && StrayEnd(c, src, dst, w.stack, w.carrier))
    ensures (forall t {:trigger BSource(c, (t, Partition(src.lane)), Exit(src, dst), src.lane % 8)} ::
               OnTheWay(src, dst, t) || t == src.stack || Beyond(src, dst, t) ==>
               BSource(c, (t, Partition(src.lane)), Exit(src, dst), src.lane % 8) == Some(Entry(src, dst)))
        ==> BackplaneWalk(c, s, Exit(src, dst), Partition(src.lane), src.lane % 8, steps) == Moving
    decreases steps
  {
    hide BSource, TSource;
    assert StrayCell(c, src, dst, s);
    if steps > 0 && BSource(c, (s, Partition(src.lane)), Exit(src, dst), src.lane % 8) == Some(Entry(src, dst)) {
      StrayWalk(c, src, dst, if src.stack < dst.stack then s - 1 else s + 1, steps - 1);
    }
  }

  lemma OverrunCell(c: Config, c': Config, src: Loc, dst: Loc, s: int)
    requires 8 <= src.lane < 32 && !BackplanesApart(c, src, dst) && OrderlyBeyond(c, src, dst)
    requires src.stack != dst.stack && src.cluster >= 0
    requires BSource(c', (s, Partition(src.lane)), Exit(src, dst), src.lane % 8) == ExitCell(c, src, dst, s)
    requires forall id {:trigger TSource(c', id, 0, src.lane - 8)} ::
               TSource(c', id, 0, src.lane - 8) == DriveCell(c, src, dst, id)
    requires OnTheWay(src, dst, s) || s == src.stack || Beyond(src, dst, s)
    ensures StrayCell(c', src, dst, s)
    ensures (s, Partition(src.lane)) !in c.backplanes || !Beyond(src, dst, s) ==>
              BSource(c', (s, Partition(src.lane)), Exit(src, dst), src.lane % 8) == Some(Entry(src, dst))
  {
    hide BSource, TSource, Overrun;
    if Beyond(src, dst, s) && (s, Partition(src.lane)) in c.backplanes {
      assert OrderlyCell(c, src, dst, s);
    }
  }

  /** The trace of a destination that listens to its backplane is the walk from the next stack on. */
  lemma TraceOfWalk(c: Config, src: Loc, dst: Loc, steps: nat)
    requires 8 <= src.lane < 32 && dst.lane == src.lane && src.stack != dst.stack
    requires 0 <= dst.carrier < 7 && -1 <= dst.cluster < 3
    requires TSource(c, CarrierOf(dst), dst.cluster + 1, src.lane - 8) == Some(0)
    requires BSource(c, (dst.stack, Partition(src.lane)), dst.carrier, src.lane % 8) == Some(Entry(src, dst))
    ensures steps == 0 ==> FindCoef(c, dst, steps) == Exhausted
    ensures steps > 0 ==>
              var next := if src.stack < dst.stack then dst.stack - 1 else dst.stack + 1;
              var w := BackplaneWalk(c, next, Exit(src, dst), Partition(src.lane), src.lane % 8, steps - 1);
              && (w == Moving ==> FindCoef(c, dst, steps) == Exhausted)
              && (w == Lost ==> FindCoef(c, dst, steps) == NoSource)
              && (w.Arrived? && StrayEnd(c, src, dst, w.stack, w.carrier) ==> FindCoef(c, dst, steps) != Found(src))
  {
    hide TSource, BSource;
    assert (dst.lane - 8) % 8 == src.lane % 8;
    if steps > 0 {
      var next := if src.stack < dst.stack then dst.stack - 1 else dst.stack + 1;
      var w := BackplaneWalk(c, next, Exit(src, dst), Partition(src.lane), src.lane % 8, steps - 1);
      if w.Arrived? && StrayEnd(c, src, dst, w.stack, w.carrier) {
        var first := dst.(cluster := dst.cluster + 1);
        assert TraceFrom(c, Loc(w.stack, w.carrier, 0, src.lane), {} + {first}, steps - 1) != Found(src);
      }
    }
  }

  /** Where the source's block was overwritten on the way, the trace runs past the source. */
  lemma OverrunLoses(c: Config, src: Loc, dst: Loc, steps: nat)
    requires CarrierOf(src) != CarrierOf(dst) && Route(c, src, dst).ok && !BackplanesApart(c, src, dst)
    requires 8 <= src.lane < 32 && OrderlyBeyond(c, src, dst) && src.cluster >= 0
    ensures FindCoef(Route(c, src, dst).config, dst, steps) != Found(src)
    ensures (forall s :: Beyond(src, dst, s) ==> (s, Partition(src.lane)) !in c.backplanes)
        ==> FindCoef(Route(c, src, dst).config, dst, steps) == Exhausted
  {
    hide Route, BSource, TSource, OrderlyBeyond, ExitCell, StrayCell, BackplanesApart, FindCoef, BackplaneWalk,
         DriveCell, StrayEnd, CarriersApart;
    OverrunCrosses(c, src, dst);
    RouteCells(c, src, dst);
    var c', part, lane := Route(c, src, dst).config, Partition(src.lane), src.lane % 8;
    forall t | OnTheWay(src, dst, t) || t == src.stack || Beyond(src, dst, t)
      ensures StrayCell(c', src, dst, t)
      ensures (t, part) !in c.backplanes || !Beyond(src, dst, t) ==>
                BSource(c', (t, part), Exit(src, dst), lane) == Some(Entry(src, dst))
    {
      assert BSource(c', (t, part), Exit(src, dst), lane) == ExitCell(c, src, dst, t);
      OverrunCell(c, c', src, dst, t);
    }
    TraceOfWalk(c', src, dst, steps);
    if steps > 0 {
      StrayWalk(c', src, dst, if src.stack < dst.stack then dst.stack - 1 else dst.stack + 1, steps - 1);
    }
  }

  lemma OverrunCrosses(c: Config, src: Loc, dst: Loc)
    requires !BackplanesApart(c, src, dst)
    ensures src.stack != dst.stack
  {
  }

  /** An answer names a carrier whose own T-block holds it, in sector 0 unless the trace started there. */
  lemma {:induction false} AnswerIsHeld(c: Config, loc: Loc, visited: set<Loc>, steps: nat)
    requires loc.lane >= 8
    ensures var t := TraceFrom(c, loc, visited, steps);
            t.Found? ==>
              && t.loc.lane == loc.lane < 32 && 0 <= loc.cluster < 4
              && (TSource(c, CarrierOf(t.loc), 0, loc.lane - 8) == Some(t.loc.cluster + 1) ||
                  TSource(c, CarrierOf(t.loc), loc.cluster, loc.lane - 8) == Some(t.loc.cluster + 1))
    decreases steps
  {
    hide TSource, BackplaneWalk;
    if steps > 0 && loc !in visited && 0 <= loc.cluster < 4 && loc.lane < 32 {
      var lane := loc.lane - 8;
      if TSource(c, CarrierOf(loc), loc.cluster, lane) == Some(0) {
        var w := BackplaneWalk(c, loc.stack, loc.carrier, lane / 8, lane % 8, steps);
        if w.Arrived? {
          AnswerIsHeld(c, Loc(w.stack, w.carrier, 0, loc.lane), visited + {loc}, steps - 1);
        }
      }
    }
  }

  /** Where the two carrier ends met in the dummy, the source's cluster is nowhere written. */
  lemma CarriersMetLoses(c: Config, src: Loc, dst: Loc, steps: nat)
    requires CarrierOf(src) != CarrierOf(dst) && Route(c, src, dst).ok && !CarriersApart(c, src, dst)
    requires src.cluster >= 0
    ensures FindCoef(Route(c, src, dst).config, dst, steps) != Found(src)
  {
    hide Route, TSource, TraceFrom;
    RouteCells(c, src, dst);
    AnswerIsHeld(Route(c, src, dst).config, dst.(cluster := dst.cluster + 1), {}, steps);
  }

  /** The condition is exact, whatever is registered: a successful route is traced back if and only if its source
      cluster is a real one and no two of its writes meet in a dummy.  What the blocks beyond the source hold has
      to be orderly, as it is after any routes that keep carriers driven. */
  lemma RouteThenTraceExact(c: Config, src: Loc, dst: Loc, steps: nat)
    requires Route(c, src, dst).ok && steps >= Enough(src, dst)
    requires 8 <= src.lane < 32 ==> OrderlyBeyond(c, src, dst)
    ensures FindCoef(Route(c, src, dst).config, dst, steps) == Found(src)
       <==> src.lane < 8 || (src.cluster >= 0 && Apart(c, src, dst))
  {
    hide OrderlyBeyond, CarriersApart, BackplanesApart, Route, TraceFrom;
    if Apart(c, src, dst) {
      RouteThenTrace(c, src, dst, steps);
    } else {
      RouteCells(c, src, dst);
      if src.cluster < 0 {
        TraceAnswersRealCluster(Route(c, src, dst).config, dst.(cluster := dst.cluster + 1), {}, steps);
      } else if !CarriersApart(c, src, dst) {
        CarriersMetLoses(c, src, dst, steps);
      } else {
        OverrunLoses(c, src, dst, steps);
      }
    }
  }

  /** Without any registered backplane in the lane's partition, a route between registered carriers is traced
      back exactly over at most one stack; beyond that tracing its destination never ends. */
  lemma UnregisteredTrace(c: Config, src: Loc, dst: Loc, steps: nat)
    requires CarrierOf(src) != CarrierOf(dst) && CarrierOf(src) in c.carriers && CarrierOf(dst) in c.carriers
    requires forall s :: (s, Partition(src.lane)) !in c.backplanes
    requires Route(c, src, dst).ok && src.cluster >= 0 && steps >= Enough(src, dst)
    ensures FindCoef(Route(c, src, dst).config, dst, steps) == Found(src) <==> Distance(src.stack, dst.stack) <= 1
    ensures Distance(src.stack, dst.stack) > 1 ==> FindCoef(Route(c, src, dst).config, dst, steps) == Exhausted
  {
    RouteCells(c, src, dst);
    assert OrderlyBeyond(c, src, dst) by { hide OrderlyCell; }
    RouteThenTraceExact(c, src, dst, steps);
    hide Route, OrderlyBeyond, FindCoef;
    if Distance(src.stack, dst.stack) > 1 {
      var s := if src.stack < dst.stack then src.stack + 1 else src.stack - 1;
      assert OnTheWay(src, dst, s);
      OverrunLoses(c, src, dst, steps);
    } else {
      assert forall s :: !OnTheWay(src, dst, s);
    }
  }

  /** Such a route, over three stacks: accepted, and its trace never ends. */
  lemma UnregisteredDiverges(c: Config, steps: nat)
    requires c.backplanes == map[]
    ensures var src, dst := Loc(0, 0, 0, 8), Loc(2, 1, 0, 8);
            Route(c, src, dst).ok && FindCoef(Route(c, src, dst).config, dst, steps) == Exhausted
  {
    var src, dst := Loc(0, 0, 0, 8), Loc(2, 1, 0, 8);
    ThreeStackRoute(c);
    hide Route, FindCoef;
    assert OnTheWay(src, dst, 1);
    OverrunLoses(c, src, dst, steps);
  }

  lemma ThreeStackRoute(c: Config)
    ensures Route(c, Loc(0, 0, 0, 8), Loc(2, 1, 0, 8)).ok
  {
    ThreeStackCells(c);
  }

  /** The three backplane writes of that route. */
  lemma ThreeStackCells(c: Config)
    ensures var o := Route(c, Loc(0, 0, 0, 8), Loc(2, 1, 0, 8));
            && o.ok && o.config.backplanes.Keys == c.backplanes.Keys
            && (forall s {:trigger BSource(o.config, (s, 0), DOWN, 0)} ::
                  BSource(o.config, (s, 0), DOWN, 0) == BSource(c, (s, 0), DOWN, 0))
  {
    var src, dst := Loc(0, 0, 0, 8), Loc(2, 1, 0, 8);
    var c1 := ConnectT(c, (0, 0), 1, 0, 0).config;
    var c2 := ConnectT(c1, (2, 1), 0, 1, 0).config;
    ConnectTAnywhere(c, (0, 0), 1, 0, 0);
    ConnectTAnywhere(c1, (2, 1), 0, 1, 0);
    var c3 := ConnectB(c2, (0, 0), 0, UP, 0).config;
    var c4 := ConnectB(c3, (1, 0), DOWN, UP, 0).config;
    ConnectBAnywhere(c2, (0, 0), 0, UP, 0);
    ConnectBAnywhere(c3, (1, 0), DOWN, UP, 0);
    ConnectBAnywhere(c4, (2, 0), DOWN, 1, 0);
    assert Between(c3, 1, 2, 1, 0, DOWN, UP, 0) == Outcome(c4, true);
    assert Route(c, src, dst) == ConnectB(c4, (2, 0), DOWN, 1, 0);
  }

  /** Why the blocks beyond the source have to be orderly: on a table that no route makes, a registered block can
      turn an overrun walk round, and it reaches the source from the other side. */
  lemma ReachedByAccident(c: Config, steps: nat)
    requires c.backplanes.Keys == {(-1, 0)} && (0, 0) in c.carriers && (2, 1) in c.carriers && steps >= 6
    requires BSource(c, (-1, 0), UP, 0) == Some(UP) && BSource(c, (0, 0), DOWN, 0) == Some(0)
    ensures var src, dst := Loc(0, 0, 0, 8), Loc(2, 1, 0, 8);
            && Route(c, src, dst).ok && !Apart(c, src, dst)
            && FindCoef(Route(c, src, dst).config, dst, steps) == Found(src)
  {
    hide Route, TSource, BSource;
    var src, dst := Loc(0, 0, 0, 8), Loc(2, 1, 0, 8);
    ThreeStackCells(c);
    RouteCells(c, src, dst);
    var c' := Route(c, src, dst).config;
    assert OnTheWay(src, dst, 1) && !OnTheWay(src, dst, 0) && !OnTheWay(src, dst, -1);
    assert Partition(8) == 0;
    assert BSource(c', (2, 0), 1, 0) == Some(DOWN);
    assert (1, 0) !in c.backplanes.Keys && Overrun(c.backplanes.Keys, src, dst);
    assert Exit(src, dst) == UP && src.lane % 8 == 0;
    assert BSource(c', (1, Partition(8)), Exit(src, dst), 0) == ExitCell(c, src, dst, 1) == Some(DOWN);
    assert BSource(c', (0, Partition(8)), Exit(src, dst), 0) == ExitCell(c, src, dst, 0) == Some(DOWN);
    assert BSource(c', (-1, Partition(8)), Exit(src, dst), 0) == ExitCell(c, src, dst, -1) == Some(UP);
    TurnedWalk(c', steps);
    assert TraceFrom(c', Loc(0, 0, 0, 8), {} + {Loc(2, 1, 1, 8)}, steps - 1) == Found(src);
  }

  lemma TurnedWalk(c: Config, steps: nat)
    requires steps >= 6
    requires BSource(c, (2, 0), 1, 0) == Some(DOWN) && BSource(c, (1, 0), UP, 0) == Some(DOWN)
    requires BSource(c, (0, 0), UP, 0) == Some(DOWN) && BSource(c, (-1, 0), UP, 0) == Some(UP)
    requires BSource(c, (0, 0), DOWN, 0) == Some(0)
    ensures BackplaneWalk(c, 2, 1, 0, 0, steps) == Arrived(0, 0)
  {
    hide BSource;
    assert BackplaneWalk(c, 0, DOWN, 0, 0, steps - 4) == Arrived(0, 0);
    assert BackplaneWalk(c, -1, UP, 0, 0, steps - 3) == Arrived(0, 0);
    assert BackplaneWalk(c, 0, UP, 0, 0, steps - 2) == Arrived(0, 0);
    assert BackplaneWalk(c, 1, UP, 0, 0, steps - 1) == Arrived(0, 0);
  }
}
