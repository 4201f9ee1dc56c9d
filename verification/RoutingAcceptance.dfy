/**
 Which routes `route` accepts, and what it writes, in absolute terms: ranges, table indices and sector numbers as
 redac/router.py and the blocks have them.
 */
module RoutingAcceptance {
  import opened Common
  import opened Routing
  import opened RoutingTheorems
  import opened RoutingUnregistered

  // ---------------------------------------------------------------- acceptance

  /** The assertions at the head of `route`. */
  predicate InRange(l: Loc) {
    l.carrier < 7 && l.cluster < 3 && l.lane < 32
  }

  /** What is accepted: a local lane only to itself; on one carrier, any routable lane to the same lane; between
      carriers the same, with carriers counted from 0.  Cluster -1 passes everywhere but on local lanes, where
      any cluster number does. */
  predicate Acceptable(src: Loc, dst: Loc) {
    && InRange(src) && InRange(dst)
    && if CarrierOf(src) == CarrierOf(dst) then
         if src.lane < 8 then src == dst
         else src.lane == dst.lane && src.cluster >= -1 && dst.cluster >= -1
       else
         && 8 <= src.lane == dst.lane && src.cluster >= -1 && dst.cluster >= -1
         && src.carrier >= 0 && dst.carrier >= 0
  }

  /** Main result: a route succeeds if and only if it is acceptable, whatever was routed before and whatever is
      registered. */
  lemma RouteAccepts(c: Config, src: Loc, dst: Loc)
    ensures Route(c, src, dst).ok <==> Acceptable(src, dst)
  {
    if CarrierOf(src) != CarrierOf(dst) {
      hide RouteCluster, RouteCarrier, RouteStack;
      StackAccepts(c, src, dst);
    }
  }

  lemma StackAccepts(c: Config, src: Loc, dst: Loc)
    ensures RouteStack(c, src, dst).ok <==>
            && 8 <= src.lane == dst.lane < 32 && -1 <= src.cluster < 3 && -1 <= dst.cluster < 3
            && 0 <= src.carrier < 9 && 0 <= dst.carrier < 9
  {
    hide RouteBackplane, ConnectT;
    var lane := src.lane - 8;
    var o1 := ConnectT(c, CarrierOf(src), src.cluster + 1, 0, lane);
    ConnectTAccepts(c, CarrierOf(src), src.cluster + 1, 0, lane);
    var o2 := ConnectT(o1.config, CarrierOf(dst), 0, dst.cluster + 1, lane);
    ConnectTAccepts(o1.config, CarrierOf(dst), 0, dst.cluster + 1, lane);
    if src.lane == dst.lane && 8 <= src.lane < 32 {
      BackplaneAccepts(o2.config, src, dst);
    }
  }

  lemma ConnectTAccepts(c: Config, id: CarrierId, src: int, dst: int, lane: int)
    ensures ConnectT(c, id, src, dst, lane).ok <==> 0 <= src < 4 && 0 <= dst < 4 && 0 <= lane < 24
  {
  }

  lemma ConnectBAccepts(c: Config, id: BackplaneId, src: int, dst: int, lane: int)
    ensures ConnectB(c, id, src, dst, lane).ok <==> 0 <= src < 9 && 0 <= dst < 9 && 0 <= lane < 8
  {
  }

  lemma BackplaneAccepts(c: Config, src: Loc, dst: Loc)
    requires 8 <= src.lane < 32
    ensures RouteBackplane(c, src, dst).ok <==> 0 <= src.carrier < 9 && 0 <= dst.carrier < 9
  {
    hide ConnectB, Between;
    var part, lane := Partition(src.lane), dst.lane % 8;
    if src.stack == dst.stack {
      ConnectBAccepts(c, (src.stack, part), src.carrier, dst.carrier, lane);
    } else {
      var dir := if src.stack < dst.stack then 1 else -1;
      var exit := if dir == 1 then UP else DOWN;
      var entry := if dir == 1 then DOWN else UP;
      var o1 := ConnectB(c, (src.stack, part), src.carrier, exit, lane);
      ConnectBAccepts(c, (src.stack, part), src.carrier, exit, lane);
      BetweenAnywhere(o1.config, src.stack + dir, dst.stack, dir, part, entry, exit, lane);
      var o2 := Between(o1.config, src.stack + dir, dst.stack, dir, part, entry, exit, lane);
      ConnectBAccepts(o2.config, (dst.stack, part), entry, dst.carrier, lane);
    }
  }

  // ---------------------------------------------------------------- what is written

  /** On one carrier: the destination's mux of that lane selects the source's cluster. */
  lemma LocalRouteWrites(c: Config, src: Loc, dst: Loc)
    requires Acceptable(src, dst) && CarrierOf(src) == CarrierOf(dst) && src.lane >= 8 && CarrierOf(dst) in c.carriers
    ensures var i := (src.lane - 8) * 4 + dst.cluster + 1;
            && 0 <= i < 96
            && Route(c, src, dst).config
               == c.(carriers := c.carriers[CarrierOf(dst) := c.carriers[CarrierOf(dst)][i := Some(src.cluster + 1)]])
  {
    hide Route;
    LocalIsConnect(c, src, dst);
  }

  lemma LocalIsConnect(c: Config, src: Loc, dst: Loc)
    requires Acceptable(src, dst) && CarrierOf(src) == CarrierOf(dst) && src.lane >= 8
    ensures Route(c, src, dst) == ConnectT(c, CarrierOf(dst), src.cluster + 1, dst.cluster + 1, src.lane - 8)
  {
    hide ConnectT, RouteStack;
  }

  /** The carrier cells of a route between carriers: sector 0 of the source selects its cluster, the
      destination's cluster selects sector 0.  No other mux changes. */
  lemma CarrierCellsWritten(c: Config, src: Loc, dst: Loc, id: CarrierId, sector: int, lane: int)
    requires Acceptable(src, dst) && CarrierOf(src) != CarrierOf(dst) && Registered(c, src, dst)
    requires id in c.carriers && 0 <= sector < 4 && 0 <= lane < 24
    ensures var r := Route(c, src, dst).config;
            && id in r.carriers
            && r.carriers[id][lane * 4 + sector]
               == if lane == src.lane - 8 && id == (src.stack, src.carrier) && sector == 0 then Some(src.cluster + 1)
                  else if lane == src.lane - 8 && id == (dst.stack, dst.carrier) && sector == dst.cluster + 1
                  then Some(0)
                  else c.carriers[id][lane * 4 + sector]
  {
    hide Route, BSource, WantedB;
    RouteAccepts(c, src, dst);
    RouteEffect(c, src, dst);
    var r := Route(c, src, dst).config;
    assert TSource(r, id, sector, lane)
        == Or(if lane == src.lane - 8 then WantedT(src, dst, id, sector) else None, TSource(c, id, sector, lane));
  }

  /** The backplane cells: within a stack the destination's sector selects the source's carrier.  Towards higher
      stacks a signal leaves through sector 7 and comes in through sector 8, towards lower ones the other way
      round.  No other cell changes. */
  lemma BackplaneCellsWritten(c: Config, src: Loc, dst: Loc, id: BackplaneId, sector: int, lane: int)
    requires Acceptable(src, dst) && CarrierOf(src) != CarrierOf(dst) && Registered(c, src, dst)
    requires id in c.backplanes && 0 <= sector < 9 && 0 <= lane < 8
    ensures var r := Route(c, src, dst).config;
            var up := src.stack < dst.stack;
            var exit, entry := if up then 7 else 8, if up then 8 else 7;
            var mine := id.1 == (src.lane - 8) / 8 && lane == src.lane % 8;
            var between := src.stack < id.0 < dst.stack || dst.stack < id.0 < src.stack;
            && id in r.backplanes
            && r.backplanes[id][sector][lane]
               == if !mine then c.backplanes[id][sector][lane]
                  else if src.stack == dst.stack && id.0 == src.stack && sector == dst.carrier then Some(src.carrier)
                  else if src.stack != dst.stack && id.0 == src.stack && sector == exit then Some(src.carrier)
                  else if between && sector == exit then Some(entry)
                  else if src.stack != dst.stack && id.0 == dst.stack && sector == dst.carrier then Some(entry)
                  else c.backplanes[id][sector][lane]
  {
    hide Route, TSource, WantedT;
    RouteAccepts(c, src, dst);
    RouteEffect(c, src, dst);
    var r := Route(c, src, dst).config;
    assert BSource(r, id, sector, lane)
        == Or(if lane == src.lane % 8 then WantedB(src, dst, id, sector) else None, BSource(c, id, sector, lane));
  }

  // ---------------------------------------------------------------- what a trace answers at once

  /** A local lane is its own source; a lane or cluster that does not exist raises; a mux that selects a cluster names
      it. */
  lemma TraceAnswers(c: Config, loc: Loc, steps: nat)
    requires steps > 0
    ensures loc.lane < 8 ==> FindCoef(c, loc, steps) == Found(loc)
    ensures loc.lane >= 8 && (loc.lane > 31 || loc.cluster < -1 || loc.cluster > 2) ==>
              FindCoef(c, loc, steps) == Raised
    ensures 8 <= loc.lane < 32 && -1 <= loc.cluster < 3 && (loc.stack, loc.carrier) in c.carriers ==>
              var mux := c.carriers[(loc.stack, loc.carrier)][(loc.lane - 8) * 4 + loc.cluster + 1];
              && (mux == None || mux.value < 0 || mux.value > 3 ==> FindCoef(c, loc, steps) == NoSource)
              && (mux.Some? && 1 <= mux.value < 4 ==>
                    FindCoef(c, loc, steps) == Found(Loc(loc.stack, loc.carrier, mux.value - 1, loc.lane)))
  {
  }

  /** Sector numbers index a Python list of nine: -1 is sector 8, and so on down to -9; others raise. */
  lemma NegativeSectors(c: Config, stack: int, sector: int, part: int, lane: int, steps: nat)
    requires 0 <= lane < 8 && steps > 0
    ensures -9 <= sector < 0 ==>
              BackplaneWalk(c, stack, sector, part, lane, steps)
              == BackplaneWalk(c, stack, sector + 9, part, lane, steps)
    ensures sector < -9 || sector > 8 ==> BackplaneWalk(c, stack, sector, part, lane, steps) == Crash
  {
  }
}
