/**
 Signal routing over carrier T-blocks and backplane T-blocks (redac/router.py, redac/blocks/tblock.py,
 redac/blocks/backplane_tblock.py, `Loc` of redac/entities.py).

 A configuration holds the switch tables as values.  Routing writes them and says whether it raised;
 a route that raises half way keeps what it wrote.  Tracing is bounded by a step budget so that it is
 defined on every configuration, including those on which the original does not terminate.
 */
module Routing {
  import opened Common

  type Source = Option<int>

  /** A lane in a cluster, on a carrier, in a stack. */
  datatype Loc = Loc(stack: int, carrier: int, cluster: int, lane: int)

  type CarrierId = (int, int)
  type BackplaneId = (int, int)

  /** `TBlock.muxes`: 24 lanes of 4 sectors, sector fastest. */
  type Muxes = s: seq<Source> | |s| == 96 witness seq(96, _ => None)

  /** `BackplaneTBlock.sectors`: 9 sectors of 8 lanes. */
  type Sectors = s: seq<seq<Source>> | |s| == 9 && forall i :: 0 <= i < 9 ==> |s[i]| == 8
    witness seq(9, _ => seq(8, _ => None))

  /** The registered blocks and the two shared dummies that stand in for every other block. */
  datatype Config = Config(
    carriers: map<CarrierId, Muxes>,
    backplanes: map<BackplaneId, Sectors>,
    dummy: Muxes,
    backplaneDummy: Sectors)

  // ---------------------------------------------------------------- reading and writing one cell

  function MuxIndex(sector: int, lane: int): nat
    requires 0 <= sector < 4 && 0 <= lane < 24
  {
    lane * 4 + sector
  }

  function CarrierBlock(c: Config, id: CarrierId): Muxes {
    if id in c.carriers then c.carriers[id] else c.dummy
  }

  function BackplaneBlock(c: Config, id: BackplaneId): Sectors {
    if id in c.backplanes then c.backplanes[id] else c.backplaneDummy
  }

  /** `find_carrier_t_block(...).source(sector, lane)`. */
  function TSource(c: Config, id: CarrierId, sector: int, lane: int): Source
    requires 0 <= sector < 4 && 0 <= lane < 24
  {
    CarrierBlock(c, id)[MuxIndex(sector, lane)]
  }

  /** `find_bpl_t_block(...).source(sector, lane)`. */
  function BSource(c: Config, id: BackplaneId, sector: int, lane: int): Source
    requires 0 <= sector < 9 && 0 <= lane < 8
  {
    BackplaneBlock(c, id)[sector][lane]
  }

  /** A configuration after some writes, and whether nothing has been raised. */
  datatype Outcome = Outcome(config: Config, ok: bool)

  /** `TBlock.connect` on the block found for `id`. */
  function ConnectT(c: Config, id: CarrierId, src: int, dst: int, lane: int): Outcome {
    if !(0 <= src < 4) || !(0 <= dst < 4) || !(0 <= lane < 24) then Outcome(c, false)
    else
      var block := CarrierBlock(c, id)[MuxIndex(dst, lane) := Some(src)];
      Outcome(if id in c.carriers then c.(carriers := c.carriers[id := block]) else c.(dummy := block), true)
  }

  /** `BackplaneTBlock.connect` on the block found for `id`. */
  function ConnectB(c: Config, id: BackplaneId, src: int, dst: int, lane: int): Outcome {
    if !(0 <= src < 9) || !(0 <= dst < 9) || !(0 <= lane < 8) then Outcome(c, false)
    else
      var was := BackplaneBlock(c, id);
      var block: Sectors := was[dst := was[dst][lane := Some(src)]];
      Outcome(if id in c.backplanes then c.(backplanes := c.backplanes[id := block])
              else c.(backplaneDummy := block), true)
  }

  lemma TSourceAfterConnectT(c: Config, id: CarrierId, src: int, dst: int, lane: int,
                             id': CarrierId, sector': int, lane': int)
    requires 0 <= src < 4 && 0 <= dst < 4 && 0 <= lane < 24
    requires 0 <= sector' < 4 && 0 <= lane' < 24
    requires id in c.carriers
    ensures TSource(ConnectT(c, id, src, dst, lane).config, id', sector', lane')
         == if id == id' && dst == sector' && lane == lane' then Some(src) else TSource(c, id', sector', lane')
  {
  }

  // ---------------------------------------------------------------- routing

  const UP := 7     // sector towards the next higher stack
  const DOWN := 8   // sector towards the next lower stack

  function Partition(lane: int): int { (lane - 8) / 8 }

  function CarrierOf(l: Loc): CarrierId { (l.stack, l.carrier) }

  function RouteCluster(c: Config, src: Loc, dst: Loc): Outcome {
    if src.lane < 8 then Outcome(c, src == dst)
    else if src.lane != dst.lane then Outcome(c, false)
    else ConnectT(c, CarrierOf(dst), src.cluster + 1, dst.cluster + 1, dst.lane - 8)
  }

  function RouteCarrier(c: Config, src: Loc, dst: Loc): Outcome {
    if src.lane != dst.lane || 0 <= src.lane < 8 then Outcome(c, false)
    else ConnectT(c, CarrierOf(dst), src.cluster + 1, dst.cluster + 1, dst.lane - 8)
  }

  /** Stepping from `stack` by `dir` meets `end`. */
  predicate Heads(stack: int, end: int, dir: int) {
    (dir == 1 && stack <= end) || (dir == -1 && end <= stack)
  }

  function Distance(a: int, b: int): nat { if a <= b then b - a else a - b }

  /** The loop over the stacks strictly between two stacks. */
  function Between(c: Config, stack: int, end: int, dir: int, part: int, entry: int, exit: int, lane: int): Outcome
    requires Heads(stack, end, dir)
    decreases Distance(stack, end)
  {
    if stack == end then Outcome(c, true)
    else
      var o := ConnectB(c, (stack, part), entry, exit, lane);
      if !o.ok then o else Between(o.config, stack + dir, end, dir, part, entry, exit, lane)
  }

  function RouteBackplane(c: Config, src: Loc, dst: Loc): Outcome {
    var part, lane := Partition(src.lane), dst.lane % 8;
    if src.stack == dst.stack then ConnectB(c, (src.stack, part), src.carrier, dst.carrier, lane)
    else
      var dir := if src.stack < dst.stack then 1 else -1;
      var exit := if dir == 1 then UP else DOWN;
      var entry := if dir == 1 then DOWN else UP;
      var o1 := ConnectB(c, (src.stack, part), src.carrier, exit, lane);
      if !o1.ok then o1 else
      var o2 := Between(o1.config, src.stack + dir, dst.stack, dir, part, entry, exit, lane);
      if !o2.ok then o2 else
      ConnectB(o2.config, (dst.stack, part), entry, dst.carrier, lane)
  }

  function RouteStack(c: Config, src: Loc, dst: Loc): Outcome {
    if src.lane != dst.lane || !(8 <= src.lane < 32) then Outcome(c, false)
    else
      var o1 := ConnectT(c, CarrierOf(src), src.cluster + 1, 0, src.lane - 8);
      if !o1.ok then o1 else
      var o2 := ConnectT(o1.config, CarrierOf(dst), 0, dst.cluster + 1, src.lane - 8);
      if !o2.ok then o2 else
      RouteBackplane(o2.config, src, dst)
  }

  function Route(c: Config, src: Loc, dst: Loc): Outcome {
    if !(src.carrier < 7 && dst.carrier < 7 && src.cluster < 3 && dst.cluster < 3 && src.lane < 32 && dst.lane < 32)
    then Outcome(c, false)
    else if CarrierOf(src) == CarrierOf(dst) then
      if src.cluster == dst.cluster then RouteCluster(c, src, dst) else RouteCarrier(c, src, dst)
    else RouteStack(c, src, dst)
  }

  // ---------------------------------------------------------------- tracing

  /** Result of following backplane switches: still moving, no source, an exception, or a carrier. */
  datatype Walk = Moving | Lost | Crash | Arrived(stack: int, carrier: int)

  /** Python list indexing: negative indices count from the end. */
  function SectorIndex(i: int): Option<nat> {
    if 0 <= i < 9 then Some(i) else if -9 <= i < 0 then Some(i + 9) else None
  }

  /** The inner `while True` of `find_coef`, for at most `steps` iterations. */
  function BackplaneWalk(c: Config, stack: int, sector: int, part: int, lane: int, steps: nat): Walk
    requires 0 <= lane < 8
    decreases steps
  {
    if steps == 0 then Moving
    else if SectorIndex(sector).None? then Crash
    else
      match BSource(c, (stack, part), SectorIndex(sector).value, lane)
      case None => Lost
      case Some(v) =>
        if v == DOWN then BackplaneWalk(c, stack - 1, UP, part, lane, steps - 1)
        else if v == UP then BackplaneWalk(c, stack + 1, DOWN, part, lane, steps - 1)
        else Arrived(stack, v)
  }

  /** Result of a trace; `Exhausted` means the budget ran out, `Cycle` that the visited check fired. */
  datatype Trace = Exhausted | NoSource | Cycle | Raised | Found(loc: Loc)

  /** The outer `while True` of `find_coef`; here `cluster` is the sector, 0 being the backplane. */
  function TraceFrom(c: Config, loc: Loc, visited: set<Loc>, steps: nat): Trace
    decreases steps
  {
    if loc.lane < 8 then Found(loc)
    else if loc in visited then Cycle
    else if steps == 0 then Exhausted
    else if !(0 <= loc.cluster < 4) || loc.lane >= 32 then Raised
    else
      var lane := loc.lane - 8;
      match TSource(c, CarrierOf(loc), loc.cluster, lane)
      case None => NoSource
      case Some(v) =>
        if !(0 <= v < 4) then NoSource
        else if v != 0 then Found(Loc(loc.stack, loc.carrier, v - 1, loc.lane))
        else
          match BackplaneWalk(c, loc.stack, loc.carrier, lane / 8, lane % 8, steps)
          case Moving => Exhausted
          case Lost => NoSource
          case Crash => Raised
          case Arrived(stack, carrier) =>
            if 0 <= carrier <= 6 then TraceFrom(c, Loc(stack, carrier, 0, loc.lane), visited + {loc}, steps - 1)
            else Raised
  }

  /** `Tracer.find_coef`. */
  function FindCoef(c: Config, loc: Loc, steps: nat): Trace {
    if loc.lane < 8 then Found(loc)
    else TraceFrom(c, loc.(cluster := loc.cluster + 1), {}, steps)
  }

  // ---------------------------------------------------------------- a routed path

  /** Every block that `Route` looks up on the way from `src` to `dst` is registered. */
  predicate Registered(c: Config, src: Loc, dst: Loc) {
    && CarrierOf(src) in c.carriers
    && CarrierOf(dst) in c.carriers
    && (CarrierOf(src) != CarrierOf(dst) ==>
          var lo := if src.stack < dst.stack then src.stack else dst.stack;
          var hi := if src.stack < dst.stack then dst.stack else src.stack;
          forall s :: lo <= s <= hi ==> (s, Partition(src.lane)) in c.backplanes)
  }

  /** What a route needs in the carrier cell (`id`, `sector`) of its lane, if it uses that cell. */
  function WantedT(src: Loc, dst: Loc, id: CarrierId, sector: int): Source {
    if CarrierOf(src) == CarrierOf(dst) then
      if id == CarrierOf(dst) && sector == dst.cluster + 1 then Some(src.cluster + 1) else None
    else if id == CarrierOf(src) && sector == 0 then Some(src.cluster + 1)
    else if id == CarrierOf(dst) && sector == dst.cluster + 1 then Some(0)
    else None
  }

  /** What a route needs in the backplane cell (`id`, `sector`) of its lane, if it uses that cell. */
  function WantedB(src: Loc, dst: Loc, id: BackplaneId, sector: int): Source {
    if CarrierOf(src) == CarrierOf(dst) || id.1 != Partition(src.lane) then None
    else if src.stack == dst.stack then
      if id.0 == src.stack && sector == dst.carrier then Some(src.carrier) else None
    else
      var up := src.stack < dst.stack;
      var exit := if up then UP else DOWN;
      var entry := if up then DOWN else UP;
      if id.0 == src.stack && sector == exit then Some(src.carrier)
      else if (src.stack < id.0 < dst.stack || dst.stack < id.0 < src.stack) && sector == exit then Some(entry)
      else if id.0 == dst.stack && sector == dst.carrier then Some(entry)
      else None
  }

  predicate TCell(sector: int, lane: int) { 0 <= sector < 4 && 0 <= lane < 24 }
  predicate BCell(sector: int, lane: int) { 0 <= sector < 9 && 0 <= lane < 8 }

  /** All cells of the path from `src` to `dst` hold what the path needs. */
  ghost predicate PathSet(c: Config, src: Loc, dst: Loc)
    requires 8 <= src.lane < 32
  {
    && (forall id, sector {:trigger WantedT(src, dst, id, sector)} ::
          TCell(sector, src.lane - 8) && WantedT(src, dst, id, sector).Some? ==>
            TSource(c, id, sector, src.lane - 8) == WantedT(src, dst, id, sector))
    && (forall id, sector {:trigger WantedB(src, dst, id, sector)} ::
          BCell(sector, src.lane % 8) && WantedB(src, dst, id, sector).Some? ==>
            BSource(c, id, sector, src.lane % 8) == WantedB(src, dst, id, sector))
  }
}
