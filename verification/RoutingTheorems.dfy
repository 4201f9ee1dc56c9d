/**
 What `Route` writes, cell by cell, and how `FindCoef` follows a path back: a path whose cells are set traces
 to its source, one source can feed many destinations, and traces on other lanes are untouched.
 */
module RoutingTheorems {
  import opened Common
  import opened Routing

  function Or(a: Source, b: Source): Source { if a.Some? then a else b }

  // ---------------------------------------------------------------- what a route writes

  ghost predicate SameButBackplanes(c: Config, c': Config) {
    && c'.carriers == c.carriers && c'.backplanes.Keys == c.backplanes.Keys
    && c'.dummy == c.dummy && c'.backplaneDummy == c.backplaneDummy
  }

  lemma ConnectBEffect(c: Config, id: BackplaneId, src: int, dst: int, lane: int)
    requires id in c.backplanes && BCell(dst, lane) && 0 <= src < 9
    ensures var o := ConnectB(c, id, src, dst, lane);
            && o.ok && SameButBackplanes(c, o.config)
            && forall id', sector, l {:trigger BSource(o.config, id', sector, l)} :: BCell(sector, l) ==>
                 BSource(o.config, id', sector, l)
                 == if id' == id && sector == dst && l == lane then Some(src) else BSource(c, id', sector, l)
  {
  }

  /** The loop over intermediate stacks, cell by cell. */
  lemma {:induction false} BetweenEffect(c: Config, stack: int, end: int, dir: int, part: int, entry: int, exit: int,
                                         lane: int)
    requires Heads(stack, end, dir)
    requires BCell(exit, lane) && 0 <= entry < 9
    requires forall s :: stack <= s < end || end < s <= stack ==> (s, part) in c.backplanes
    ensures var o := Between(c, stack, end, dir, part, entry, exit, lane);
            && o.ok && SameButBackplanes(c, o.config)
            && forall id: BackplaneId, sector, l {:trigger BSource(o.config, id, sector, l)} :: BCell(sector, l) ==>
                 BSource(o.config, id, sector, l)
                 == if id.1 == part && sector == exit && l == lane && (stack <= id.0 < end || end < id.0 <= stack)
                    then Some(entry) else BSource(c, id, sector, l)
    decreases Distance(stack, end)
  {
    hide ConnectB, BSource;
    if stack != end {
      var o := ConnectB(c, (stack, part), entry, exit, lane);
      ConnectBEffect(c, (stack, part), entry, exit, lane);
      BetweenEffect(o.config, stack + dir, end, dir, part, entry, exit, lane);
    }
  }

  /** `c'` is `c` with exactly the cells of the path from `src` to `dst` overwritten. */
  ghost predicate Overwritten(c: Config, c': Config, src: Loc, dst: Loc) {
    && c'.carriers.Keys == c.carriers.Keys && c'.backplanes.Keys == c.backplanes.Keys
    && c'.dummy == c.dummy && c'.backplaneDummy == c.backplaneDummy
    && (forall id, sector, l {:trigger TSource(c', id, sector, l)} :: TCell(sector, l) ==>
          TSource(c', id, sector, l)
          == Or(if l == src.lane - 8 then WantedT(src, dst, id, sector) else None, TSource(c, id, sector, l)))
    && (forall id, sector, l {:trigger BSource(c', id, sector, l)} :: BCell(sector, l) ==>
          BSource(c', id, sector, l)
          == Or(if l == src.lane % 8 then WantedB(src, dst, id, sector) else None, BSource(c, id, sector, l)))
  }

  lemma BackplaneEffect(c: Config, src: Loc, dst: Loc)
    requires Registered(c, src, dst) && CarrierOf(src) != CarrierOf(dst)
    requires 8 <= src.lane < 32 && src.lane == dst.lane && src.carrier < 7 && dst.carrier < 7
    requires RouteBackplane(c, src, dst).ok
    ensures var c' := RouteBackplane(c, src, dst).config;
            && 0 <= src.carrier && 0 <= dst.carrier
            && c'.carriers == c.carriers && c'.backplanes.Keys == c.backplanes.Keys
            && c'.dummy == c.dummy && c'.backplaneDummy == c.backplaneDummy
            && forall id, sector, l {:trigger BSource(c', id, sector, l)} :: BCell(sector, l) ==>
                 BSource(c', id, sector, l)
                 == Or(if l == src.lane % 8 then WantedB(src, dst, id, sector) else None, BSource(c, id, sector, l))
  {
    if src.stack == dst.stack {
      ConnectBEffect(c, (src.stack, Partition(src.lane)), src.carrier, dst.carrier, src.lane % 8);
    } else {
      var up := src.stack < dst.stack;
      CrossStackEffect(c, src, dst, if up then 1 else -1, if up then DOWN else UP, if up then UP else DOWN);
    }
  }

  lemma StacksRegistered(c: Config, src: Loc, dst: Loc, dir: int)
    requires Registered(c, src, dst) && src.stack != dst.stack && dir == (if src.stack < dst.stack then 1 else -1)
    ensures (src.stack, Partition(src.lane)) in c.backplanes && (dst.stack, Partition(src.lane)) in c.backplanes
    ensures forall s :: src.stack + dir <= s < dst.stack || dst.stack < s <= src.stack + dir ==>
                          (s, Partition(src.lane)) in c.backplanes
  {
  }

  lemma CrossStackEffect(c: Config, src: Loc, dst: Loc, dir: int, entry: int, exit: int)
    requires Registered(c, src, dst) && src.stack != dst.stack
    requires dir == (if src.stack < dst.stack then 1 else -1)
    requires exit == (if src.stack < dst.stack then UP else DOWN)
    requires entry == (if src.stack < dst.stack then DOWN else UP)
    requires 8 <= src.lane < 32 && src.lane == dst.lane && src.carrier < 7 && dst.carrier < 7
    requires RouteBackplane(c, src, dst).ok
    ensures var c' := RouteBackplane(c, src, dst).config;
            && 0 <= src.carrier && 0 <= dst.carrier && SameButBackplanes(c, c')
            && forall id, sector, l {:trigger BSource(c', id, sector, l)} :: BCell(sector, l) ==>
                 BSource(c', id, sector, l)
                 == Or(if l == src.lane % 8 then WantedB(src, dst, id, sector) else None, BSource(c, id, sector, l))
  {
    hide ConnectB, Between, RouteBackplane, BSource, Registered;
    StacksRegistered(c, src, dst, dir);
    CrossStackParts(c, src, dst, dir, entry, exit);
    var part, lane := Partition(src.lane), dst.lane % 8;
    var o1 := ConnectB(c, (src.stack, part), src.carrier, exit, lane);
    ConnectBEffect(c, (src.stack, part), src.carrier, exit, lane);
    var o2 := Between(o1.config, src.stack + dir, dst.stack, dir, part, entry, exit, lane);
    BetweenEffect(o1.config, src.stack + dir, dst.stack, dir, part, entry, exit, lane);
    ConnectBEffect(o2.config, (dst.stack, part), entry, dst.carrier, lane);
  }

  /** The three parts of a successful route between stacks. */
  lemma CrossStackParts(c: Config, src: Loc, dst: Loc, dir: int, entry: int, exit: int)
    requires src.stack != dst.stack && RouteBackplane(c, src, dst).ok
    requires dir == (if src.stack < dst.stack then 1 else -1)
    requires exit == (if src.stack < dst.stack then UP else DOWN)
    requires entry == (if src.stack < dst.stack then DOWN else UP)
    ensures 0 <= src.carrier < 9 && 0 <= dst.carrier < 9
    ensures var part, lane := Partition(src.lane), dst.lane % 8;
            var o1 := ConnectB(c, (src.stack, part), src.carrier, exit, lane);
            var o2 := Between(o1.config, src.stack + dir, dst.stack, dir, part, entry, exit, lane);
            && o1.ok && o2.ok
            && RouteBackplane(c, src, dst) == ConnectB(o2.config, (dst.stack, part), entry, dst.carrier, lane)
  {
    hide Between;
  }

  /** A successful route over registered blocks overwrites the cells of its path and nothing else. */
  lemma RouteEffect(c: Config, src: Loc, dst: Loc)
    requires Registered(c, src, dst) && Route(c, src, dst).ok && src.lane >= 8
    ensures src.lane == dst.lane < 32 && -1 <= src.cluster < 3 && -1 <= dst.cluster < 3
    ensures CarrierOf(src) != CarrierOf(dst) ==> 0 <= src.carrier < 7 && 0 <= dst.carrier < 7
    ensures Overwritten(c, Route(c, src, dst).config, src, dst)
  {
    hide RouteStack;
    if CarrierOf(src) != CarrierOf(dst) {
      RouteStackEffect(c, src, dst);
    } else {
    }
  }

  lemma RouteStackEffect(c: Config, src: Loc, dst: Loc)
    requires Registered(c, src, dst) && CarrierOf(src) != CarrierOf(dst) && RouteStack(c, src, dst).ok
    requires src.carrier < 7 && dst.carrier < 7
    ensures 8 <= src.lane == dst.lane < 32 && -1 <= src.cluster < 3 && -1 <= dst.cluster < 3
    ensures 0 <= src.carrier < 7 && 0 <= dst.carrier < 7
    ensures Overwritten(c, RouteStack(c, src, dst).config, src, dst)
  {
    hide RouteBackplane, ConnectT, WantedT, WantedB, Overwritten;
    var o1 := ConnectT(c, CarrierOf(src), src.cluster + 1, 0, src.lane - 8);
    var o2 := ConnectT(o1.config, CarrierOf(dst), 0, dst.cluster + 1, src.lane - 8);
    CarrierEndsEffect(c, src, dst);
    BackplaneEffect(o2.config, src, dst);
    EffectsJoin(c, o2.config, RouteBackplane(o2.config, src, dst).config, src, dst);
  }

  /** Carrier cells written first, backplane cells after that. */
  lemma EffectsJoin(c: Config, m: Config, c': Config, src: Loc, dst: Loc)
    requires m.carriers.Keys == c.carriers.Keys && m.backplanes == c.backplanes
    requires m.dummy == c.dummy && m.backplaneDummy == c.backplaneDummy
    requires forall id, sector, l {:trigger TSource(m, id, sector, l)} :: TCell(sector, l) ==>
               TSource(m, id, sector, l)
               == Or(if l == src.lane - 8 then WantedT(src, dst, id, sector) else None, TSource(c, id, sector, l))
    requires c'.carriers == m.carriers && c'.backplanes.Keys == m.backplanes.Keys
    requires c'.dummy == m.dummy && c'.backplaneDummy == m.backplaneDummy
    requires forall id, sector, l {:trigger BSource(c', id, sector, l)} :: BCell(sector, l) ==>
               BSource(c', id, sector, l)
               == Or(if l == src.lane % 8 then WantedB(src, dst, id, sector) else None, BSource(m, id, sector, l))
    ensures Overwritten(c, c', src, dst)
  {
    hide WantedT, WantedB, Or;
    forall id, sector, l | TCell(sector, l) ensures TSource(c', id, sector, l) == TSource(m, id, sector, l) {
    }
    forall id, sector, l | BCell(sector, l) ensures BSource(m, id, sector, l) == BSource(c, id, sector, l) {
    }
  }

  /** The two carrier connections of a route between carriers. */
  lemma CarrierEndsEffect(c: Config, src: Loc, dst: Loc)
    requires CarrierOf(src) in c.carriers && CarrierOf(dst) in c.carriers && CarrierOf(src) != CarrierOf(dst)
    requires 8 <= src.lane < 32 && ConnectT(c, CarrierOf(src), src.cluster + 1, 0, src.lane - 8).ok
    requires var o1 := ConnectT(c, CarrierOf(src), src.cluster + 1, 0, src.lane - 8);
             ConnectT(o1.config, CarrierOf(dst), 0, dst.cluster + 1, src.lane - 8).ok
    ensures -1 <= src.cluster < 3 && -1 <= dst.cluster < 3
    ensures var o1 := ConnectT(c, CarrierOf(src), src.cluster + 1, 0, src.lane - 8);
            var c' := ConnectT(o1.config, CarrierOf(dst), 0, dst.cluster + 1, src.lane - 8).config;
            && c'.carriers.Keys == c.carriers.Keys && c'.backplanes == c.backplanes
            && c'.dummy == c.dummy && c'.backplaneDummy == c.backplaneDummy
            && forall id, sector, l {:trigger TSource(c', id, sector, l)} :: TCell(sector, l) ==>
                 TSource(c', id, sector, l)
                 == Or(if l == src.lane - 8 then WantedT(src, dst, id, sector) else None, TSource(c, id, sector, l))
  {
  }

  // ---------------------------------------------------------------- following a path back

  /** Steps that certainly suffice for a path: one per stack hop and one per carrier. */
  function Enough(src: Loc, dst: Loc): nat {
    2 + if src.stack <= dst.stack then dst.stack - src.stack else src.stack - dst.stack
  }

  /** From stack `s` on the way back to `src`, the walk arrives at the source carrier. */
  lemma {:induction false} WalkBack(c: Config, src: Loc, dst: Loc, s: int, steps: nat)
    requires 8 <= src.lane < 32 && PathSet(c, src, dst) && 0 <= src.carrier < 7
    requires src.stack <= s < dst.stack || dst.stack < s <= src.stack
    requires steps > if src.stack < dst.stack then s - src.stack else src.stack - s
    ensures BackplaneWalk(c, s, if src.stack < dst.stack then UP else DOWN, Partition(src.lane), src.lane % 8, steps)
         == Arrived(src.stack, src.carrier)
    decreases steps
  {
    var exit := if src.stack < dst.stack then UP else DOWN;
    assert WantedB(src, dst, (s, Partition(src.lane)), exit).Some?;
    if s != src.stack {
      WalkBack(c, src, dst, if src.stack < dst.stack then s - 1 else s + 1, steps - 1);
    }
  }

  lemma WalkFromDestination(c: Config, src: Loc, dst: Loc, steps: nat)
    requires 8 <= src.lane < 32 && PathSet(c, src, dst) && CarrierOf(src) != CarrierOf(dst)
    requires 0 <= src.carrier < 7 && 0 <= dst.carrier < 7 && steps >= Enough(src, dst)
    ensures BackplaneWalk(c, dst.stack, dst.carrier, Partition(src.lane), src.lane % 8, steps)
         == Arrived(src.stack, src.carrier)
  {
    assert WantedB(src, dst, (dst.stack, Partition(src.lane)), dst.carrier).Some?;
    if src.stack != dst.stack {
      WalkBack(c, src, dst, if src.stack < dst.stack then dst.stack - 1 else dst.stack + 1, steps - 1);
    }
  }

  /** A path whose cells are set is traced from its destination to its source. */
  lemma TracePath(c: Config, src: Loc, dst: Loc, steps: nat)
    requires 8 <= src.lane < 32 && src.lane == dst.lane && PathSet(c, src, dst)
    requires 0 <= src.cluster < 3 && -1 <= dst.cluster < 3 && steps >= Enough(src, dst)
    requires CarrierOf(src) != CarrierOf(dst) ==> 0 <= src.carrier < 7 && 0 <= dst.carrier < 7
    ensures FindCoef(c, dst, steps) == Found(src)
  {
    assert WantedT(src, dst, CarrierOf(dst), dst.cluster + 1).Some?;
    if CarrierOf(src) != CarrierOf(dst) {
      WalkFromDestination(c, src, dst, steps);
      assert WantedT(src, dst, CarrierOf(src), 0).Some?;
      assert (dst.lane - 8) % 8 == src.lane % 8;
      var first := dst.(cluster := dst.cluster + 1);
      assert TraceFrom(c, Loc(src.stack, src.carrier, 0, src.lane), {} + {first}, steps - 1) == Found(src);
    }
  }

  /** A trace on a lane from 8 up never answers with a cluster outside 0..2. */
  lemma {:induction false} TraceAnswersRealCluster(c: Config, loc: Loc, visited: set<Loc>, steps: nat)
    requires loc.lane >= 8
    ensures var t := TraceFrom(c, loc, visited, steps); t.Found? ==> 0 <= t.loc.cluster < 3
    decreases steps
  {
    if steps > 0 && loc !in visited && 0 <= loc.cluster < 4 && loc.lane < 32 {
      var lane := loc.lane - 8;
      if TSource(c, CarrierOf(loc), loc.cluster, lane) == Some(0) {
        var w := BackplaneWalk(c, loc.stack, loc.carrier, lane / 8, lane % 8, steps);
        if w.Arrived? {
          TraceAnswersRealCluster(c, Loc(w.stack, w.carrier, 0, loc.lane), visited + {loc}, steps - 1);
        }
      }
    }
  }

  // ---------------------------------------------------------------- the budget does not matter

  lemma {:induction false} WalkStable(c: Config, stack: int, sector: int, part: int, lane: int, n: nat, m: nat)
    requires 0 <= lane < 8 && n <= m && BackplaneWalk(c, stack, sector, part, lane, n) != Moving
    ensures BackplaneWalk(c, stack, sector, part, lane, m) == BackplaneWalk(c, stack, sector, part, lane, n)
    decreases n
  {
    hide BSource;
    if n > 0 && SectorIndex(sector).Some? {
      var v := BSource(c, (stack, part), SectorIndex(sector).value, lane);
      if v == Some(DOWN) { WalkStable(c, stack - 1, UP, part, lane, n - 1, m - 1); }
      if v == Some(UP) { WalkStable(c, stack + 1, DOWN, part, lane, n - 1, m - 1); }
    }
  }

  /** A trace that ends gives the same answer under every larger budget. */
  lemma {:induction false} TraceStable(c: Config, loc: Loc, visited: set<Loc>, n: nat, m: nat)
    requires n <= m && TraceFrom(c, loc, visited, n) != Exhausted
    ensures TraceFrom(c, loc, visited, m) == TraceFrom(c, loc, visited, n)
    decreases n
  {
    hide TSource, BackplaneWalk;
    if loc.lane >= 8 && n > 0 && loc !in visited && 0 <= loc.cluster < 4 && loc.lane < 32 {
      var lane := loc.lane - 8;
      if TSource(c, CarrierOf(loc), loc.cluster, lane) == Some(0) {
        WalkStable(c, loc.stack, loc.carrier, lane / 8, lane % 8, n, m);
        var w := BackplaneWalk(c, loc.stack, loc.carrier, lane / 8, lane % 8, n);
        if w.Arrived? && 0 <= w.carrier <= 6 {
          TraceStable(c, Loc(w.stack, w.carrier, 0, loc.lane), visited + {loc}, n - 1, m - 1);
        }
      }
    }
  }

  /** The loops of `find_coef` end. */
  ghost predicate Ends(c: Config, loc: Loc) {
    exists n: nat :: FindCoef(c, loc, n) != Exhausted
  }

  lemma OneAnswer(c: Config, loc: Loc, n: nat, m: nat)
    requires FindCoef(c, loc, n) != Exhausted && FindCoef(c, loc, m) != Exhausted
    ensures FindCoef(c, loc, n) == FindCoef(c, loc, m)
  {
    hide TraceFrom;
    if loc.lane >= 8 {
      var first := loc.(cluster := loc.cluster + 1);
      if n <= m { TraceStable(c, first, {}, n, m); } else { TraceStable(c, first, {}, m, n); }
    }
  }

  // ---------------------------------------------------------------- fan-out

  /** Routing `src` somewhere else keeps every path that starts at `src`. */
  lemma SameSourceKeepsPath(c: Config, src: Loc, d1: Loc, d2: Loc)
    requires Registered(c, src, d2) && Route(c, src, d2).ok && 8 <= src.lane < 32
    requires PathSet(c, src, d1)
    ensures PathSet(Route(c, src, d2).config, src, d1)
    ensures PathSet(Route(c, src, d2).config, src, d2)
  {
    hide Route, Registered, TSource, BSource;
    RouteEffect(c, src, d2);
  }

  function RouteAll(c: Config, src: Loc, dsts: seq<Loc>): Outcome
    decreases |dsts|
  {
    if dsts == [] then Outcome(c, true)
    else
      var o := Route(c, src, dsts[0]);
      if !o.ok then o else RouteAll(o.config, src, dsts[1..])
  }

  lemma RegisteredStays(c: Config, src: Loc, dst: Loc, s': Loc, d': Loc)
    requires Registered(c, src, dst) && Route(c, src, dst).ok && Registered(c, s', d')
    ensures Registered(Route(c, src, dst).config, s', d')
  {
    if src.lane >= 8 { RouteEffect(c, src, dst); }
  }

  lemma {:induction false} RouteAllKeepsPaths(c: Config, src: Loc, dsts: seq<Loc>, d: Loc)
    requires 8 <= src.lane < 32 && RouteAll(c, src, dsts).ok
    requires forall i :: 0 <= i < |dsts| ==> Registered(c, src, dsts[i])
    requires PathSet(c, src, d) || d in dsts
    ensures PathSet(RouteAll(c, src, dsts).config, src, d)
    ensures d in dsts ==> d.lane == src.lane && -1 <= d.cluster < 3
    ensures d in dsts && CarrierOf(src) != CarrierOf(d) ==> 0 <= src.carrier < 7 && 0 <= d.carrier < 7
    decreases |dsts|
  {
    if dsts != [] {
      var c' := Route(c, src, dsts[0]).config;
      RouteEffect(c, src, dsts[0]);
      if PathSet(c, src, d) { SameSourceKeepsPath(c, src, d, dsts[0]); }
      forall i | 0 <= i < |dsts[1..]| ensures Registered(c', src, dsts[1..][i]) {
        RegisteredStays(c, src, dsts[0], src, dsts[i + 1]);
      }
      RouteAllKeepsPaths(c', src, dsts[1..], d);
    }
  }

  /** One source, any list of destinations: at the end all of them trace back to it at once, exactly if the
      source cluster is a real one. */
  lemma FanOut(c: Config, src: Loc, dsts: seq<Loc>, d: Loc, steps: nat)
    requires 8 <= src.lane < 32 && RouteAll(c, src, dsts).ok
    requires forall i :: 0 <= i < |dsts| ==> Registered(c, src, dsts[i])
    requires d in dsts && steps >= Enough(src, d)
    ensures FindCoef(RouteAll(c, src, dsts).config, d, steps) == Found(src) <==> src.cluster >= 0
  {
    hide PathSet, RouteAll, TraceFrom, Registered;
    RouteAllKeepsPaths(c, src, dsts, d);
    RouteAllSourceCluster(c, src, dsts);
    var r := RouteAll(c, src, dsts).config;
    if src.cluster >= 0 {
      TracePath(r, src, d, steps);
    } else {
      TraceAnswersRealCluster(r, d.(cluster := d.cluster + 1), {}, steps);
    }
  }

  lemma RouteAllSourceCluster(c: Config, src: Loc, dsts: seq<Loc>)
    requires dsts != [] && RouteAll(c, src, dsts).ok
    ensures src.cluster < 3
  {
  }

  // ---------------------------------------------------------------- lanes do not interfere

  /** Two configurations agree on every cell that a trace on `lane` can read. */
  ghost predicate SameLane(c: Config, c': Config, lane: int) {
    && (forall id, sector {:trigger TSource(c', id, sector, lane - 8)} :: TCell(sector, lane - 8) ==>
          TSource(c', id, sector, lane - 8) == TSource(c, id, sector, lane - 8))
    && (forall id: BackplaneId, sector {:trigger BSource(c', id, sector, lane % 8)} ::
          BCell(sector, lane % 8) && id.1 == Partition(lane) ==>
          BSource(c', id, sector, lane % 8) == BSource(c, id, sector, lane % 8))
  }

  lemma {:induction false} SameWalk(c: Config, c': Config, lane: int, stack: int, sector: int, steps: nat)
    requires lane >= 8 && SameLane(c, c', lane)
    ensures BackplaneWalk(c', stack, sector, Partition(lane), lane % 8, steps)
         == BackplaneWalk(c, stack, sector, Partition(lane), lane % 8, steps)
    decreases steps
  {
    hide TSource, BSource;
    if steps > 0 && SectorIndex(sector).Some? {
      var v := BSource(c', (stack, Partition(lane)), SectorIndex(sector).value, lane % 8);
      if v == Some(DOWN) { SameWalk(c, c', lane, stack - 1, UP, steps - 1); }
      if v == Some(UP) { SameWalk(c, c', lane, stack + 1, DOWN, steps - 1); }
    }
  }

  lemma {:induction false} SameTrace(c: Config, c': Config, loc: Loc, visited: set<Loc>, steps: nat)
    requires SameLane(c, c', loc.lane)
    ensures TraceFrom(c', loc, visited, steps) == TraceFrom(c, loc, visited, steps)
    decreases steps
  {
    hide TSource, BSource, BackplaneWalk;
    if loc.lane >= 8 && steps > 0 && loc !in visited && 0 <= loc.cluster < 4 && loc.lane < 32 {
      var lane := loc.lane - 8;
      assert TSource(c', CarrierOf(loc), loc.cluster, loc.lane - 8) == TSource(c, CarrierOf(loc), loc.cluster, lane);
      if TSource(c', CarrierOf(loc), loc.cluster, lane) == Some(0) {
        SameWalk(c, c', loc.lane, loc.stack, loc.carrier, steps);
        assert lane % 8 == loc.lane % 8;
        var w := BackplaneWalk(c', loc.stack, loc.carrier, lane / 8, lane % 8, steps);
        if w.Arrived? {
          SameTrace(c, c', Loc(w.stack, w.carrier, 0, loc.lane), visited + {loc}, steps - 1);
        }
      }
    }
  }

  lemma ConnectTKeepsLanes(c: Config, id: CarrierId, src: int, dst: int, lane: int, other: int)
    requires id in c.carriers && lane != other - 8
    ensures SameLane(c, ConnectT(c, id, src, dst, lane).config, other)
  {
  }

  lemma ConnectBKeepsLanes(c: Config, id: BackplaneId, src: int, dst: int, lane: int, other: int)
    requires id in c.backplanes && (id.1 != Partition(other) || lane != other % 8)
    ensures SameLane(c, ConnectB(c, id, src, dst, lane).config, other)
  {
  }

  lemma ConnectBOk(c: Config, id: BackplaneId, src: int, dst: int, lane: int)
    requires id in c.backplanes && ConnectB(c, id, src, dst, lane).ok
    ensures BCell(dst, lane) && SameButBackplanes(c, ConnectB(c, id, src, dst, lane).config)
  {
  }

  lemma BetweenKeepsLanes(c: Config, c': Config, part: int, exit: int, lane: int, other: int)
    requires SameButBackplanes(c, c') && (part != Partition(other) || lane != other % 8)
    requires forall id: BackplaneId, sector, l {:trigger BSource(c', id, sector, l)} ::
               BCell(sector, l) && !(id.1 == part && sector == exit && l == lane) ==>
                 BSource(c', id, sector, l) == BSource(c, id, sector, l)
    ensures SameLane(c, c', other)
  {
    hide BSource;
  }

  lemma BackplaneKeepsLanes(c: Config, src: Loc, dst: Loc, other: int)
    requires Registered(c, src, dst) && CarrierOf(src) != CarrierOf(dst)
    requires 8 <= src.lane < 32 && src.lane == dst.lane && other != src.lane
    ensures SameLane(c, RouteBackplane(c, src, dst).config, other)
  {
    hide ConnectB, Between, SameLane, BSource;
    var part, lane := Partition(src.lane), dst.lane % 8;
    assert part != Partition(other) || lane != other % 8;
    if src.stack == dst.stack {
      ConnectBKeepsLanes(c, (src.stack, part), src.carrier, dst.carrier, lane, other);
    } else {
      var dir := if src.stack < dst.stack then 1 else -1;
      var exit := if dir == 1 then UP else DOWN;
      var entry := if dir == 1 then DOWN else UP;
      var o1 := ConnectB(c, (src.stack, part), src.carrier, exit, lane);
      ConnectBKeepsLanes(c, (src.stack, part), src.carrier, exit, lane, other);
      if o1.ok {
        ConnectBOk(c, (src.stack, part), src.carrier, exit, lane);
        var o2 := Between(o1.config, src.stack + dir, dst.stack, dir, part, entry, exit, lane);
        BetweenEffect(o1.config, src.stack + dir, dst.stack, dir, part, entry, exit, lane);
        BetweenKeepsLanes(o1.config, o2.config, part, exit, lane, other);
        SameLaneTrans(c, o1.config, o2.config, other);
        ConnectBKeepsLanes(o2.config, (dst.stack, part), entry, dst.carrier, lane, other);
        SameLaneTrans(c, o2.config, ConnectB(o2.config, (dst.stack, part), entry, dst.carrier, lane).config, other);
      }
    }
  }

  /** Writing to the carrier ends leaves every block registered. */
  lemma RegisteredAfterEnds(c: Config, src: Loc, dst: Loc, lane: int)
    requires Registered(c, src, dst)
    ensures var o1 := ConnectT(c, CarrierOf(src), src.cluster + 1, 0, lane);
            var o2 := ConnectT(o1.config, CarrierOf(dst), 0, dst.cluster + 1, lane);
            && CarrierOf(src) in c.carriers && CarrierOf(dst) in o1.config.carriers
            && Registered(o2.config, src, dst)
  {
  }

  lemma SameLaneTrans(a: Config, b: Config, c: Config, lane: int)
    requires SameLane(a, b, lane) && SameLane(b, c, lane)
    ensures SameLane(a, c, lane)
  {
    hide TSource, BSource;
  }

  lemma StackKeepsLanes(c: Config, src: Loc, dst: Loc, other: int)
    requires Registered(c, src, dst) && CarrierOf(src) != CarrierOf(dst)
    requires 8 <= src.lane < 32 && src.lane == dst.lane && other != src.lane
    ensures SameLane(c, RouteStack(c, src, dst).config, other)
  {
    hide ConnectT, RouteBackplane, SameLane, Registered;
    var lane := src.lane - 8;
    var o1 := ConnectT(c, CarrierOf(src), src.cluster + 1, 0, lane);
    RegisteredAfterEnds(c, src, dst, lane);
    ConnectTKeepsLanes(c, CarrierOf(src), src.cluster + 1, 0, lane, other);
    if o1.ok {
      var o2 := ConnectT(o1.config, CarrierOf(dst), 0, dst.cluster + 1, lane);
      ConnectTKeepsLanes(o1.config, CarrierOf(dst), 0, dst.cluster + 1, lane, other);
      SameLaneTrans(c, o1.config, o2.config, other);
      if o2.ok {
        BackplaneKeepsLanes(o2.config, src, dst, other);
        SameLaneTrans(c, o2.config, RouteBackplane(o2.config, src, dst).config, other);
      }
    }
  }

  lemma RouteSameLane(c: Config, src: Loc, dst: Loc, other: int)
    requires Registered(c, src, dst) && other != src.lane
    ensures SameLane(c, Route(c, src, dst).config, other)
  {
    if src.lane == dst.lane && 8 <= src.lane < 32 {
      if CarrierOf(src) == CarrierOf(dst) {
        ConnectTKeepsLanes(c, CarrierOf(dst), src.cluster + 1, dst.cluster + 1, dst.lane - 8, other);
      } else {
        StackKeepsLanes(c, src, dst, other);
      }
    } else {
      assert Route(c, src, dst).config == c;
    }
  }

  /** A route, even one that raises half way, leaves the trace of every location on every other lane
      as it was. */
  lemma RouteKeepsOtherLanes(c: Config, src: Loc, dst: Loc, loc: Loc, steps: nat)
    requires Registered(c, src, dst) && loc.lane != src.lane
    ensures FindCoef(Route(c, src, dst).config, loc, steps) == FindCoef(c, loc, steps)
  {
    RouteSameLane(c, src, dst, loc.lane);
    SameTrace(c, Route(c, src, dst).config, loc.(cluster := loc.cluster + 1), {}, steps);
  }
}
