/**
 The routing classes as the original has them: blocks that are updated in place, a registry that
 shares them between router and tracer, and the loops of `route` and `find_coef`.  Each method is
 proved to do to the blocks what the functions of `Routing` do to their values.
 */
module RoutingBlocks {
  import opened Common
  import opened Routing
  import opened RoutingReachability
  import opened RoutingTheorems

  /** A block's location: missing, a carrier's, or of another depth. */
  datatype Place = Missing | Carrier(id: CarrierId) | Elsewhere

  /** Carrier switch matrix (redac/blocks/tblock.py). */
  class TBlock {
    const location: Place
    var muxes: Muxes

    constructor (location: Place)
      ensures this.location == location && forall i :: 0 <= i < 96 ==> muxes[i] == Some(i % 4)
    {
      this.location := location;
      muxes := seq(96, i => Some(i % 4));
    }

    method Connect(src: int, dst: int, lane: int) returns (ok: bool)
      modifies this
      ensures ok == (0 <= src < 4 && 0 <= dst < 4 && 0 <= lane < 24)
      ensures muxes == if ok then old(muxes)[MuxIndex(dst, lane) := Some(src)] else old(muxes)
    {
      if !(0 <= src < 4) || !(0 <= dst < 4) || !(0 <= lane < 24) { return false; }
      muxes := muxes[MuxIndex(dst, lane) := Some(src)];
      return true;
    }
  }

  /** Backplane switch matrix (redac/blocks/backplane_tblock.py). */
  class BackplaneTBlock {
    const stack: Option<int>
    var sectors: Sectors

    constructor (stack: Option<int>)
      ensures this.stack == stack && forall i, j :: 0 <= i < 9 && 0 <= j < 8 ==> sectors[i][j] == None
    {
      this.stack := stack;
      sectors := seq(9, _ => seq(8, _ => None));
    }

    method Connect(src: int, dst: int, lane: int) returns (ok: bool)
      modifies this
      ensures ok == (0 <= src < 9 && 0 <= dst < 9 && 0 <= lane < 8)
      ensures sectors == if ok then old(sectors)[dst := old(sectors)[dst][lane := Some(src)]] else old(sectors)
    {
      if !(0 <= src < 9) || !(0 <= dst < 9) || !(0 <= lane < 8) { return false; }
      sectors := sectors[dst := sectors[dst][lane := Some(src)]];
      return true;
    }
  }

  ghost predicate NoneTwice(blocks: map<BackplaneId, BackplaneTBlock>) {
    forall i, j :: i in blocks && j in blocks && i != j ==> blocks[i] != blocks[j]
  }

  lemma OneMore(blocks: map<BackplaneId, BackplaneTBlock>, id: BackplaneId, b: BackplaneTBlock)
    requires NoneTwice(blocks) && forall i :: i in blocks && blocks[i] == b ==> i == id
    ensures NoneTwice(blocks[id := b])
  {
  }

  /** `Routing`: the registry, with the methods of `Router` and `Tracer` that work on it. */
  class Network {
    var carrierTBlocks: map<CarrierId, TBlock>
    var backplaneTBlocks: map<BackplaneId, BackplaneTBlock>
    const dummy: TBlock
    const backplaneDummy: BackplaneTBlock

    constructor ()
      ensures Valid() && Fresh(View()) && View().carriers == map[] && View().backplanes == map[]
      ensures fresh(dummy) && fresh(backplaneDummy)
    {
      carrierTBlocks, backplaneTBlocks := map[], map[];
      dummy := new TBlock(Missing);
      backplaneDummy := new BackplaneTBlock(None);
      new;
      assert forall sector, lane :: TCell(sector, lane) ==> MuxIndex(sector, lane) % 4 == sector;
    }

    /** `add_t_block`: under the block's own location if that is a carrier's; otherwise the block is skipped.
        A block without a location raises. */
    method AddCarrier(b: TBlock) returns (ok: bool)
      requires Valid()
      modifies this`carrierTBlocks
      ensures Valid() && ok == !b.location.Missing?
      ensures View() == if b.location.Carrier?
                        then old(View()).(carriers := old(View()).carriers[b.location.id := b.muxes])
                        else old(View())
    {
      if b.location.Missing? { return false; }
      if b.location.Carrier? {
        carrierTBlocks := carrierTBlocks[b.location.id := b];
        assert View().carriers == old(View()).carriers[b.location.id := b.muxes];
        assert View().backplanes == old(View()).backplanes;
      }
      ok := true;
    }

    /** `add_t_bpl_block`: under the block's own stack and the given partition; a block without a stack
        raises.  The caller keeps one block object for one partition. */
    method AddBackplane(idx: int, b: BackplaneTBlock) returns (ok: bool)
      requires Valid() && forall id :: id in backplaneTBlocks && backplaneTBlocks[id] == b ==> id.1 == idx
      modifies this`backplaneTBlocks
      ensures Valid() && ok == b.stack.Some?
      ensures View() == if ok then old(View()).(backplanes := old(View()).backplanes[(b.stack.value, idx) := b.sectors])
                        else old(View())
    {
      hide NoneTwice;
      if b.stack.None? { return false; }
      OneMore(backplaneTBlocks, (b.stack.value, idx), b);
      backplaneTBlocks := backplaneTBlocks[(b.stack.value, idx) := b];
      assert View().backplanes == old(View()).backplanes[(b.stack.value, idx) := b.sectors];
      assert View().carriers == old(View()).carriers;
      ok := true;
    }

    ghost function CarrierSet(): set<object>
      reads this
    {
      (set id | id in carrierTBlocks :: carrierTBlocks[id]) + {dummy}
    }

    ghost function BackplaneSet(): set<object>
      reads this
    {
      (set id | id in backplaneTBlocks :: backplaneTBlocks[id]) + {backplaneDummy}
    }

    /** Blocks stand under their own locations, which the dummies do not have; no backplane block is
        registered twice. */
    ghost predicate Valid()
      reads this
    {
      && dummy.location == Missing && backplaneDummy.stack == None
      && (forall i :: i in carrierTBlocks ==> carrierTBlocks[i].location == Carrier(i))
      && (forall i :: i in backplaneTBlocks ==> backplaneTBlocks[i].stack == Some(i.0))
      && NoneTwice(backplaneTBlocks)
    }

    /** The switch tables as values. */
    ghost function View(): Config
      reads this, CarrierSet(), BackplaneSet()
    {
      Config(map id | id in carrierTBlocks :: carrierTBlocks[id].muxes,
             map id | id in backplaneTBlocks :: backplaneTBlocks[id].sectors,
             dummy.muxes, backplaneDummy.sectors)
    }

    function FindCarrierTBlock(id: CarrierId): TBlock
      reads this
    {
      if id in carrierTBlocks then carrierTBlocks[id] else dummy
    }

    function FindBackplaneTBlock(id: BackplaneId): BackplaneTBlock
      reads this
    {
      if id in backplaneTBlocks then backplaneTBlocks[id] else backplaneDummy
    }

    function CarrierSource(id: CarrierId, sector: int, lane: int): (source: Source)
      requires TCell(sector, lane)
      reads this, CarrierSet(), BackplaneSet()
      ensures source == TSource(View(), id, sector, lane)
    {
      FindCarrierTBlock(id).muxes[MuxIndex(sector, lane)]
    }

    function BackplaneSource(id: BackplaneId, sector: int, lane: int): (source: Source)
      requires BCell(sector, lane)
      reads this, CarrierSet(), BackplaneSet()
      ensures source == BSource(View(), id, sector, lane)
    {
      FindBackplaneTBlock(id).sectors[sector][lane]
    }

    method ConnectCarrier(id: CarrierId, src: int, dst: int, lane: int) returns (ok: bool)
      requires Valid()
      modifies CarrierSet()
      ensures Outcome(View(), ok) == old(ConnectT(View(), id, src, dst, lane))
    {
      var b := FindCarrierTBlock(id);
      ok := b.Connect(src, dst, lane);
      assert View().backplanes == old(View().backplanes);
      assert View().carriers == old(ConnectT(View(), id, src, dst, lane).config.carriers);
    }

    method ConnectBackplane(id: BackplaneId, src: int, dst: int, lane: int) returns (ok: bool)
      requires Valid()
      modifies BackplaneSet()
      ensures Outcome(View(), ok) == old(ConnectB(View(), id, src, dst, lane))
    {
      var b := FindBackplaneTBlock(id);
      ok := b.Connect(src, dst, lane);
      assert View().carriers == old(View().carriers);
      assert View().backplanes == old(ConnectB(View(), id, src, dst, lane).config.backplanes);
    }

    /** `Router.route`; false stands for the exception raised. */
    method RouteSignal(src: Loc, dst: Loc) returns (ok: bool)
      requires Valid()
      modifies CarrierSet(), BackplaneSet()
      ensures Outcome(View(), ok) == old(Route(View(), src, dst))
    {
      hide ConnectT, RouteStack;
      if !(src.carrier < 7 && dst.carrier < 7 && src.cluster < 3 && dst.cluster < 3 && src.lane < 32 && dst.lane < 32) {
        return false;
      }
      if CarrierOf(src) == CarrierOf(dst) {
        if src.cluster == dst.cluster {
          if src.lane < 8 { return src == dst; }
          if src.lane != dst.lane { return false; }
        } else if src.lane != dst.lane || 0 <= src.lane < 8 {
          return false;
        }
        ok := ConnectCarrier(CarrierOf(dst), src.cluster + 1, dst.cluster + 1, dst.lane - 8);
      } else {
        ok := RouteStackSignal(src, dst);
      }
    }

    method RouteStackSignal(src: Loc, dst: Loc) returns (ok: bool)
      requires Valid()
      modifies CarrierSet(), BackplaneSet()
      ensures Outcome(View(), ok) == old(RouteStack(View(), src, dst))
    {
      hide ConnectT, RouteBackplane;
      if src.lane != dst.lane || !(8 <= src.lane < 32) { return false; }
      ok := ConnectCarrier(CarrierOf(src), src.cluster + 1, 0, src.lane - 8);
      if !ok { return; }
      ok := ConnectCarrier(CarrierOf(dst), 0, dst.cluster + 1, src.lane - 8);
      if !ok { return; }
      ok := RouteBackplaneSignal(src, dst);
    }

    method RouteBackplaneSignal(src: Loc, dst: Loc) returns (ok: bool)
      requires Valid()
      modifies BackplaneSet()
      ensures Outcome(View(), ok) == old(RouteBackplane(View(), src, dst))
    {
      hide ConnectB, Between;
      var part, lane := Partition(src.lane), dst.lane % 8;
      if src.stack == dst.stack {
        ok := ConnectBackplane((src.stack, part), src.carrier, dst.carrier, lane);
        return;
      }
      var dir := if src.stack < dst.stack then 1 else -1;
      var exit := if dir == 1 then UP else DOWN;
      var entry := if dir == 1 then DOWN else UP;
      ok := ConnectBackplane((src.stack, part), src.carrier, exit, lane);
      if !ok { return; }
      ok := RouteBetween(src.stack + dir, dst.stack, dir, part, entry, exit, lane);
      if !ok { return; }
      ok := ConnectBackplane((dst.stack, part), entry, dst.carrier, lane);
    }

    method RouteBetween(start: int, end: int, dir: int, part: int, entry: int, exit: int, lane: int) returns (ok: bool)
      requires Valid() && Heads(start, end, dir)
      modifies BackplaneSet()
      ensures Outcome(View(), ok) == old(Between(View(), start, end, dir, part, entry, exit, lane))
    {
      hide ConnectB;
      ghost var goal := Between(View(), start, end, dir, part, entry, exit, lane);
      ok := true;
      var stack := start;
      while stack != end
        invariant Heads(stack, end, dir) && ok
        invariant Between(View(), stack, end, dir, part, entry, exit, lane) == goal
        decreases Distance(stack, end)
      {
        ok := ConnectBackplane((stack, part), entry, exit, lane);
        if !ok { return; }
        stack := stack + dir;
      }
    }

    /** `Tracer.find_coef`, wherever its two loops end: the answer does not depend on how long they may run. */
    method Trace(loc: Loc) returns (t: Trace)
      requires Valid() && Ends(View(), loc)
      ensures t != Exhausted && exists n: nat :: t == FindCoef(View(), loc, n)
      ensures forall n: nat :: FindCoef(View(), loc, n) == t || FindCoef(View(), loc, n) == Exhausted
      ensures Inv(View(), true) ==> t != Cycle
    {
      hide Inv, TraceFrom;
      ghost var c := View();
      if loc.lane < 8 {
        t := Found(loc);
        assert t == FindCoef(c, loc, 0);
        return;
      }
      ghost var steps := EnoughSteps(c, loc);
      t := TraceLoop(loc.(cluster := loc.cluster + 1), c, steps);
      assert t == FindCoef(c, loc, steps);
      forall n: nat | FindCoef(c, loc, n) != Exhausted ensures FindCoef(c, loc, n) == t {
        OneAnswer(c, loc, n, steps);
      }
    }

    /** The outer loop of `find_coef`, given that `budget` steps are enough. */
    method TraceLoop(first: Loc, ghost c: Config, ghost budget: nat) returns (t: Trace)
      requires c == View() && first.lane >= 8 && TraceFrom(c, first, {}, budget) != Exhausted
      ensures t == TraceFrom(c, first, {}, budget) && c == View()
    {
      hide TSource, BSource, BackplaneWalk;
      var at, visited: set<Loc> := first, {};
      ghost var left := budget;
      while true
        invariant at.lane == first.lane && View() == c
        invariant TraceFrom(c, at, visited, left) == TraceFrom(c, first, {}, budget)
        decreases left
      {
        if at in visited { return Cycle; }
        assert left > 0;
        if !(0 <= at.cluster < 4) || at.lane >= 32 { return Raised; }
        var lane := at.lane - 8;
        var source := CarrierSource(CarrierOf(at), at.cluster, lane);
        if source.None? || !(0 <= source.value < 4) { return NoSource; }
        if source.value != 0 { return Found(Loc(at.stack, at.carrier, source.value - 1, at.lane)); }
        var w := WalkBackplane(at.stack, at.carrier, lane / 8, lane % 8, c, left);
        match w {
          case Lost => return NoSource;
          case Arrived(stack, carrier) =>
            if !(0 <= carrier <= 6) { return Raised; }
            visited := visited + {at};
            at := Loc(stack, carrier, 0, at.lane);
          case _ => return Raised;
        }
        left := left - 1;
      }
    }

    /** The inner loop of `find_coef`, given that `budget` steps are enough. */
    method WalkBackplane(stack0: int, sector0: int, part: int, lane: int,
                         ghost c: Config, ghost budget: nat) returns (w: Walk)
      requires c == View() && 0 <= lane < 8
      requires BackplaneWalk(c, stack0, sector0, part, lane, budget) != Moving
      ensures w == BackplaneWalk(c, stack0, sector0, part, lane, budget) && c == View()
    {
      hide BSource;
      ghost var goal := BackplaneWalk(c, stack0, sector0, part, lane, budget);
      var stack, sector := stack0, sector0;
      ghost var left := budget;
      while true
        invariant BackplaneWalk(c, stack, sector, part, lane, left) == goal
        decreases left
      {
        assert left > 0;
        var i := SectorIndex(sector);
        if i.None? { return Crash; }
        var source := BackplaneSource((stack, part), i.value, lane);
        if source.None? { return Lost; }
        if source.value == DOWN {
          stack, sector := stack - 1, UP;
        } else if source.value == UP {
          stack, sector := stack + 1, DOWN;
        } else {
          return Arrived(stack, source.value);
        }
        left := left - 1;
      }
    }
  }

  /** The loops end on every table that satisfies the invariant, so after any routes over registered blocks. */
  lemma InvEnds(c: Config, loc: Loc)
    requires Inv(c, false)
    ensures Ends(c, loc)
  {
    hide Inv, FindCoef;
    var lo, hi := StackBounds(c.backplanes.Keys);
    EveryTraceEnds(c, loc, lo, hi, AllRounds(lo, hi, loc.lane));
  }

  lemma EnoughSteps(c: Config, loc: Loc) returns (steps: nat)
    requires Ends(c, loc)
    ensures FindCoef(c, loc, steps) != Exhausted
    ensures Inv(c, true) ==> FindCoef(c, loc, steps) != Cycle
  {
    hide Inv, FindCoef;
    steps :| FindCoef(c, loc, steps) != Exhausted;
    if Inv(c, true) {
      var lo, hi := StackBounds(c.backplanes.Keys);
      EveryTraceStops(c, loc, lo, hi, hi - lo + 3);
      OneAnswer(c, loc, steps, hi - lo + 3);
    }
  }

  /** A finite set of blocks lies between two stacks. */
  lemma StackBounds(keys: set<BackplaneId>) returns (lo: int, hi: int)
    ensures lo <= hi && forall id :: id in keys ==> lo <= id.0 <= hi
  {
    if keys == {} {
      lo, hi := 0, 0;
    } else {
      var k :| k in keys;
      lo, hi := StackBounds(keys - {k});
      lo := if k.0 < lo then k.0 else lo;
      hi := if k.0 > hi then k.0 else hi;
    }
  }
}
