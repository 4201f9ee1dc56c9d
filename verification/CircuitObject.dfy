/**
 The `Circuit` object: occupancy lists and block fields updated by every call.  Each method is proved to
 take the fields where the functions of `Circuits` take the state.
 */
module CircuitObject {
  import opened Common
  import opened Circuits

  class Circuit {
    const circuitId: nat
    var generalLanesUsed: seq<bool>
    var aclInUsed: seq<bool>
    var aclOutUsed: seq<bool>
    var aclSelectExternal: seq<bool>
    var integratorsUsed: seq<bool>
    var multipliersUsed: seq<bool>
    var constantsAllocated: nat
    var ublockConstant: real
    var ublockOutputs: seq<Option<int>>
    var cblockFactors: seq<real>
    var iblockUpscaling: seq<bool>
    var iblockOutputs: seq<set<int>>

    ghost function View(): State
      reads this
    {
      State(generalLanesUsed, aclInUsed, aclOutUsed, aclSelectExternal, integratorsUsed, multipliersUsed,
            constantsAllocated, ublockConstant, ublockOutputs, cblockFactors, iblockUpscaling, iblockOutputs)
    }

    constructor (circuitId: nat)
      ensures Shape(View()) && View() == Empty() && this.circuitId == circuitId
    {
      this.circuitId := circuitId;
      generalLanesUsed := seq(LANES, _ => false);
      aclInUsed, aclOutUsed := seq(PORTS, _ => false), seq(PORTS, _ => false);
      aclSelectExternal := seq(PORTS, _ => false);
      integratorsUsed, multipliersUsed := seq(8, _ => false), seq(4, _ => false);
      constantsAllocated, ublockConstant := 0, 0.0;
      ublockOutputs := seq(LANES, _ => None);
      cblockFactors := seq(LANES, _ => 1.0);
      iblockUpscaling := seq(LANES, _ => false);
      iblockOutputs := seq(16, _ => {});
    }

    /** `const(value)`: at most two, all sharing the one giver. */
    method MakeConstant(value: real) returns (id: Option<int>)
      requires Shape(View())
      modifies this
      ensures Allocated(View(), id) == old(NewConstant(View(), value))
    {
      if constantsAllocated >= 2 { return None; }
      id := Some(constantsAllocated);
      constantsAllocated := constantsAllocated + 1;
      ublockConstant := value;
    }

    /** `input(port)`. */
    method MakeInput(request: Option<int>) returns (port: Option<int>)
      requires Shape(View())
      modifies this
      ensures Allocated(View(), port) == old(NewInput(View(), request))
    {
      port := ChoosePort(aclInUsed, request);
      if port.None? || generalLanesUsed[FIRST_ACL_LANE + port.value] { return None; }
      var k := PyIndex(port.value, PORTS).value;
      aclInUsed := aclInUsed[k := true];
      aclSelectExternal := aclSelectExternal[k := true];
    }

    /** `output(port)`. */
    method MakeOutput(request: Option<int>) returns (port: Option<int>)
      requires Shape(View())
      modifies this
      ensures Allocated(View(), port) == old(NewOutput(View(), request))
    {
      port := ChoosePort(aclOutUsed, request);
      if port.None? || generalLanesUsed[FIRST_ACL_LANE + port.value] { return None; }
      var k := PyIndex(port.value, PORTS).value;
      aclOutUsed := aclOutUsed[k := true];
      aclSelectExternal := aclSelectExternal[k := true];
    }

    method UConnectLane(input: int, lane: int) returns (ok: bool)
      requires Shape(View()) && 0 <= lane < LANES
      modifies this`ublockOutputs
      ensures Outcome(View(), ok) == old(UConnect(View(), input, lane))
    {
      if ublockOutputs[lane].Some? && ublockOutputs[lane].value != input { return false; }
      ublockOutputs := ublockOutputs[lane := Some(input)];
      return true;
    }

    method IConnectLane(lane: int, output: int) returns (ok: bool)
      requires Shape(View())
      modifies this`iblockOutputs
      ensures Outcome(View(), ok) == old(IConnect(View(), lane, output))
    {
      var o := 0;
      while o < 16
        invariant 0 <= o <= 16 && forall k :: 0 <= k < o && k != output ==> lane !in iblockOutputs[k]
      {
        if o != output && lane in iblockOutputs[o] { return false; }
        o := o + 1;
      }
      if !(0 <= output < 16) { return false; }
      iblockOutputs := iblockOutputs[output := iblockOutputs[output] + {lane}];
      return true;
    }

    /** The validation loop of `connect`. */
    method AvailableLanes() returns (lanes: seq<nat>)
      requires Shape(View())
      ensures lanes == Available(View(), 0)
    {
      hide Available;
      lanes := [];
      ghost var st := View();
      assert [] + Available(st, 0) == Available(st, 0);
      for lane := 0 to LANES
        invariant lanes + Available(st, lane) == Available(st, 0)
      {
        AvailableFrom(st, lane);
        Regroup(lanes, lane, Available(st, lane + 1));
        if !generalLanesUsed[lane] {
          if !(lane >= FIRST_ACL_LANE && (aclInUsed[lane - FIRST_ACL_LANE] || aclOutUsed[lane - FIRST_ACL_LANE])) {
            lanes := lanes + [lane];
          }
        }
      }
      AvailableFrom(st, LANES);
    }

    /** The body of the commit loop of `connect`. */
    method CommitOne(src: Source, lane: nat, target: int, w: real) returns (ok: bool)
      requires Shape(View()) && lane < LANES
      modifies this
      ensures Shape(View()) && Outcome(View(), ok) == old(CommitLane(View(), src, lane, target, w))
    {
      generalLanesUsed := generalLanesUsed[lane := true];
      ok := UConnectLane(OutputOn(src, lane), lane);
      if !ok { return; }
      if Abs(w) > 1.0 {
        cblockFactors := cblockFactors[lane := w / 8.0];
        iblockUpscaling := iblockUpscaling[lane := true];
      } else {
        cblockFactors := cblockFactors[lane := w];
      }
      ok := IConnectLane(lane, target);
    }

    /** `connect` with the circuits its two elements belong to; false stands for the exception.  Elements of
        another circuit, or of none, are refused before anything changes. */
    method ConnectElements(src: Source, srcCircuit: Option<nat>, t: Target, tCircuit: Option<nat>, w: real)
      returns (ok: bool)
      requires Shape(View()) && (t.AclOut? ==> -PORTS <= t.port < PORTS)
      modifies this
      ensures Shape(View())
      ensures Outcome(View(), ok) == if srcCircuit == tCircuit == Some(circuitId) then old(Connect(View(), src, t, w))
                                     else Outcome(old(View()), false)
    {
      if srcCircuit.None? || tCircuit.None? { return false; }
      if srcCircuit.value != circuitId { return false; }
      if tCircuit.value != circuitId { return false; }
      if src.AclIn? {
        ok := IConnectLane(FIRST_ACL_LANE + src.port, MInput(t));
      } else if t.AclOut? {
        if Abs(w) > 1.0 { return false; }
        var lane := FIRST_ACL_LANE + t.port;
        ok := UConnectLane(OutputOn(src, lane), lane);
        if ok { cblockFactors := cblockFactors[lane := w]; }
      } else {
        var n := LanesNeeded(w);
        var lanes := AvailableLanes();
        if |lanes| < n { return false; }
        ok := CommitAll(src, lanes[..n], MInput(t), w / n as real);
      }
    }

    /** The commit loop. */
    method CommitAll(src: Source, lanes: seq<nat>, target: int, w: real) returns (ok: bool)
      requires Shape(View()) && forall k :: 0 <= k < |lanes| ==> lanes[k] < LANES
      modifies this
      ensures Shape(View()) && Outcome(View(), ok) == old(Commit(View(), src, lanes, target, w))
    {
      ok := true;
      var k := 0;
      ghost var goal := Commit(View(), src, lanes, target, w);
      while k < |lanes|
        invariant 0 <= k <= |lanes| && ok && Shape(View())
        invariant Commit(View(), src, lanes[k..], target, w) == goal
      {
        assert lanes[k..][0] == lanes[k] && lanes[k..][1..] == lanes[k + 1..];
        ok := CommitOne(src, lanes[k], target, w);
        if !ok { return; }
        k := k + 1;
      }
    }
  }
}
