/**
 The lane allocator of lucipy/circuits.py with the U-, C- and I-block it configures
 (lucipy/elements.py, lucipy/helpers.py, redac/blocks/ublock.py, redac/blocks/iblock.py).

 A state holds the occupancy tables and the three blocks; every operation is a function from a state to
 the state it leaves behind and whether it raised.  Weights are reals.
 */
module Circuits {
  import opened Common

  const LANES := 32
  const FIRST_ACL_LANE := 24
  const PORTS := 8

  // ---------------------------------------------------------------- elements

  /** What may stand on the left of a connection. */
  datatype Source =
    | Integrator(id: nat) | Multiplier(id: nat) | Identity(offset: nat) | Constant(id: nat) | AclIn(port: int)

  /** What may stand on the right; a bare multiplier means its a-input. */
  datatype Target = IntegratorInput(id: nat) | MulInput(mul: nat, idx: nat) | AclOut(port: int)

  predicate LegalSource(s: Source) {
    match s
    case Integrator(id) => id < 8
    case Multiplier(id) => id < 4
    case Identity(offset) => offset < 4
    case Constant(_) => true
    case AclIn(port) => true
  }

  predicate LegalTarget(t: Target) {
    match t
    case IntegratorInput(id) => id < 8
    case MulInput(mul, idx) => mul < 4 && idx < 2
    case AclOut(port) => true
  }

  /** `source_output_lane`, with the constant giver's output chosen by lane. */
  function OutputOn(s: Source, lane: int): int {
    match s
    case Integrator(id) => id
    case Multiplier(id) => 8 + id
    case Identity(offset) => 12 + offset
    case Constant(_) => ConstantOutput(lane)
    case AclIn(port) => FIRST_ACL_LANE + port
  }

  /** `constant_output_for_lane`. */
  function ConstantOutput(lane: int): int {
    if lane < 16 then 15 else 14
  }

  /** `target_m_input`. */
  function MInput(t: Target): int {
    match t
    case IntegratorInput(id) => id
    case MulInput(mul, idx) => 8 + 2 * mul + idx
    case AclOut(port) => FIRST_ACL_LANE + port
  }

  // ---------------------------------------------------------------- state

  datatype State = State(
    general: seq<bool>,            // lanes carrying general signals
    aclIn: seq<bool>,              // allocated ACL_IN ports
    aclOut: seq<bool>,             // allocated ACL_OUT ports
    external: seq<bool>,           // acl_select == "EXTERNAL"
    integrators: seq<bool>,
    multipliers: seq<bool>,
    constants: nat,                // constants allocated
    giver: real,                   // value of the U-block's one constant giver; zero is off
    u: seq<Option<int>>,           // U-block: input forked to each lane
    c: seq<real>,                  // C-block: coefficient of each lane
    up: seq<bool>,                 // I-block: upscaling of each lane
    i: seq<set<int>>)              // I-block: lanes summed into each input

  predicate Shape(st: State) {
    && |st.general| == LANES && |st.u| == LANES && |st.c| == LANES && |st.up| == LANES
    && |st.aclIn| == PORTS && |st.aclOut| == PORTS && |st.external| == PORTS
    && |st.i| == 16 && |st.integrators| == 8 && |st.multipliers| == 4
  }

  function Empty(): (st: State)
    ensures Shape(st)
  {
    State(seq(LANES, _ => false), seq(PORTS, _ => false), seq(PORTS, _ => false), seq(PORTS, _ => false),
          seq(8, _ => false), seq(4, _ => false), 0, 0.0,
          seq(LANES, _ => None), seq(LANES, _ => 1.0), seq(LANES, _ => false), seq(16, _ => {}))
  }

  datatype Outcome = Outcome(st: State, ok: bool)

  // ---------------------------------------------------------------- allocation

  /** `Helpers.next_free` without criterion. */
  function NextFree(occupied: seq<bool>): (r: Option<nat>)
    ensures r.Some? ==> r.value < |occupied| && !occupied[r.value] && forall k :: 0 <= k < r.value ==> occupied[k]
    ensures r.None? ==> forall k :: 0 <= k < |occupied| ==> occupied[k]
  {
    if occupied == [] then None
    else if !occupied[0] then Some(0)
    else
      match NextFree(occupied[1..])
      case None => None
      case Some(k) => Some(k + 1)
  }

  /** Python list index: negative indices count from the end. */
  function PyIndex(i: int, n: nat): Option<nat> {
    if 0 <= i < n then Some(i) else if -(n as int) <= i < 0 then Some(i + n) else None
  }

  datatype Allocated = Allocated(st: State, element: Option<int>)

  /** `int()`: the index of the integrator, or nothing for the ValueError. */
  function NewIntegrator(st: State): (r: Allocated)
    requires Shape(st)
    ensures Shape(r.st)
  {
    match NextFree(st.integrators)
    case None => Allocated(st, None)
    case Some(k) => Allocated(st.(integrators := st.integrators[k := true]), Some(k))
  }

  /** `mul()`. */
  function NewMultiplier(st: State): (r: Allocated)
    requires Shape(st)
    ensures Shape(r.st)
  {
    match NextFree(st.multipliers)
    case None => Allocated(st, None)
    case Some(k) => Allocated(st.(multipliers := st.multipliers[k := true]), Some(k))
  }

  /** `const(value)`: every constant sets the one giver. */
  function NewConstant(st: State, value: real): (r: Allocated)
    requires Shape(st)
    ensures Shape(r.st)
  {
    if st.constants >= 2 then Allocated(st, None)
    else Allocated(st.(constants := st.constants + 1, giver := value), Some(st.constants))
  }

  /** The port that `input` or `output` settles on, given its occupancy table. */
  function ChoosePort(used: seq<bool>, request: Option<int>): Option<int>
    requires |used| == PORTS
  {
    match request
    case None => (match NextFree(used) case None => None case Some(k) => Some(k))
    case Some(p) => if PyIndex(p, PORTS).None? || used[PyIndex(p, PORTS).value] then None else Some(p)
  }

  /** `input(port)`: the port number, or nothing for an exception. */
  function NewInput(st: State, request: Option<int>): (r: Allocated)
    requires Shape(st)
    ensures Shape(r.st)
  {
    match ChoosePort(st.aclIn, request)
    case None => Allocated(st, None)
    case Some(p) =>
      if st.general[FIRST_ACL_LANE + p] then Allocated(st, None)
      else
        var k := PyIndex(p, PORTS).value;
        Allocated(st.(aclIn := st.aclIn[k := true], external := st.external[k := true]), Some(p))
  }

  /** `output(port)`. */
  function NewOutput(st: State, request: Option<int>): (r: Allocated)
    requires Shape(st)
    ensures Shape(r.st)
  {
    match ChoosePort(st.aclOut, request)
    case None => Allocated(st, None)
    case Some(p) =>
      if st.general[FIRST_ACL_LANE + p] then Allocated(st, None)
      else
        var k := PyIndex(p, PORTS).value;
        Allocated(st.(aclOut := st.aclOut[k := true], external := st.external[k := true]), Some(p))
  }

  // ---------------------------------------------------------------- block connections

  /** `UBlock.connect(input, lane, force=False)`. */
  function UConnect(st: State, input: int, lane: int): (r: Outcome)
    requires Shape(st) && 0 <= lane < LANES
    ensures Shape(r.st)
  {
    if st.u[lane].Some? && st.u[lane].value != input then Outcome(st, false)
    else Outcome(st.(u := st.u[lane := Some(input)]), true)
  }

  /** `IBlock.connect(lane, output, force=False)`. */
  function IConnect(st: State, lane: int, output: int): (r: Outcome)
    requires Shape(st)
    ensures Shape(r.st)
  {
    if (exists o :: 0 <= o < 16 && o != output && lane in st.i[o]) || !(0 <= output < 16) then Outcome(st, false)
    else Outcome(st.(i := st.i[output := st.i[output] + {lane}]), true)
  }

  // ---------------------------------------------------------------- connect

  function Abs(w: real): real { if w < 0.0 then -w else w }

  /** `max(1, ceil(abs(weight) / 8))`. */
  function LanesNeeded(w: real): (n: nat)
    ensures n >= 1
  {
    var n := -((-(Abs(w) / 8.0)).Floor);
    if n > 1 then n else 1
  }

  predicate Reserved(st: State, lane: int)
    requires Shape(st) && 0 <= lane < LANES
  {
    lane >= FIRST_ACL_LANE && (st.aclIn[lane - FIRST_ACL_LANE] || st.aclOut[lane - FIRST_ACL_LANE])
  }

  predicate Free(st: State, lane: int)
    requires Shape(st) && 0 <= lane < LANES
  {
    !st.general[lane] && !Reserved(st, lane)
  }

  /** The free lanes from `lane` on, in order. */
  function Available(st: State, lane: nat): (ls: seq<nat>)
    requires Shape(st) && lane <= LANES
    ensures forall k :: 0 <= k < |ls| ==> lane <= ls[k] < LANES && Free(st, ls[k])
    decreases LANES - lane
  {
    if lane == LANES then []
    else if Free(st, lane) then [lane] + Available(st, lane + 1)
    else Available(st, lane + 1)
  }

  lemma AvailableFrom(st: State, lane: nat)
    requires Shape(st) && lane <= LANES
    ensures lane == LANES ==> Available(st, lane) == []
    ensures lane < LANES && Free(st, lane) ==> Available(st, lane) == [lane] + Available(st, lane + 1)
    ensures lane < LANES && !Free(st, lane) ==> Available(st, lane) == Available(st, lane + 1)
  {
  }

  lemma Regroup(a: seq<nat>, x: nat, rest: seq<nat>)
    ensures a + ([x] + rest) == (a + [x]) + rest
  {
  }

  /** The body of the commit loop for one lane. */
  function CommitLane(st: State, src: Source, lane: nat, target: int, w: real): (r: Outcome)
    requires Shape(st) && lane < LANES
    ensures Shape(r.st)
  {
    var st1 := st.(general := st.general[lane := true]);
    var o := UConnect(st1, OutputOn(src, lane), lane);
    if !o.ok then o
    else
      var st2 := o.st;
      var st3 := if Abs(w) > 1.0 then st2.(c := st2.c[lane := w / 8.0], up := st2.up[lane := true])
                 else st2.(c := st2.c[lane := w]);
      IConnect(st3, lane, target)
  }

  function Commit(st: State, src: Source, lanes: seq<nat>, target: int, w: real): (r: Outcome)
    requires Shape(st) && forall k :: 0 <= k < |lanes| ==> lanes[k] < LANES
    ensures Shape(r.st)
    decreases |lanes|
  {
    if lanes == [] then Outcome(st, true)
    else
      var o := CommitLane(st, src, lanes[0], target, w);
      if !o.ok then o else Commit(o.st, src, lanes[1..], target, w)
  }

  /** `connect` between general elements. */
  function ConnectGeneral(st: State, src: Source, t: Target, w: real): (r: Outcome)
    requires Shape(st)
    ensures Shape(r.st)
  {
    var n := LanesNeeded(w);
    var lanes := Available(st, 0);
    if |lanes| < n then Outcome(st, false)
    else Commit(st, src, lanes[..n], MInput(t), w / n as real)
  }

  /** `connect` to an ACL_OUT port. */
  function ConnectAclOut(st: State, src: Source, t: Target, w: real): (r: Outcome)
    requires Shape(st) && t.AclOut? && -PORTS <= t.port < PORTS
    ensures Shape(r.st)
  {
    var lane := FIRST_ACL_LANE + t.port;
    if Abs(w) > 1.0 then Outcome(st, false)
    else
      var o := UConnect(st, OutputOn(src, lane), lane);
      if !o.ok then o else Outcome(o.st.(c := o.st.c[lane := w]), true)
  }

  /** `connect`. */
  function Connect(st: State, src: Source, t: Target, w: real): (r: Outcome)
    requires Shape(st) && (t.AclOut? ==> -PORTS <= t.port < PORTS)
    ensures Shape(r.st)
  {
    if src.AclIn? then IConnect(st, FIRST_ACL_LANE + src.port, MInput(t))
    else if t.AclOut? then ConnectAclOut(st, src, t, w)
    else ConnectGeneral(st, src, t, w)
  }
}
