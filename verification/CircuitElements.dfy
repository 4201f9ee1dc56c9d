/**
 Which M-block inputs and outputs the elements stand for, which lanes, coefficients and ports a connection uses, and
 the map of a whole run told by pairs of elements (lucipy/elements.py, lucipy/circuits.py).
 */
module CircuitElements {
  import opened Common
  import opened Circuits
  import opened CircuitTheorems
  import opened CircuitConnections
  import opened CircuitRuns

  // ---------------------------------------------------------------- numbering

  /** Integrators take inputs 0-7, the a- and b-input of multiplier m inputs 8 + 2m and 9 + 2m. */
  lemma InputNumbers(t: Target)
    requires LegalTarget(t) && !t.AclOut?
    ensures 0 <= MInput(t) < 16
    ensures t.IntegratorInput? ==> MInput(t) == t.id < 8
    ensures t.MulInput? && t.idx == 0 ==> MInput(t) == 8 + 2 * t.mul
    ensures t.MulInput? && t.idx == 1 ==> MInput(t) == 9 + 2 * t.mul
  {
  }

  /** Two targets never share an input, */
  lemma InputsDistinct(t: Target, u: Target)
    requires LegalTarget(t) && !t.AclOut? && LegalTarget(u) && !u.AclOut?
    ensures MInput(t) == MInput(u) <==> t == u
  {
  }

  /** and every input has a target. */
  lemma InputsOnto(k: nat) returns (t: Target)
    requires k < 16
    ensures LegalTarget(t) && !t.AclOut? && MInput(t) == k
  {
    t := if k < 8 then IntegratorInput(k) else MulInput((k - 8) / 2, (k - 8) % 2);
  }

  /** Integrators drive outputs 0-7, multipliers 8-11, identities 12-15; constants stand for the giver, which is on
      output 15 for lanes 0-15 and on output 14 for lanes 16-31. */
  lemma OutputNumbers(s: Source, lane: nat)
    requires LegalSource(s) && lane < 32
    ensures s.Integrator? ==> SignalOf(s) == MOutput(s.id) && OutputOn(s, lane) == s.id < 8
    ensures s.Multiplier? ==> SignalOf(s) == MOutput(8 + s.id) && OutputOn(s, lane) == 8 + s.id < 12
    ensures s.Identity? ==> SignalOf(s) == MOutput(12 + s.offset) && OutputOn(s, lane) == 12 + s.offset < 16
    ensures s.Constant? ==> SignalOf(s) == Giver && OutputOn(s, lane) == if lane <= 15 then 15 else 14
  {
  }

  /** Two sources share a signal only if both are constants. */
  lemma SourcesDistinct(s: Source, u: Source)
    requires LegalSource(s) && !s.AclIn? && LegalSource(u) && !u.AclIn?
    ensures SignalOf(s) == SignalOf(u) <==> s == u || (s.Constant? && u.Constant?)
  {
  }

  // ---------------------------------------------------------------- the map, by pairs

  /** The weights asked for between a source and a target; all constants count as one source. */
  function Between(log: seq<Request>, s: Source, t: Target): real {
    if log == [] then 0.0
    else
      var r := log[|log| - 1];
      Between(log[..|log| - 1], s, t)
      + if r.t == t && (r.src == s || (r.src.Constant? && s.Constant?)) then r.w else 0.0
  }

  lemma {:induction false} RequestedIsBetween(log: seq<Request>, s: Source, t: Target)
    requires LegalLog(log) && LegalSource(s) && !s.AclIn? && LegalTarget(t) && !t.AclOut?
    ensures Requested(log, SignalOf(s), MInput(t)) == Between(log, s, t)
  {
    hide SignalOf, MInput, LegalSource, LegalTarget;
    if log != [] {
      var r := log[|log| - 1];
      RequestedIsBetween(log[..|log| - 1], s, t);
      SourcesDistinct(r.src, s);
      InputsDistinct(r.t, t);
    }
  }

  /** Main result by elements: after any run in which no connection was given a shadowed lane, the blocks pass from
      each source to each target exactly the weights that were asked for between those two. */
  lemma PairsRealised(cmds: seq<Command>, s: Source, t: Target)
    requires AllAllowed(Empty(), cmds) && LegalSource(s) && !s.AclIn? && LegalTarget(t) && !t.AclOut?
    ensures MInput(t) < 16
    ensures var st, log := Run(Empty(), cmds), Log(Empty(), cmds);
            AllCarried(log, st.giver != 0.0) ==>
              Realised(st, st.giver != 0.0, SignalOf(s), MInput(t)) == Between(log, s, t)
  {
    hide Run, Log, AllCarried, Realised, SignalOf, Between, LegalLog;
    InputNumbers(t);
    CircuitRealisesRequests(cmds, SignalOf(s), MInput(t));
    LogIsLegal(Empty(), cmds);
    RequestedIsBetween(Log(Empty(), cmds), s, t);
  }

  // ---------------------------------------------------------------- lanes

  /** The least number of lanes that can carry a weight, eight units on each. */
  lemma LanesNeededLeast(w: real)
    ensures var n := LanesNeeded(w);
            && n >= 1 && -8.0 * n as real <= w <= 8.0 * n as real
            && (n > 1 ==> w < -8.0 * (n - 1) as real || w > 8.0 * (n - 1) as real)
  {
    LanesNeededCovers(w);
    var x := Abs(w) / 8.0;
    var f := (-x).Floor;
    assert f as real <= -x < f as real + 1.0;
  }

  /** A lane can be given to a connection exactly if it is in no general use and no port is open on it, */
  lemma {:induction false} AvailableExactly(st: State, from: nat, l: nat)
    requires Shape(st) && from <= 32
    ensures l in Available(st, from) <==>
            from <= l < 32 && !st.general[l] && !(l >= 24 && (st.aclIn[l - 24] || st.aclOut[l - 24]))
    decreases 32 - from
  {
    if from < 32 {
      AvailableExactly(st, from + 1, l);
    }
  }

  /** and lower lanes come first. */
  lemma {:induction false} AvailableIncreases(st: State, from: nat, j: nat, k: nat)
    requires Shape(st) && from <= 32 && j < k < |Available(st, from)|
    ensures Available(st, from)[j] < Available(st, from)[k]
    decreases 32 - from
  {
    hide Available, Free, Shape;
    AvailableFrom(st, from);
    if from < 32 && !Free(st, from) {
      AvailableIncreases(st, from + 1, j, k);
    } else if from < 32 && j > 0 {
      AvailableIncreases(st, from + 1, j - 1, k - 1);
    }
  }

  /** What committing one unused lane configures: weights of at most one as they are, larger ones as an eighth with
      the lane upscaled by eight.  Nothing else changes. */
  lemma LaneConfigured(st: State, src: Source, lane: nat, t: Target, w: real)
    requires Shape(st) && lane < 32 && Untouched(st, lane) && LegalTarget(t) && !t.AclOut?
    ensures MInput(t) < 16
    ensures var plain := -1.0 <= w <= 1.0;
            CommitLane(st, src, lane, MInput(t), w)
            == Outcome(st.(general := st.general[lane := true], u := st.u[lane := Some(OutputOn(src, lane))],
                           c := st.c[lane := if plain then w else w / 8.0],
                           up := st.up[lane := !plain],
                           i := st.i[MInput(t) := st.i[MInput(t)] + {lane}]), true)
  {
    assert st.up[lane := false] == st.up;
  }

  // ---------------------------------------------------------------- ports

  /** A connection from input port p puts lane 24 + p into its target's sum, unless that lane feeds another input. */
  lemma InputConnected(st: State, port: int, t: Target, w: real)
    requires Shape(st) && LegalTarget(t) && !t.AclOut?
    ensures MInput(t) < 16
    ensures Connect(st, AclIn(port), t, w)
         == if exists o :: 0 <= o < 16 && o != MInput(t) && 24 + port in st.i[o] then Outcome(st, false)
            else Outcome(st.(i := st.i[MInput(t) := st.i[MInput(t)] + {24 + port}]), true)
  {
  }

  /** A connection to output port p puts its source on lane 24 + p with a coefficient of at most one; it is refused
      for larger weights and where the lane has another input. */
  lemma OutputConnected(st: State, src: Source, port: int, w: real)
    requires Shape(st) && -8 <= port < 8 && LegalSource(src) && !src.AclIn?
    ensures var lane, out := 24 + port, Some(OutputOn(src, 24 + port));
            Connect(st, src, AclOut(port), w)
            == if w < -1.0 || w > 1.0 || (st.u[lane] != None && st.u[lane] != out) then Outcome(st, false)
               else Outcome(st.(u := st.u[lane := out], c := st.c[lane := w]), true)
  {
  }

  /** The place of a port in its table: Python counts negative numbers from the end. */
  function Place(p: int): int {
    if p < 0 then p + 8 else p
  }

  /** A requested input port is opened exactly if it exists, is closed, and lane 24 + p is in no general use. */
  lemma InputOpened(st: State, p: int)
    requires Shape(st)
    ensures NewInput(st, Some(p))
         == if -8 <= p < 8 && !st.aclIn[Place(p)] && !st.general[24 + p]
            then Allocated(st.(aclIn := st.aclIn[Place(p) := true], external := st.external[Place(p) := true]),
                           Some(p))
            else Allocated(st, None)
  {
  }

  lemma OutputOpened(st: State, p: int)
    requires Shape(st)
    ensures NewOutput(st, Some(p))
         == if -8 <= p < 8 && !st.aclOut[Place(p)] && !st.general[24 + p]
            then Allocated(st.(aclOut := st.aclOut[Place(p) := true], external := st.external[Place(p) := true]),
                           Some(p))
            else Allocated(st, None)
  {
  }

  /** Without a request it is the first closed port, or none if all are open. */
  lemma FirstPort(st: State, p: nat)
    requires Shape(st) && p < 8
    ensures !st.aclIn[p] && (forall k :: 0 <= k < p ==> st.aclIn[k]) ==> NewInput(st, None) == NewInput(st, Some(p))
    ensures !st.aclOut[p] && (forall k :: 0 <= k < p ==> st.aclOut[k]) ==> NewOutput(st, None) == NewOutput(st, Some(p))
    ensures (forall k :: 0 <= k < 8 ==> st.aclIn[k]) ==> NewInput(st, None) == Allocated(st, None)
    ensures (forall k :: 0 <= k < 8 ==> st.aclOut[k]) ==> NewOutput(st, None) == Allocated(st, None)
  {
  }

  /** Integrators and multipliers are handed out in order, eight and four of them. */
  lemma FirstElement(st: State, k: nat)
    requires Shape(st)
    ensures k < 8 && !st.integrators[k] && (forall j :: 0 <= j < k ==> st.integrators[j]) ==>
              NewIntegrator(st) == Allocated(st.(integrators := st.integrators[k := true]), Some(k))
    ensures k < 4 && !st.multipliers[k] && (forall j :: 0 <= j < k ==> st.multipliers[j]) ==>
              NewMultiplier(st) == Allocated(st.(multipliers := st.multipliers[k := true]), Some(k))
    ensures (forall j :: 0 <= j < 8 ==> st.integrators[j]) ==> NewIntegrator(st) == Allocated(st, None)
    ensures (forall j :: 0 <= j < 4 ==> st.multipliers[j]) ==> NewMultiplier(st) == Allocated(st, None)
  {
  }
}
