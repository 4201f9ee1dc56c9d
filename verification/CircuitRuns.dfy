/**
 Whole sequences of allocations and connections: the map the blocks realise is what the accepted requests put
 on their lanes, and the lane discipline holds throughout.
 */
module CircuitRuns {
  import opened Common
  import opened Circuits
  import opened CircuitTheorems
  import opened CircuitConnections

  datatype Command =
    | MakeIntegrator | MakeMultiplier | MakeConstant(value: real)
    | MakeInput(request: Option<int>) | MakeOutput(request: Option<int>)
    | MakeConnection(src: Source, t: Target, w: real)

  function Step(st: State, cmd: Command): State
    requires Shape(st)
    requires cmd.MakeConnection? ==> Handed(st, cmd.src, cmd.t)
  {
    match cmd
    case MakeIntegrator => NewIntegrator(st).st
    case MakeMultiplier => NewMultiplier(st).st
    case MakeConstant(value) => NewConstant(st, value).st
    case MakeInput(request) => NewInput(st, request).st
    case MakeOutput(request) => NewOutput(st, request).st
    case MakeConnection(src, t, w) => Connect(st, src, t, w).st
  }

  /** Connections are between elements this circuit may have handed out; everything else may be tried. */
  predicate Allowed(st: State, cmd: Command)
    requires Shape(st)
  {
    cmd.MakeConnection? ==> Handed(st, cmd.src, cmd.t)
  }

  /** An accepted general connection and the lanes it was given. */
  datatype Request = Request(src: Source, t: Target, w: real, lanes: seq<nat>)

  function Logged(st: State, cmd: Command): seq<Request>
    requires Shape(st) && Allowed(st, cmd)
  {
    if cmd.MakeConnection? && !cmd.src.AclIn? && !cmd.t.AclOut? && |Available(st, 0)| >= LanesNeeded(cmd.w)
    then [Request(cmd.src, cmd.t, cmd.w, Available(st, 0)[..LanesNeeded(cmd.w)])] else []
  }

  /** What a request puts on its lanes of one signal, for one input. */
  function Arriving(r: Request, giver: bool, sig: Signal, input: nat): real {
    if MInput(r.t) == input && r.lanes != [] then Share(r.src, r.lanes, giver, sig, r.w / |r.lanes| as real) else 0.0
  }

  function AllArriving(log: seq<Request>, giver: bool, sig: Signal, input: nat): real {
    if log == [] then 0.0
    else AllArriving(log[..|log| - 1], giver, sig, input) + Arriving(log[|log| - 1], giver, sig, input)
  }

  /** The entry of the linear map that was asked for. */
  function Requested(log: seq<Request>, sig: Signal, input: nat): real {
    if log == [] then 0.0
    else Requested(log[..|log| - 1], sig, input)
         + var r := log[|log| - 1]; if SignalOf(r.src) == sig && MInput(r.t) == input then r.w else 0.0
  }

  lemma StepEffect(st: State, cmd: Command, giver: bool, sig: Signal, input: nat)
    requires Good(st) && Allowed(st, cmd) && input < 16
    ensures Good(Step(st, cmd))
    ensures Realised(Step(st, cmd), giver, sig, input)
         == Realised(st, giver, sig, input) + AllArriving(Logged(st, cmd), giver, sig, input)
  {
    match cmd
    case MakeConnection(src, t, w) => ConnectionEffect(st, src, t, w, giver, sig, input);
    case MakeInput(request) =>
      if NewInput(st, request).element.Some? {
        var p := NewInput(st, request).element.value;
        MarkedLaneFree(st, p);
        PortOpened(st, Step(st, cmd), PyIndex(p, PORTS).value, giver, sig, input);
      }
    case MakeOutput(request) =>
      if NewOutput(st, request).element.Some? {
        var p := NewOutput(st, request).element.value;
        MarkedLaneFree(st, p);
        PortOpened(st, Step(st, cmd), PyIndex(p, PORTS).value, giver, sig, input);
      }
    case _ => Unrelated(st, Step(st, cmd), giver, sig, input);
  }

  /** Even for a negative port, whose check looks at a lane eight below the one that is marked, the marked
      lane is not in general use: the lanes 24-31 are taken last. */
  lemma MarkedLaneFree(st: State, p: int)
    requires Good(st) && -PORTS <= p < PORTS && !st.general[FIRST_ACL_LANE + p]
    ensures PyIndex(p, PORTS).Some? && !st.general[FIRST_ACL_LANE + PyIndex(p, PORTS).value]
  {
  }

  lemma ConnectionEffect(st: State, src: Source, t: Target, w: real, giver: bool, sig: Signal, input: nat)
    requires Good(st) && Allowed(st, MakeConnection(src, t, w)) && input < 16
    ensures var cmd := MakeConnection(src, t, w);
            Good(Step(st, cmd)) &&
            Realised(Step(st, cmd), giver, sig, input)
            == Realised(st, giver, sig, input) + AllArriving(Logged(st, cmd), giver, sig, input)
  {
    if src.AclIn? || t.AclOut? {
      AclConnection(st, src, t, w, giver, sig, input);
    } else {
      GeneralConnection(st, src, t, w, giver, sig, input);
      if |Available(st, 0)| >= LanesNeeded(w) {
        ArrivingSingle(Request(src, t, w, Available(st, 0)[..LanesNeeded(w)]), giver, sig, input);
      }
    }
    hide Connect, Realised, Good, Available, Share, LanesNeeded;
  }

  lemma ArrivingSingle(r: Request, giver: bool, sig: Signal, input: nat)
    ensures AllArriving([r], giver, sig, input) == Arriving(r, giver, sig, input)
  {
    hide Arriving;
    assert AllArriving([r][..0], giver, sig, input) == 0.0;
  }

  /** Whether every command of a run is allowed where it stands. */
  ghost predicate AllAllowed(st: State, cmds: seq<Command>)
    requires Shape(st)
    decreases |cmds|
  {
    cmds != [] ==> Allowed(st, cmds[0]) && Shape(Step(st, cmds[0])) && AllAllowed(Step(st, cmds[0]), cmds[1..])
  }

  ghost function Run(st: State, cmds: seq<Command>): (r: State)
    requires Shape(st) && AllAllowed(st, cmds)
    ensures Shape(r)
    decreases |cmds|
  {
    if cmds == [] then st else Run(Step(st, cmds[0]), cmds[1..])
  }

  ghost function Log(st: State, cmds: seq<Command>): seq<Request>
    requires Shape(st) && AllAllowed(st, cmds)
    decreases |cmds|
  {
    if cmds == [] then [] else Logged(st, cmds[0]) + Log(Step(st, cmds[0]), cmds[1..])
  }

  lemma {:induction false} ArrivingAppend(a: seq<Request>, b: seq<Request>, giver: bool, sig: Signal, input: nat)
    ensures AllArriving(a + b, giver, sig, input)
         == AllArriving(a, giver, sig, input) + AllArriving(b, giver, sig, input)
    decreases |b|
  {
    hide Arriving;
    if b == [] {
      assert a + b == a;
    } else {
      ArrivingAppend(a, b[..|b| - 1], giver, sig, input);
      assert (a + b)[..|a + b| - 1] == a + b[..|b| - 1];
    }
  }

  /** Main result from any disciplined state: whatever is allocated and connected, in whatever order, each
      entry of the map grows by exactly what the accepted requests put on their lanes. */
  lemma {:induction false} RunEffect(st: State, cmds: seq<Command>, giver: bool, sig: Signal, input: nat)
    requires Good(st) && AllAllowed(st, cmds) && input < 16
    ensures Good(Run(st, cmds))
    ensures Realised(Run(st, cmds), giver, sig, input)
         == Realised(st, giver, sig, input) + AllArriving(Log(st, cmds), giver, sig, input)
    decreases |cmds|
  {
    if cmds != [] {
      StepEffect(st, cmds[0], giver, sig, input);
      var st' := Step(st, cmds[0]);
      RunEffect(st', cmds[1..], giver, sig, input);
      ArrivingAppend(Logged(st, cmds[0]), Log(st', cmds[1..]), giver, sig, input);
    }
  }

  /** Every accepted request is plain on every lane it was given. */
  predicate AllCarried(log: seq<Request>, giver: bool) {
    forall r :: r in log ==> AllPlain(r.src, r.lanes, giver)
  }

  ghost predicate LegalLog(log: seq<Request>) {
    forall r :: r in log ==>
      LegalSource(r.src) && !r.src.AclIn? && LegalTarget(r.t) && !r.t.AclOut? && r.lanes != []
  }

  lemma {:induction false} CarriedIsRequested(log: seq<Request>, giver: bool, sig: Signal, input: nat)
    requires LegalLog(log) && AllCarried(log, giver)
    ensures AllArriving(log, giver, sig, input) == Requested(log, sig, input)
  {
    hide SignalOf, AllPlain, Share;
    if log != [] {
      CarriedIsRequested(log[..|log| - 1], giver, sig, input);
      var r := log[|log| - 1];
      assert r in log;
      ShareOfAll(r.src, r.lanes, giver, sig, r.w);
    }
  }

  lemma {:induction false} LogIsLegal(st: State, cmds: seq<Command>)
    requires Shape(st) && AllAllowed(st, cmds)
    ensures LegalLog(Log(st, cmds))
    decreases |cmds|
  {
    hide Step, Available;
    if cmds != [] {
      LogIsLegal(Step(st, cmds[0]), cmds[1..]);
    }
  }

  /** Main result: after any sequence of allocations and connections the linear map between M-block outputs
      (and the constant giver) and M-block inputs is what the accepted requests put on the lanes they were
      given; it is the sum of the requested weights wherever every accepted source is plain on its lanes under
      the giver as finally set; and the lane discipline holds whether or not that is so. */
  lemma CircuitRealisesRequests(cmds: seq<Command>, sig: Signal, input: nat)
    requires AllAllowed(Empty(), cmds) && input < 16
    ensures var st, log := Run(Empty(), cmds), Log(Empty(), cmds);
            && Good(st)
            && Realised(st, st.giver != 0.0, sig, input) == AllArriving(log, st.giver != 0.0, sig, input)
            && (AllCarried(log, st.giver != 0.0) ==>
                  Realised(st, st.giver != 0.0, sig, input) == Requested(log, sig, input))
  {
    hide *;
    var st, log := Run(Empty(), cmds), Log(Empty(), cmds);
    EmptyGood();
    EmptyRealised(st.giver != 0.0, sig, input);
    RunEffect(Empty(), cmds, st.giver != 0.0, sig, input);
    LogIsLegal(Empty(), cmds);
    if AllCarried(log, st.giver != 0.0) {
      CarriedIsRequested(log, st.giver != 0.0, sig, input);
    }
  }
}
