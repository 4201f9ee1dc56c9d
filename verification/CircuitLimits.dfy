/**
 Where a circuit does less than its calls suggest: constants share one giver, and a negative port number is
 accepted.
 */
module CircuitLimits {
  import opened Common
  import opened Circuits
  import opened CircuitTheorems
  import opened CircuitConnections
  import opened CircuitRuns

  // ---------------------------------------------------------------- constants

  /** The values of the constants a run creates, in order. */
  ghost function Constants(st: State, cmds: seq<Command>): seq<real>
    requires Shape(st) && AllAllowed(st, cmds)
    decreases |cmds|
  {
    if cmds == [] then []
    else (if cmds[0].MakeConstant? && st.constants < 2 then [cmds[0].value] else [])
         + Constants(Step(st, cmds[0]), cmds[1..])
  }

  lemma {:induction false} CommitKeepsConstants(st: State, src: Source, ls: seq<nat>, target: int, w: real)
    requires Shape(st) && forall k :: 0 <= k < |ls| ==> ls[k] < LANES
    ensures var r := Commit(st, src, ls, target, w).st;
            r.constants == st.constants && r.giver == st.giver
    decreases |ls|
  {
    if ls != [] && CommitLane(st, src, ls[0], target, w).ok {
      CommitKeepsConstants(CommitLane(st, src, ls[0], target, w).st, src, ls[1..], target, w);
    }
  }

  lemma StepKeepsConstants(st: State, cmd: Command)
    requires Shape(st) && Allowed(st, cmd)
    ensures var r := Step(st, cmd);
            if cmd.MakeConstant? && st.constants < 2
            then r.constants == st.constants + 1 && r.giver == cmd.value
            else r.constants == st.constants && r.giver == st.giver
  {
    hide Available, Commit, LanesNeeded;
    if cmd.MakeConnection? && !cmd.src.AclIn? && !cmd.t.AclOut? && |Available(st, 0)| >= LanesNeeded(cmd.w) {
      var n := LanesNeeded(cmd.w);
      CommitKeepsConstants(st, cmd.src, Available(st, 0)[..n], MInput(cmd.t), cmd.w / n as real);
    }
  }

  lemma {:induction false} GiverIsLast(st: State, cmds: seq<Command>)
    requires Shape(st) && AllAllowed(st, cmds) && st.constants <= 2
    ensures var r, vs := Run(st, cmds), Constants(st, cmds);
            r.constants == st.constants + |vs| <= 2 && r.giver == if vs == [] then st.giver else vs[|vs| - 1]
    decreases |cmds|
  {
    hide Step;
    if cmds != [] {
      StepKeepsConstants(st, cmds[0]);
      GiverIsLast(Step(st, cmds[0]), cmds[1..]);
    }
  }

  /** There are at most two constants, and both stand for the giver: after any run the value that a
      constant's lanes carry is the one it was created with if and only if the last constant created has
      that value too. */
  lemma ConstantCarriesItsValue(cmds: seq<Command>, id: nat)
    requires AllAllowed(Empty(), cmds) && id < |Constants(Empty(), cmds)|
    ensures |Constants(Empty(), cmds)| <= 2
    ensures var st, vs := Run(Empty(), cmds), Constants(Empty(), cmds);
            st.constants == |vs| && (st.giver == vs[id] <==> vs[|vs| - 1] == vs[id])
  {
    hide Run, Constants;
    GiverIsLast(Empty(), cmds);
  }

  /** The second of two constants replaces the first one's value. */
  lemma SecondConstantWins()
    ensures var a := NewConstant(Empty(), 1.0);
            var b := NewConstant(a.st, -1.0);
            a.element == Some(0) && b.element == Some(1) && a.st.giver == 1.0 && b.st.giver == -1.0 &&
            SignalOf(Constant(0)) == SignalOf(Constant(1)) && NewConstant(b.st, 1.0).element == None
  {
  }

  // ---------------------------------------------------------------- negative ports

  /** A connection from an accepted port keeps the discipline exactly if the lane it uses is not free: true of
      every port from 0 up, whose lane is reserved, and false of a negative one on an unused lane. */
  lemma PortConnectionDiscipline(st: State, port: int, t: Target, w: real)
    requires Good(st) && -PORTS <= port < PORTS && LegalTarget(t) && !t.AclOut?
    requires Connect(st, AclIn(port), t, w).ok
    ensures Good(Connect(st, AclIn(port), t, w).st) <==> !Free(st, FIRST_ACL_LANE + port)
    ensures port >= 0 && st.aclIn[port] ==> !Free(st, FIRST_ACL_LANE + port)
    ensures port < 0 ==> (Free(st, FIRST_ACL_LANE + port) <==> !st.general[FIRST_ACL_LANE + port])
  {
    var lane, st' := FIRST_ACL_LANE + port, Connect(st, AclIn(port), t, w).st;
    assert MInput(t) < 16 && lane in st'.i[MInput(t)];
    if Free(st, lane) {
      assert Free(st', lane) && !Untouched(st', lane);
    } else {
      forall l | 0 <= l < LANES && Free(st', l) ensures Untouched(st', l) {
        assert Free(st, l) && l != lane;
        assert Untouched(st, l);
      }
      forall l | 0 <= l < LANES && st'.general[l] ensures !Reserved(st', l) {
        assert !Reserved(st, l);
      }
    }
  }

  /** The same for connections to an accepted output port. */
  lemma OutputConnectionDiscipline(st: State, src: Source, port: int, w: real)
    requires Good(st) && -PORTS <= port < PORTS && LegalSource(src) && !src.AclIn?
    requires Connect(st, src, AclOut(port), w).ok
    ensures Good(Connect(st, src, AclOut(port), w).st) <==> !Free(st, FIRST_ACL_LANE + port)
    ensures port >= 0 && st.aclOut[port] ==> !Free(st, FIRST_ACL_LANE + port)
    ensures port < 0 ==> (Free(st, FIRST_ACL_LANE + port) <==> !st.general[FIRST_ACL_LANE + port])
  {
    var lane, st' := FIRST_ACL_LANE + port, Connect(st, src, AclOut(port), w).st;
    if Free(st, lane) {
      assert Free(st', lane) && !Untouched(st', lane);
    } else {
      forall l | 0 <= l < LANES && Free(st', l) ensures Untouched(st', l) {
        assert Free(st, l) && l != lane;
        assert Untouched(st, l);
      }
      forall l | 0 <= l < LANES && st'.general[l] ensures !Reserved(st', l) {
        assert !Reserved(st, l);
      }
    }
  }

  lemma {:induction false} EmptyAvailable(lane: nat)
    requires lane <= LANES
    ensures |Available(Empty(), lane)| == LANES - lane
    ensures forall k :: 0 <= k < LANES - lane ==> Available(Empty(), lane)[k] == lane + k
    decreases LANES - lane
  {
    if lane < LANES {
      EmptyAvailable(lane + 1);
      assert Free(Empty(), lane);
    }
    hide Empty, Free;
  }

  /** A circuit whose lanes 0-22 are in general use, made by one connection. */
  lemma WideConnection(st: State, w: real)
    requires Good(st) && Handed(st, Integrator(0), IntegratorInput(1)) && LanesNeeded(w) == 23 && !st.aclIn[7]
    requires |Available(st, 0)| == LANES && Available(st, 0)[23] == 23
    ensures var o := Connect(st, Integrator(0), IntegratorInput(1), w);
            o.ok && Good(o.st) && Available(o.st, 0) != [] && Available(o.st, 0)[0] == 23 && Free(o.st, 23) &&
            !o.st.aclIn[7]
  {
    hide Good, Available, Realised, Share, LanesNeeded, Connect, AllPlain;
    GeneralConnection(st, Integrator(0), IntegratorInput(1), w, true, Giver, 0);
  }

  lemma WideLanes()
    ensures LanesNeeded(184.0) == 23 && Handed(Empty(), Integrator(0), IntegratorInput(1)) && !Empty().aclIn[7]
  {
  }

  /** Opening port -1 on a circuit whose next free lane is 23, and connecting it to input 0, leaves lane 23 the
      next free lane although it now feeds input 0. */
  lemma NegativePortOpened(st: State)
    requires Good(st) && Available(st, 0) != [] && Available(st, 0)[0] == 23 && Free(st, 23) && !st.aclIn[7]
    ensures var a := NewInput(st, Some(-1));
            var b := Connect(a.st, AclIn(-1), IntegratorInput(0), 1.0);
            a.element == Some(-1) && b.ok && Available(b.st, 0) != [] && Available(b.st, 0)[0] == 23 &&
            b.st.u[23] == None && 23 in b.st.i[0] && forall o :: 0 < o < 16 ==> 23 !in b.st.i[o]
  {
    NegativePortState(st);
    AvailableHead(st, 0);
    var r := st.(aclIn := st.aclIn[7 := true], external := st.external[7 := true], i := st.i[0 := st.i[0] + {23}]);
    forall k | 0 <= k < 23 ensures !Free(r, k) {
      assert !Free(st, k);
    }
    assert Free(r, 23);
    hide *;
    AvailableSkip(r, 0, 23);
    AvailableAt(r, 23);
  }

  lemma AvailableAt(st: State, lane: nat)
    requires Shape(st) && lane < LANES && Free(st, lane)
    ensures Available(st, lane) != [] && Available(st, lane)[0] == lane
  {
  }

  lemma NegativePortState(st: State)
    requires Good(st) && Free(st, 23) && !st.aclIn[7]
    ensures var a := NewInput(st, Some(-1));
            a.element == Some(-1) && st.u[23] == None && (forall o :: 0 <= o < 16 ==> 23 !in st.i[o]) &&
            Connect(a.st, AclIn(-1), IntegratorInput(0), 1.0)
            == Outcome(st.(aclIn := st.aclIn[7 := true], external := st.external[7 := true],
                           i := st.i[0 := st.i[0] + {23}]), true)
  {
    assert Untouched(st, 23);
    var a := NewInput(st, Some(-1));
    assert a.st == st.(aclIn := st.aclIn[7 := true], external := st.external[7 := true]);
    hide Good;
  }

  /** The next general connection takes that lane.  To another input it raises, but only after lane 23 was
      marked and written in the U- and C-block, so the integrator now reaches input 0, where nobody asked for
      it; to input 0 it succeeds and lane 23 serves both. */
  lemma SharedLaneTaken(st: State)
    requires Shape(st) && Available(st, 0) != [] && Available(st, 0)[0] == 23
    requires st.u[23] == None && 23 in st.i[0] && forall o :: 0 < o < 16 ==> 23 !in st.i[o]
    ensures var d := Connect(st, Integrator(0), IntegratorInput(1), 1.0);
            !d.ok && d.st.general[23] && d.st.u[23] == Some(0) && d.st.c[23] == 1.0 && 23 in d.st.i[0]
    ensures var e := Connect(st, Integrator(0), IntegratorInput(0), 1.0);
            e.ok && e.st.general[23] && e.st.u[23] == Some(0) && 23 in e.st.i[0]
  {
    hide Connect, Available;
    OneLane(st, IntegratorInput(1));
    OneLane(st, IntegratorInput(0));
  }

  lemma OneLane(st: State, t: Target)
    requires Shape(st) && LegalTarget(t) && !t.AclOut? && Available(st, 0) != []
    ensures Connect(st, Integrator(0), t, 1.0) == CommitLane(st, Integrator(0), Available(st, 0)[0], MInput(t), 1.0)
  {
    OneLaneCommit(st, Integrator(0), t, 1.0);
    CommitSingle(st, Integrator(0), Available(st, 0)[..1], MInput(t), 1.0);
    hide *;
  }

  lemma CommitSingle(st: State, src: Source, ls: seq<nat>, target: int, w: real)
    requires Shape(st) && |ls| == 1 && ls[0] < LANES
    ensures Commit(st, src, ls, target, w) == CommitLane(st, src, ls[0], target, w)
  {
    hide CommitLane;
    assert ls[1..] == [];
  }

  /** Why ports must count from 0: a run in which port -1 is opened and connected, and a general connection is
      then given the same lane: to another input it raises halfway, to the same input it succeeds. */
  lemma NegativePortSharesLane()
    ensures var c := Connect(Empty(), Integrator(0), IntegratorInput(1), 184.0);
            var a := NewInput(c.st, Some(-1));
            var b := Connect(a.st, AclIn(-1), IntegratorInput(0), 1.0);
            var d := Connect(b.st, Integrator(0), IntegratorInput(1), 1.0);
            var e := Connect(b.st, Integrator(0), IntegratorInput(0), 1.0);
            c.ok && a.element == Some(-1) && b.ok && 23 in b.st.i[0] &&
            !d.ok && d.st != b.st && d.st.general[23] && d.st.u[23] == Some(0) && 23 in d.st.i[0] &&
            e.ok && e.st.general[23] && e.st.u[23] == Some(0) && 23 in e.st.i[0]
  {
    EmptyGood();
    EmptyAvailable(0);
    WideLanes();
    WideConnection(Empty(), 184.0);
    hide *;
    var c := Connect(Empty(), Integrator(0), IntegratorInput(1), 184.0);
    NegativePortOpened(c.st);
    var b := Connect(NewInput(c.st, Some(-1)).st, AclIn(-1), IntegratorInput(0), 1.0);
    SharedLaneTaken(b.st);
    hide *;
  }
}
