/**
 Single calls on a circuit: what a connection adds to the map the blocks realise, and what every other call
 leaves alone.
 */
module CircuitConnections {
  import opened Circuits
  import opened CircuitTheorems

  // ---------------------------------------------------------------- a general connection

  lemma LanesNeededCovers(w: real)
    ensures Abs(w) <= 8.0 * LanesNeeded(w) as real
    ensures Abs(w / LanesNeeded(w) as real) <= 8.0
  {
    var n := LanesNeeded(w);
    var q := Abs(w) / 8.0;
    assert -q >= (-q).Floor as real;
    DivideByLanes(w, n as real);
  }

  lemma DivideByLanes(w: real, n: real)
    requires n >= 1.0 && Abs(w) <= 8.0 * n
    ensures Abs(w / n) <= 8.0
  {
    var x := w / n;
    assert x * n == w;
    assert x > 8.0 ==> (x - 8.0) * n > 0.0;
    assert x < -8.0 ==> (-x - 8.0) * n > 0.0;
  }

  /** The signal a source stands for. */
  function SignalOf(src: Source): Signal {
    if src.Constant? then Giver else MOutput(OutputOn(src, 0))
  }

  /** The lanes on which a source's own signal arrives, given whether the giver is on: identity 2 loses lanes
      16-31 to the giver, identity 3 lanes 0-15, and a constant needs the giver. */
  predicate Plain(src: Source, lane: nat, giver: bool) {
    match src
    case Identity(offset) => giver ==> (offset == 2 ==> lane < 16) && (offset == 3 ==> lane >= 16)
    case Constant(_) => giver
    case _ => true
  }

  lemma PlainIsExact(src: Source, lane: nat, giver: bool)
    requires LegalSource(src) && !src.AclIn?
    ensures Plain(src, lane, giver) <==> SignalOn(src, lane, giver) == SignalOf(src)
  {
  }

  predicate AllPlain(src: Source, ls: seq<nat>, giver: bool) {
    forall l :: l in ls ==> Plain(src, l, giver)
  }

  lemma {:induction false} ShareIsAll(src: Source, ls: seq<nat>, giver: bool, sig: Signal, w: real)
    requires LegalSource(src) && !src.AclIn? && AllPlain(src, ls, giver)
    ensures Share(src, ls, giver, sig, w) == if sig == SignalOf(src) then Times(|ls|, w) else 0.0
  {
    hide Share, Times, Plain, AllPlain, SignalOn, SignalOf;
    ShareOfNone(src, giver, sig, w);
    if ls != [] {
      AllPlainParts(src, ls, giver);
      ShareIsAll(src, ls[1..], giver, sig, w);
      PlainIsExact(src, ls[0], giver);
      ShareFirst(src, ls, giver, sig, w);
      OneMore(|ls| - 1, w);
    }
  }

  lemma AllPlainParts(src: Source, ls: seq<nat>, giver: bool)
    requires ls != [] && AllPlain(src, ls, giver)
    ensures Plain(src, ls[0], giver) && AllPlain(src, ls[1..], giver)
  {
    hide Plain;
  }

  lemma ShareOfNone(src: Source, giver: bool, sig: Signal, w: real)
    ensures Share(src, [], giver, sig, w) == 0.0 && Times(0, w) == 0.0
  {
  }

  /** `n` lanes of weight `w`. */
  function Times(n: nat, w: real): real {
    n as real * w
  }

  lemma OneMore(n: nat, w: real)
    ensures Times(n + 1, w) == Times(n, w) + w
  {
  }


  lemma SplitEvenly(w: real, n: nat)
    requires n >= 1
    ensures Times(n, w / n as real) == w
  {
  }

  /** Elements that this circuit may have handed out. */
  predicate Handed(st: State, src: Source, t: Target)
    requires Shape(st)
  {
    && LegalSource(src) && LegalTarget(t)
    && (src.AclIn? ==> 0 <= src.port < PORTS && st.aclIn[src.port])
    && (t.AclOut? ==> 0 <= t.port < PORTS && st.aclOut[t.port])
  }

  /** A general connection either finds enough lanes, takes the first free ones and adds to the row of its
      target exactly what its source puts on them, or raises and leaves everything as it was: validate, then
      commit.  Where its source is plain on all of them that is its whole weight, in one entry. */
  lemma GeneralConnection(st: State, src: Source, t: Target, w: real, giver: bool, sig: Signal, input: nat)
    requires Good(st) && Handed(st, src, t) && !src.AclIn? && !t.AclOut? && input < 16
    ensures var o := Connect(st, src, t, w);
            && (o.ok <==> |Available(st, 0)| >= LanesNeeded(w))
            && (!o.ok ==> o.st == st)
            && Good(o.st) && o.st.giver == st.giver && o.st.aclIn == st.aclIn && o.st.aclOut == st.aclOut
            && (o.ok ==> Available(o.st, 0) == Available(st, 0)[LanesNeeded(w)..])
            && Realised(o.st, giver, sig, input)
               == Realised(st, giver, sig, input)
                  + if o.ok && input == MInput(t)
                    then Share(src, Available(st, 0)[..LanesNeeded(w)], giver, sig, w / LanesNeeded(w) as real)
                    else 0.0
    ensures Connect(st, src, t, w).ok && AllPlain(src, Available(st, 0)[..LanesNeeded(w)], giver) ==>
              Share(src, Available(st, 0)[..LanesNeeded(w)], giver, sig, w / LanesNeeded(w) as real)
              == if sig == SignalOf(src) then w else 0.0
  {
    var n := LanesNeeded(w);
    ConnectIsCommit(st, src, t, w);
    LanesNeededCovers(w);
    if n <= |Available(st, 0)| {
      CommitAdds(st, src, n, MInput(t), w / n as real, giver, sig, input);
      ShareOfAll(src, Available(st, 0)[..n], giver, sig, w);
    }
    hide *;
  }

  lemma ConnectIsCommit(st: State, src: Source, t: Target, w: real)
    requires Shape(st) && LegalTarget(t) && !src.AclIn? && !t.AclOut?
    ensures MInput(t) < 16
    ensures var n := LanesNeeded(w);
            Connect(st, src, t, w) == if |Available(st, 0)| < n then Outcome(st, false)
                                      else Commit(st, src, Available(st, 0)[..n], MInput(t), w / n as real)
  {
    hide Available, Commit, LanesNeeded;
  }

  lemma ShareOfAll(src: Source, ls: seq<nat>, giver: bool, sig: Signal, w: real)
    requires LegalSource(src) && !src.AclIn? && ls != []
    ensures AllPlain(src, ls, giver) ==>
              Share(src, ls, giver, sig, w / |ls| as real) == if sig == SignalOf(src) then w else 0.0
  {
    if AllPlain(src, ls, giver) {
      ShareIsAll(src, ls, giver, sig, w / |ls| as real);
      SplitEvenly(w, |ls|);
    }
  }

  /** How many of the lanes carry the source's own signal. */
  function Carrying(src: Source, ls: seq<nat>, giver: bool): nat {
    if ls == [] then 0
    else Carrying(src, ls[1..], giver) + if SignalOn(src, ls[0], giver) == SignalOf(src) then 1 else 0
  }

  lemma {:induction false} CarryingAll(src: Source, ls: seq<nat>, giver: bool)
    ensures Carrying(src, ls, giver) <= |ls|
    ensures Carrying(src, ls, giver) == |ls| <==> forall l :: l in ls ==> SignalOn(src, l, giver) == SignalOf(src)
  {
    hide SignalOn, SignalOf;
    if ls != [] {
      CarryingAll(src, ls[1..], giver);
      assert ls == [ls[0]] + ls[1..];
    }
  }

  lemma {:induction false} ShareCounts(src: Source, ls: seq<nat>, giver: bool, w: real)
    ensures Share(src, ls, giver, SignalOf(src), w) == Times(Carrying(src, ls, giver), w)
  {
    hide Share, Times, SignalOn, SignalOf;
    ShareOfNone(src, giver, SignalOf(src), w);
    if ls != [] {
      ShareCounts(src, ls[1..], giver, w);
      ShareFirst(src, ls, giver, SignalOf(src), w);
      OneMore(Carrying(src, ls[1..], giver), w);
    }
  }

  lemma PartOfShare(w: real, n: nat, k: nat)
    requires n >= 1 && w != 0.0
    ensures Times(k, w / n as real) == w <==> k == n
  {
    var v := w / n as real;
    SplitEvenly(w, n);
    assert k as real * v - n as real * v == (k - n) as real * v;
  }

  lemma ShareExact(src: Source, ls: seq<nat>, giver: bool, w: real)
    requires ls != [] && w != 0.0
    ensures Share(src, ls, giver, SignalOf(src), w / |ls| as real) == w
        <==> forall l :: l in ls ==> SignalOn(src, l, giver) == SignalOf(src)
  {
    hide *;
    ShareCounts(src, ls, giver, w / |ls| as real);
    CarryingAll(src, ls, giver);
    PartOfShare(w, |ls|, Carrying(src, ls, giver));
  }

  /** The condition is exact: a general connection that finds its lanes adds its weight to its own entry of
      the map if and only if its source is plain on every lane it takes - the first free ones. */
  lemma GeneralConnectionExact(st: State, src: Source, t: Target, w: real, giver: bool)
    requires Good(st) && Handed(st, src, t) && !src.AclIn? && !t.AclOut? && w != 0.0
    requires |Available(st, 0)| >= LanesNeeded(w)
    ensures MInput(t) < 16 && Good(Connect(st, src, t, w).st)
    ensures Realised(Connect(st, src, t, w).st, giver, SignalOf(src), MInput(t))
            == Realised(st, giver, SignalOf(src), MInput(t)) + w
        <==> AllPlain(src, Available(st, 0)[..LanesNeeded(w)], giver)
  {
    var ls := Available(st, 0)[..LanesNeeded(w)];
    ConnectIsCommit(st, src, t, w);
    GeneralConnection(st, src, t, w, giver, SignalOf(src), MInput(t));
    ShareExact(src, ls, giver, w);
    forall l | l in ls ensures Plain(src, l, giver) <==> SignalOn(src, l, giver) == SignalOf(src) {
      PlainIsExact(src, l, giver);
    }
    hide Good, Realised, Connect, Available, Share, Plain, SignalOn, SignalOf, LanesNeeded;
  }

  /** Why the condition is needed: with the giver on, an identity tapped at output 15 that lands on one of
      the lanes 0-15 adds nothing to its own entry; its weight goes to the constant. */
  lemma ShadowedIdentity(st: State, t: Target, w: real)
    requires Good(st) && Handed(st, Identity(3), t) && !t.AclOut?
    requires Abs(w) <= 8.0 && Available(st, 0) != [] && Available(st, 0)[0] < 16
    ensures var o := Connect(st, Identity(3), t, w);
            && o.ok && Good(o.st)
            && Realised(o.st, true, MOutput(15), MInput(t)) == Realised(st, true, MOutput(15), MInput(t))
            && Realised(o.st, true, Giver, MInput(t)) == Realised(st, true, Giver, MInput(t)) + w
  {
    OneLaneCommit(st, Identity(3), t, w);
    ShadowedShare(Available(st, 0)[..1], w);
    CommitAdds(st, Identity(3), 1, MInput(t), w, true, Giver, MInput(t));
    CommitAdds(st, Identity(3), 1, MInput(t), w, true, MOutput(15), MInput(t));
    hide *;
  }

  /** Such a circuit: one constant, and the identity as its first connection. */
  lemma ShadowedExample()
    ensures var st := NewConstant(Empty(), 1.0).st;
            var o := Connect(st, Identity(3), IntegratorInput(0), 1.0);
            Good(st) && o.ok && Good(o.st) &&
            Realised(o.st, true, MOutput(15), 0) == 0.0 && Realised(o.st, true, Giver, 0) == 1.0
  {
    var st := NewConstant(Empty(), 1.0).st;
    ConstantOnly();
    AvailableFirst(st);
    hide *;
    ShadowedIdentity(st, IntegratorInput(0), 1.0);
  }

  lemma ConstantOnly()
    ensures var st := NewConstant(Empty(), 1.0).st;
            Good(st) && Free(st, 0) && Handed(st, Identity(3), IntegratorInput(0)) && Abs(1.0) <= 8.0 &&
            Realised(st, true, MOutput(15), 0) == 0.0 && Realised(st, true, Giver, 0) == 0.0
  {
    hide Good, Realised;
    var st := NewConstant(Empty(), 1.0).st;
    assert Handed(st, Identity(3), IntegratorInput(0));
    EmptyGood();
    EmptyRealised(true, MOutput(15), 0);
    EmptyRealised(true, Giver, 0);
    Unrelated(Empty(), st, true, MOutput(15), 0);
    Unrelated(Empty(), st, true, Giver, 0);
    assert Free(st, 0);
  }

  lemma AvailableFirst(st: State)
    requires Shape(st) && Free(st, 0)
    ensures Available(st, 0) != [] && Available(st, 0)[0] == 0
  {
  }

  lemma OneLaneCommit(st: State, src: Source, t: Target, w: real)
    requires Shape(st) && LegalTarget(t) && !src.AclIn? && !t.AclOut? && Abs(w) <= 8.0 && Available(st, 0) != []
    ensures MInput(t) < 16
    ensures Connect(st, src, t, w) == Commit(st, src, Available(st, 0)[..1], MInput(t), w)
  {
    hide Available, Commit;
    assert LanesNeeded(w) == 1;
  }

  lemma ShadowedShare(ls: seq<nat>, w: real)
    requires |ls| == 1 && ls[0] < 16
    ensures Share(Identity(3), ls, true, Giver, w) == w && Share(Identity(3), ls, true, MOutput(15), w) == 0.0
  {
    assert ls[1..] == [];
    assert Share(Identity(3), [], true, Giver, w) == 0.0 && Share(Identity(3), [], true, MOutput(15), w) == 0.0;
  }

  // ---------------------------------------------------------------- the other operations

  /** A connection from or to an external port changes no entry of the map and keeps the lane discipline. */
  lemma AclConnection(st: State, src: Source, t: Target, w: real, giver: bool, sig: Signal, input: nat)
    requires Good(st) && Handed(st, src, t) && (src.AclIn? || t.AclOut?) && input < 16
    ensures var o := Connect(st, src, t, w);
            && Good(o.st) && o.st.giver == st.giver && o.st.aclIn == st.aclIn && o.st.aclOut == st.aclOut
            && Realised(o.st, giver, sig, input) == Realised(st, giver, sig, input)
  {
    var st' := Connect(st, src, t, w).st;
    AclConnectionGood(st, src, t, w);
    forall l | 0 <= l < LANES
      ensures Contribution(st', giver, sig, input, l) == Contribution(st, giver, sig, input, l)
    {
      AclContribution(st, src, t, w, giver, sig, input, l);
    }
    SumSame(st, st', giver, sig, input);
    hide Good, Contribution, Realised;
  }

  lemma AclContribution(st: State, src: Source, t: Target, w: real, giver: bool, sig: Signal, input: nat, l: nat)
    requires Good(st) && Handed(st, src, t) && (src.AclIn? || t.AclOut?) && input < 16 && l < LANES
    requires Shape(Connect(st, src, t, w).st)
    ensures Contribution(Connect(st, src, t, w).st, giver, sig, input, l) == Contribution(st, giver, sig, input, l)
  {
    var lane := FIRST_ACL_LANE + if src.AclIn? then src.port else t.port;
    assert Reserved(st, lane) && External(st, lane);
  }

  lemma AclConnectionGood(st: State, src: Source, t: Target, w: real)
    requires Good(st) && Handed(st, src, t) && (src.AclIn? || t.AclOut?)
    ensures Good(Connect(st, src, t, w).st)
  {
    var st' := Connect(st, src, t, w).st;
    var lane := FIRST_ACL_LANE + if src.AclIn? then src.port else t.port;
    assert Reserved(st, lane);
    forall l | 0 <= l < LANES && Free(st', l) ensures Untouched(st', l) {
      assert Free(st, l) && l != lane;
      assert Untouched(st, l);
    }
    forall l | 0 <= l < LANES && st'.general[l] ensures !Reserved(st', l) {
      assert !Reserved(st, l);
    }
  }

  /** Opening an input or output port whose lane is not in general use changes no entry of the map. */
  lemma PortOpened(st: State, st': State, port: nat, giver: bool, sig: Signal, input: nat)
    requires Good(st) && port < PORTS && !st.general[FIRST_ACL_LANE + port] && input < 16
    requires || st' == st.(aclIn := st.aclIn[port := true], external := st.external[port := true])
             || st' == st.(aclOut := st.aclOut[port := true], external := st.external[port := true])
    ensures Good(st') && Realised(st', giver, sig, input) == Realised(st, giver, sig, input)
  {
    var lane := FIRST_ACL_LANE + port;
    forall l | 0 <= l < LANES && Free(st', l) ensures Untouched(st', l) {
      assert Free(st, l);
      assert Untouched(st, l);
    }
    forall l | 0 <= l < LANES && st'.general[l] ensures !Reserved(st', l) {
      assert !Reserved(st, l);
    }
    assert Free(st, lane) ==> Untouched(st, lane);
    forall l | 0 <= l < LANES
      ensures Contribution(st', giver, sig, input, l) == Contribution(st, giver, sig, input, l)
    {
    }
    hide *;
    SumSame(st, st', giver, sig, input);
  }

  /** Allocating an integrator, a multiplier or a constant. */
  lemma Unrelated(st: State, st': State, giver: bool, sig: Signal, input: nat)
    requires Good(st) && input < 16
    requires |st'.integrators| == 8 && |st'.multipliers| == 4
    requires st' == st.(integrators := st'.integrators, multipliers := st'.multipliers,
                        constants := st'.constants, giver := st'.giver)
    ensures Good(st') && Realised(st', giver, sig, input) == Realised(st, giver, sig, input)
  {
    forall l | 0 <= l < LANES && Free(st', l) ensures Untouched(st', l) {
      assert Free(st, l);
      assert Untouched(st, l);
    }
    forall l | 0 <= l < LANES && st'.general[l] ensures !Reserved(st', l) {
      assert !Reserved(st, l);
    }
    hide Good, Realised;
    SumSame(st, st', giver, sig, input);
  }
}
