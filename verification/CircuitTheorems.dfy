/**
 What a configured circuit computes: the linear map that the U-, C- and I-block realise, lane by lane, the
 discipline that lets no lane serve twice, and what committing lanes adds to the map.
 */
module CircuitTheorems {
  import opened Common
  import opened Circuits

  // ---------------------------------------------------------------- meaning of the blocks

  /** What a lane can carry: an M-block output or the constant giver, which replaces output 15 on lanes
      0-15 and output 14 on lanes 16-31 while it is on. */
  datatype Signal = Giver | MOutput(k: int)

  function Carried(st: State, giver: bool, lane: nat): Option<Signal>
    requires Shape(st) && lane < LANES
  {
    if st.u[lane].None? then None
    else if giver && st.u[lane].value == ConstantOutput(lane) then Some(Giver)
    else Some(MOutput(st.u[lane].value))
  }

  /** A lane whose port is EXTERNAL takes its I-side signal from outside. */
  predicate External(st: State, lane: nat)
    requires Shape(st) && lane < LANES
  {
    lane >= FIRST_ACL_LANE && st.external[lane - FIRST_ACL_LANE]
  }

  function Gain(st: State, lane: nat): real
    requires Shape(st) && lane < LANES
  {
    if st.up[lane] then st.c[lane] * 8.0 else st.c[lane]
  }

  function Contribution(st: State, giver: bool, sig: Signal, input: nat, lane: nat): real
    requires Shape(st) && lane < LANES && input < 16
  {
    if lane in st.i[input] && !External(st, lane) && Carried(st, giver, lane) == Some(sig) then Gain(st, lane) else 0.0
  }

  function SumLanes(st: State, giver: bool, sig: Signal, input: nat, n: nat): real
    requires Shape(st) && n <= LANES && input < 16
  {
    if n == 0 then 0.0 else SumLanes(st, giver, sig, input, n - 1) + Contribution(st, giver, sig, input, n - 1)
  }

  /** The entry of the linear map the blocks realise. */
  function Realised(st: State, giver: bool, sig: Signal, input: nat): real
    requires Shape(st) && input < 16
  {
    SumLanes(st, giver, sig, input, LANES)
  }

  // ---------------------------------------------------------------- invariant

  ghost predicate Untouched(st: State, lane: nat)
    requires Shape(st) && lane < LANES
  {
    st.u[lane] == None && !st.up[lane] && forall o :: 0 <= o < 16 ==> lane !in st.i[o]
  }

  ghost predicate Good(st: State) {
    && Shape(st)
    // no lane serves a general signal and an external port
    && (forall l :: 0 <= l < LANES && st.general[l] ==> !Reserved(st, l))
    // free lanes are not configured
    && (forall l :: 0 <= l < LANES && Free(st, l) ==> Untouched(st, l))
    // shared lanes come last
    && (forall l, k :: FIRST_ACL_LANE <= l < LANES && st.general[l] && 0 <= k < FIRST_ACL_LANE ==> st.general[k])
    // exactly the allocated ports are external
    && (forall p :: 0 <= p < PORTS ==> st.external[p] == (st.aclIn[p] || st.aclOut[p]))
    // a lane feeds one input
    && (forall o, o', l: int :: 0 <= o < 16 && 0 <= o' < 16 && l in st.i[o] && l in st.i[o'] ==> o == o')
    // coefficients are realisable
    && (forall l :: 0 <= l < LANES ==> -1.0 <= st.c[l] <= 1.0)
  }

  lemma EmptyGood()
    ensures Good(Empty())
  {
  }

  lemma EmptyRealised(giver: bool, sig: Signal, input: nat)
    requires input < 16
    ensures Realised(Empty(), giver, sig, input) == 0.0
  {
    SumZero(Empty(), giver, sig, input, LANES);
  }

  lemma {:induction false} SumZero(st: State, giver: bool, sig: Signal, input: nat, n: nat)
    requires Shape(st) && n <= LANES && input < 16
    requires forall l :: 0 <= l < n ==> Contribution(st, giver, sig, input, l) == 0.0
    ensures SumLanes(st, giver, sig, input, n) == 0.0
  {
    if n > 0 { SumZero(st, giver, sig, input, n - 1); }
  }

  /** Two states that differ in at most one lane's contribution. */
  lemma {:induction false} SumDiffers(st: State, st': State, giver: bool, sig: Signal, input: nat, lane: nat, n: nat)
    requires Shape(st) && Shape(st') && n <= LANES && lane < LANES && input < 16
    requires forall l :: 0 <= l < LANES && l != lane ==>
               Contribution(st', giver, sig, input, l) == Contribution(st, giver, sig, input, l)
    ensures SumLanes(st', giver, sig, input, n)
         == SumLanes(st, giver, sig, input, n)
            + if lane < n
              then Contribution(st', giver, sig, input, lane) - Contribution(st, giver, sig, input, lane)
              else 0.0
  {
    hide Contribution;
    if n > 0 { SumDiffers(st, st', giver, sig, input, lane, n - 1); }
  }

  lemma SumSame(st: State, st': State, giver: bool, sig: Signal, input: nat)
    requires Shape(st) && Shape(st') && input < 16
    requires forall l :: 0 <= l < LANES ==>
               Contribution(st', giver, sig, input, l) == Contribution(st, giver, sig, input, l)
    ensures Realised(st', giver, sig, input) == Realised(st, giver, sig, input)
  {
    hide Contribution;
    SumDiffers(st, st', giver, sig, input, 0, LANES);
  }

  // ---------------------------------------------------------------- one lane

  /** The signal a source puts on a lane. */
  function SignalOn(src: Source, lane: nat, giver: bool): Signal {
    if giver && OutputOn(src, lane) == ConstantOutput(lane) then Giver else MOutput(OutputOn(src, lane))
  }

  /** The state after a free lane has been committed. */
  function WithLane(st: State, src: Source, lane: nat, target: nat, w: real): State
    requires Shape(st) && lane < LANES && target < 16
  {
    st.(general := st.general[lane := true],
        u := st.u[lane := Some(OutputOn(src, lane))],
        c := st.c[lane := if Abs(w) > 1.0 then w / 8.0 else w],
        up := st.up[lane := Abs(w) > 1.0],
        i := st.i[target := st.i[target] + {lane}])
  }

  lemma CommitFreeLane(st: State, src: Source, lane: nat, target: nat, w: real)
    requires Shape(st) && lane < LANES && Untouched(st, lane) && target < 16
    ensures CommitLane(st, src, lane, target, w) == Outcome(WithLane(st, src, lane, target, w), true)
  {
    var st' := WithLane(st, src, lane, target, w);
    assert Abs(w) <= 1.0 ==> st'.up == st.up;
  }

  lemma WithLaneGood(st: State, src: Source, lane: nat, target: nat, w: real)
    requires Good(st) && lane < LANES && Free(st, lane) && target < 16 && Abs(w) <= 8.0
    requires lane >= FIRST_ACL_LANE ==> forall k :: 0 <= k < FIRST_ACL_LANE ==> st.general[k]
    ensures Good(WithLane(st, src, lane, target, w))
  {
    var st' := WithLane(st, src, lane, target, w);
    assert Untouched(st, lane);
    forall l | 0 <= l < LANES && Free(st', l) ensures Untouched(st', l) {
      assert Free(st, l) && l != lane;
      assert Untouched(st, l);
    }
    forall l | 0 <= l < LANES && st'.general[l] ensures !Reserved(st', l) {
      assert !Reserved(st, l);
    }
  }

  lemma WithLaneContribution(st: State, src: Source, lane: nat, target: nat, w: real,
                             giver: bool, sig: Signal, input: nat, l: nat)
    requires Good(st) && lane < LANES && Free(st, lane) && target < 16 && input < 16 && l < LANES
    ensures Contribution(WithLane(st, src, lane, target, w), giver, sig, input, l)
         == if l == lane then (if input == target && sig == SignalOn(src, lane, giver) then w else 0.0)
            else Contribution(st, giver, sig, input, l)
    ensures Contribution(st, giver, sig, input, lane) == 0.0
  {
    NotExternal(st, lane);
    hide Good;
  }

  lemma NotExternal(st: State, lane: nat)
    requires Good(st) && lane < LANES && Free(st, lane)
    ensures Untouched(st, lane) && !External(st, lane)
  {
  }

  /** Committing one free lane succeeds, adds its weight to one entry of the map and changes no other. */
  lemma CommitLaneAdds(st: State, src: Source, lane: nat, target: nat, w: real, giver: bool, sig: Signal, input: nat)
    requires Good(st) && lane < LANES && Free(st, lane) && target < 16 && Abs(w) <= 8.0 && input < 16
    requires lane >= FIRST_ACL_LANE ==> forall k :: 0 <= k < FIRST_ACL_LANE ==> st.general[k]
    ensures var o := CommitLane(st, src, lane, target, w);
            && o.ok && Good(o.st) && SameButLane(st, o.st, lane)
            && Realised(o.st, giver, sig, input)
               == Realised(st, giver, sig, input)
                  + if input == target && sig == SignalOn(src, lane, giver) then w else 0.0
  {
    NotExternal(st, lane);
    CommitFreeLane(st, src, lane, target, w);
    WithLaneGood(st, src, lane, target, w);
    var st' := WithLane(st, src, lane, target, w);
    forall l | 0 <= l < LANES && l != lane
      ensures Contribution(st', giver, sig, input, l) == Contribution(st, giver, sig, input, l)
    {
      WithLaneContribution(st, src, lane, target, w, giver, sig, input, l);
    }
    WithLaneContribution(st, src, lane, target, w, giver, sig, input, lane);
    hide Good, Contribution, Untouched, CommitLane;
    SumDiffers(st, st', giver, sig, input, lane, LANES);
  }

  /** Only `lane` changed hands and no port did. */
  predicate SameButLane(st: State, st': State, lane: nat)
    requires Shape(st) && lane < LANES
  {
    Shape(st') && st'.general == st.general[lane := true] && st'.aclIn == st.aclIn && st'.aclOut == st.aclOut
    && st'.external == st.external && st'.giver == st.giver
  }

  // ---------------------------------------------------------------- the greedy order

  lemma {:induction false} AvailableSame(st: State, st': State, from: nat)
    requires Shape(st) && Shape(st') && from <= LANES
    requires forall l :: from <= l < LANES ==> Free(st', l) == Free(st, l)
    ensures Available(st', from) == Available(st, from)
    decreases LANES - from
  {
    hide Free;
    if from < LANES { AvailableSame(st, st', from + 1); }
  }

  lemma {:induction false} AvailableSkip(st: State, from: nat, end: nat)
    requires Shape(st) && from <= end <= LANES
    requires forall l :: from <= l < end ==> !Free(st, l)
    ensures Available(st, from) == Available(st, end)
    decreases end - from
  {
    hide Free;
    if from < end { AvailableSkip(st, from + 1, end); }
  }

  /** The first available lane is the lowest free one; the others are what is available behind it. */
  lemma {:induction false} AvailableHead(st: State, from: nat)
    requires Shape(st) && from <= LANES && Available(st, from) != []
    ensures var l := Available(st, from)[0];
            from <= l < LANES && Free(st, l) && Available(st, from) == [l] + Available(st, l + 1)
            && forall k :: from <= k < l ==> !Free(st, k)
    decreases LANES - from
  {
    hide Free;
    if from < LANES && !Free(st, from) { AvailableHead(st, from + 1); }
  }

  /** After the lowest free lane has been taken, the others are still available in the same order. */
  lemma AvailableAfter(st: State, st': State)
    requires Shape(st) && Available(st, 0) != [] && SameButLane(st, st', Available(st, 0)[0])
    ensures Available(st', 0) == Available(st, 0)[1..]
  {
    AvailableHead(st, 0);
    var l := Available(st, 0)[0];
    assert forall k :: 0 <= k < l ==> !Free(st', k) by {
      forall k | 0 <= k < l ensures !Free(st', k) { assert !Free(st, k); }
    }
    assert !Free(st', l);
    assert forall k :: l + 1 <= k < LANES ==> Free(st', k) == Free(st, k);
    hide *;
    AvailableSkip(st', 0, l + 1);
    AvailableSame(st, st', l + 1);
  }

  lemma LowestFreeLane(st: State, lane: nat)
    requires Good(st) && lane < LANES && forall k :: 0 <= k < lane ==> !Free(st, k)
    ensures lane >= FIRST_ACL_LANE ==> forall k :: 0 <= k < FIRST_ACL_LANE ==> st.general[k]
  {
    forall k | 0 <= k < FIRST_ACL_LANE && lane >= FIRST_ACL_LANE ensures st.general[k] {
      assert !Free(st, k);
    }
  }

  // ---------------------------------------------------------------- one connection

  /** How many of the lanes `ls` would carry `sig`, times the weight of each. */
  function Share(src: Source, ls: seq<nat>, giver: bool, sig: Signal, w: real): real {
    if ls == [] then 0.0
    else Share(src, ls[1..], giver, sig, w) + if sig == SignalOn(src, ls[0], giver) then w else 0.0
  }

  lemma {:induction false} CommitAdds(st: State, src: Source, n: nat, target: nat, w: real, giver: bool, sig: Signal,
                                      input: nat)
    requires Good(st) && n <= |Available(st, 0)| && target < 16 && Abs(w) <= 8.0 && input < 16
    ensures var ls := Available(st, 0)[..n];
            var o := Commit(st, src, ls, target, w);
            && o.ok && Good(o.st) && o.st.giver == st.giver
            && o.st.aclIn == st.aclIn && o.st.aclOut == st.aclOut
            && Available(o.st, 0) == Available(st, 0)[n..]
            && Realised(o.st, giver, sig, input)
               == Realised(st, giver, sig, input) + if input == target then Share(src, ls, giver, sig, w) else 0.0
    decreases n
  {
    hide Good, Available, Commit, Realised, Share, SignalOn, Shape;
    GoodHasShape(st);
    CommitNone(st, src, target, w, giver, sig);
    var all := Available(st, 0);
    assert all[..0] == [] && all[0..] == all;
    if n > 0 {
      var st' := CommitStep(st, src, n, target, w, giver, sig, input);
      GoodHasShape(st');
      CommitAdds(st', src, n - 1, target, w, giver, sig, input);
      ShareFirst(src, all[..n], giver, sig, w);
      assert all[..n][1..] == all[1..][..n - 1];
      assert all[1..][n - 1..] == all[n..];
    }
  }

  lemma GoodHasShape(st: State)
    requires Good(st)
    ensures Shape(st)
  {
  }

  lemma CommitNone(st: State, src: Source, target: int, w: real, giver: bool, sig: Signal)
    requires Shape(st)
    ensures Commit(st, src, [], target, w) == Outcome(st, true) && Share(src, [], giver, sig, w) == 0.0
  {
  }

  lemma ShareFirst(src: Source, ls: seq<nat>, giver: bool, sig: Signal, w: real)
    requires ls != []
    ensures Share(src, ls, giver, sig, w)
         == (if sig == SignalOn(src, ls[0], giver) then w else 0.0) + Share(src, ls[1..], giver, sig, w)
  {
  }

  /** Committing the first `n` available lanes is committing the first and then `n - 1` of the others. */
  lemma CommitStep(st: State, src: Source, n: nat, target: nat, w: real, giver: bool, sig: Signal, input: nat)
    returns (st': State)
    requires Good(st) && 0 < n <= |Available(st, 0)| && target < 16 && Abs(w) <= 8.0 && input < 16
    ensures Good(st') && st'.giver == st.giver && st'.aclIn == st.aclIn && st'.aclOut == st.aclOut
    ensures Available(st', 0) == Available(st, 0)[1..]
    ensures Commit(st, src, Available(st, 0)[..n], target, w) == Commit(st', src, Available(st', 0)[..n - 1], target, w)
    ensures Realised(st', giver, sig, input)
         == Realised(st, giver, sig, input)
            + if input == target && sig == SignalOn(src, Available(st, 0)[0], giver) then w else 0.0
  {
    hide Good, Available, Commit, CommitLane, Realised, Free, SignalOn, SameButLane;
    FirstAvailable(st, n);
    var all := Available(st, 0);
    LowestFreeLane(st, all[0]);
    CommitLaneAdds(st, src, all[0], target, w, giver, sig, input);
    st' := CommitLane(st, src, all[0], target, w).st;
    CommitLaneFrame(st, src, all[0], target, w);
    AvailableAfter(st, st');
    CommitFirst(st, src, all[..n], target, w);
    assert all[..n][1..] == all[1..][..n - 1];
  }

  lemma FirstAvailable(st: State, n: nat)
    requires Good(st) && 0 < n <= |Available(st, 0)|
    ensures Shape(st) && Available(st, 0) != []
    ensures var l := Available(st, 0)[0]; l < LANES && Free(st, l) && forall k :: 0 <= k < l ==> !Free(st, k)
    ensures forall k :: 0 <= k < n ==> Available(st, 0)[..n][k] < LANES
  {
    AvailableHead(st, 0);
    hide Free;
  }

  lemma CommitLaneFrame(st: State, src: Source, lane: nat, target: int, w: real)
    requires Shape(st) && lane < LANES
    ensures var r := CommitLane(st, src, lane, target, w).st;
            r.giver == st.giver && r.aclIn == st.aclIn && r.aclOut == st.aclOut
  {
  }

  lemma CommitFirst(st: State, src: Source, ls: seq<nat>, target: int, w: real)
    requires Shape(st) && ls != [] && (forall k :: 0 <= k < |ls| ==> ls[k] < LANES)
    requires CommitLane(st, src, ls[0], target, w).ok
    ensures Commit(st, src, ls, target, w) == Commit(CommitLane(st, src, ls[0], target, w).st, src, ls[1..], target, w)
  {
  }
}
