/**
 Aggregation of the run state over the carriers involved (redac/controller.py, `DistributedRunState`).
 */
module RunStates {
  import opened Common

  datatype RunState = New | Queued | TakeOff | Ic | Op | OpEnd | Done | Error | TmpHalt

  /** `state_order`. */
  const STATE_ORDER: seq<RunState> := [New, Queued, TakeOff, Ic, Op, OpEnd, Done]

  /** How far a state is along the run; an error is final, a halt is not part of the order. */
  function Progress(s: RunState): int {
    match s
    case New => 0 case Queued => 1 case TakeOff => 2 case Ic => 3 case Op => 4 case OpEnd => 5 case Done => 6
    case Error => 7 case TmpHalt => -1
  }

  /** The states each path has reported so far. */
  type Reports = map<string, set<RunState>>

  predicate AllReached(r: Reports, s: RunState) {
    forall p :: p in r ==> s in r[p]
  }

  predicate SomeError(r: Reports) {
    exists p :: p in r && Error in r[p]
  }

  /** The furthest of the first `n` states of the order that all paths have reached. */
  function Furthest(r: Reports, n: nat): (s: Option<RunState>)
    requires n <= |STATE_ORDER|
    ensures s.Some? ==> s.value in STATE_ORDER[..n] && AllReached(r, s.value)
    ensures forall k :: 0 <= k < n && AllReached(r, STATE_ORDER[k]) ==> s.Some? && k <= Progress(s.value)
  {
    if n == 0 then None
    else if AllReached(r, STATE_ORDER[n - 1]) then Some(STATE_ORDER[n - 1])
    else Furthest(r, n - 1)
  }

  /** What the reports say the run's state is, if they say anything. */
  function Verdict(r: Reports): Option<RunState> {
    if r == map[] then None
    else if SomeError(r) then Some(Error)
    else Furthest(r, |STATE_ORDER|)
  }

  function Updated(r: Reports, current: RunState): RunState {
    if Verdict(r).Some? then Verdict(r).value else current
  }

  function Reported(r: Reports, path: string, s: RunState): Reports {
    if path in r then r[path := r[path] + {s}] else r
  }

  // ---------------------------------------------------------------- the object

  class DistributedRunState {
    var states: Reports
    var runState: RunState

    /** `__init__` with `add_paths`: every path starts with no state reached. */
    constructor (paths: set<string>, initial: RunState)
      ensures states == (map p | p in paths :: {}) && runState == initial
    {
      states, runState := map p | p in paths :: {}, initial;
    }

    /** `track`; `ok` is false for the key error of an unknown path. */
    method Track(path: string, s: RunState) returns (ok: bool)
      modifies this
      ensures ok <==> path in old(states)
      ensures states == Reported(old(states), path, s)
      ensures runState == if ok then Updated(states, old(runState)) else old(runState)
    {
      if path !in states {
        return false;
      }
      states := states[path := states[path] + {s}];
      UpdateRunState();
      ok := true;
    }

    /** `_update_run_state`. */
    method UpdateRunState()
      modifies this`runState
      ensures runState == Updated(states, old(runState))
    {
      if states == map[] {
        return;
      }
      var error := AnyError();
      if error {
        runState := Error;
        return;
      }
      var k := |STATE_ORDER|;
      while k > 0
        invariant 0 <= k <= |STATE_ORDER| && runState == old(runState)
        invariant Furthest(states, |STATE_ORDER|) == Furthest(states, k)
      {
        k := k - 1;
        var all := EveryReached(STATE_ORDER[k]);
        if all {
          runState := STATE_ORDER[k];
          return;
        }
      }
    }

    method AnyError() returns (found: bool)
      ensures found == SomeError(states)
    {
      var left := states.Keys;
      while left != {}
        invariant left <= states.Keys
        invariant forall p :: p in states && p !in left ==> Error !in states[p]
        decreases left
      {
        var p :| p in left;
        if Error in states[p] {
          return true;
        }
        left := left - {p};
      }
      found := false;
    }

    method EveryReached(s: RunState) returns (all: bool)
      ensures all == AllReached(states, s)
    {
      var left := states.Keys;
      while left != {}
        invariant left <= states.Keys
        invariant forall p :: p in states && p !in left ==> s in states[p]
        decreases left
      {
        var p :| p in left;
        if s !in states[p] {
          return false;
        }
        left := left - {p};
      }
      all := true;
    }
  }

  // ---------------------------------------------------------------- runs

  datatype Event = Event(path: string, state: RunState)

  datatype Tracker = Tracker(reports: Reports, state: RunState)

  /** One `track` call. */
  function Tracked(t: Tracker, e: Event): Tracker {
    var r := Reported(t.reports, e.path, e.state);
    Tracker(r, if e.path in t.reports then Updated(r, t.state) else t.state)
  }

  function TrackAll(paths: set<string>, initial: RunState, events: seq<Event>): Tracker {
    if events == [] then Tracker(map p | p in paths :: {}, initial)
    else Tracked(TrackAll(paths, initial, events[..|events| - 1]), events[|events| - 1])
  }

  /** What a set of events says each path has reached. */
  ghost function ReportsOf(paths: set<string>, events: set<Event>): Reports {
    map p | p in paths :: set e | e in events && e.path == p :: e.state
  }

  /** More reports never take a verdict back, and a verdict only moves forward. */
  lemma VerdictGrows(a: Reports, b: Reports)
    requires a.Keys == b.Keys && forall p :: p in a ==> a[p] <= b[p]
    ensures Verdict(a).Some? ==> Verdict(b).Some? && Progress(Verdict(a).value) <= Progress(Verdict(b).value)
  {
    if a != map[] {
      if SomeError(a) {
        var p :| p in a && Error in a[p];
        assert Error in b[p];
      } else if Verdict(a).Some? && !SomeError(b) {
        var s := Verdict(a).value;
        var k :| 0 <= k < |STATE_ORDER| && STATE_ORDER[k] == s;
        assert AllReached(b, STATE_ORDER[k]);
        OrderIsProgress(k);
      } else if Verdict(a).Some? {
        var s := Verdict(a).value;
        var k :| 0 <= k < |STATE_ORDER| && STATE_ORDER[k] == s;
        OrderIsProgress(k);
      }
    }
  }

  lemma OrderIsProgress(k: nat)
    requires k < |STATE_ORDER|
    ensures Progress(STATE_ORDER[k]) == k
  {
  }

  lemma {:induction false} ReportsTracked(paths: set<string>, initial: RunState, events: seq<Event>)
    ensures TrackAll(paths, initial, events).reports == ReportsOf(paths, set e | e in events)
  {
    var after := set e | e in events;
    if events == [] {
      forall p | p in paths ensures ReportsOf(paths, after)[p] == {} {
      }
      assert ReportsOf(paths, after) == map p | p in paths :: {};
    } else {
      var n := |events| - 1;
      ReportsTracked(paths, initial, events[..n]);
      assert events == events[..n] + [events[n]];
      var e, before := events[n], set e | e in events[..n];
      assert after == before + {e};
      OneMoreReport(paths, before, e);
    }
  }

  lemma OneMoreReport(paths: set<string>, before: set<Event>, e: Event)
    ensures ReportsOf(paths, before + {e}) == Reported(ReportsOf(paths, before), e.path, e.state)
  {
    var a, b := ReportsOf(paths, before), ReportsOf(paths, before + {e});
    forall p | p in paths ensures b[p] == a[p] + if p == e.path then {e.state} else {} {
      forall s | s in a[p] + (if p == e.path then {e.state} else {}) ensures s in b[p] {
        assert p == e.path && s == e.state ==> e in before + {e};
      }
    }
    var c := Reported(a, e.path, e.state);
    assert b.Keys == paths == c.Keys;
    assert forall p :: p in paths ==> c[p] == b[p];
  }

  /** Main result: after any sequence of `track` calls the run's state is a function of the set of events,
      whatever their order and however often each is repeated. */
  lemma {:induction false} StateOfEventSet(paths: set<string>, initial: RunState, events: seq<Event>)
    ensures TrackAll(paths, initial, events).state == Updated(ReportsOf(paths, set e | e in events), initial)
  {
    ReportsTracked(paths, initial, events);
    if events == [] {
      NothingReported(paths);
    } else {
      var n := |events| - 1;
      StateOfEventSet(paths, initial, events[..n]);
      ReportsTracked(paths, initial, events[..n]);
      var a, b := TrackAll(paths, initial, events[..n]).reports, TrackAll(paths, initial, events).reports;
      VerdictGrows(a, b);
    }
  }

  lemma NothingReported(paths: set<string>)
    ensures Verdict(map p | p in paths :: {}).None?
  {
    var r: Reports := map p | p in paths :: {};
    if r != map[] {
      var p :| p in r;
      assert r[p] == {};
      assert forall s :: !AllReached(r, s);
    }
  }

  /** Two sequences of calls with the same events lead to the same state. */
  lemma OrderIrrelevant(paths: set<string>, initial: RunState, a: seq<Event>, b: seq<Event>)
    requires forall e :: e in a <==> e in b
    ensures TrackAll(paths, initial, a).state == TrackAll(paths, initial, b).state
  {
    StateOfEventSet(paths, initial, a);
    StateOfEventSet(paths, initial, b);
    assert (set e | e in a) == (set e | e in b);
  }

  /** The run is in error exactly if some carrier reported one. */
  lemma ErrorReported(paths: set<string>, initial: RunState, events: seq<Event>)
    requires initial != Error
    ensures TrackAll(paths, initial, events).state == Error
        <==> exists e :: e in events && e.path in paths && e.state == Error
  {
    var all := set e | e in events;
    var r := ReportsOf(paths, all);
    StateOfEventSet(paths, initial, events);
    if e :| e in events && e.path in paths && e.state == Error {
      assert e in all && e.path in r && Error in r[e.path];
      assert r != map[] by {
        assert e.path in r.Keys;
      }
    } else {
      forall p | p in r ensures Error !in r[p] {
      }
      assert forall k :: 0 <= k < |STATE_ORDER| ==> STATE_ORDER[k] != Error;
    }
  }

  /** Main result in terms of reports: with at least one carrier, and no error among their reports, the run is in
      the furthest of the seven states, in this order, that every carrier has reported; with none it stays as it
      was. */
  lemma FurthestReported(paths: set<string>, initial: RunState, events: seq<Event>, k: nat)
    requires paths != {} && k < 7
    requires forall e :: e in events && e.path in paths ==> e.state != Error
    ensures var order := [New, Queued, TakeOff, Ic, Op, OpEnd, Done];
            && ((forall p :: p in paths ==> Event(p, order[k]) in events) &&
                (forall j :: k < j < 7 ==> exists p :: p in paths && Event(p, order[j]) !in events)
                ==> TrackAll(paths, initial, events).state == order[k])
            && ((forall j :: 0 <= j < 7 ==> exists p :: p in paths && Event(p, order[j]) !in events)
                ==> TrackAll(paths, initial, events).state == initial)
  {
    hide TrackAll;
    var all := set e | e in events;
    StateOfEventSet(paths, initial, events);
    var r := ReportsOf(paths, all);
    assert r != map[] by { var p :| p in paths; assert p in r; }
    NoErrorAmong(paths, events);
    forall s: RunState ensures AllReached(r, s) <==> forall p :: p in paths ==> Event(p, s) in events {
      ReachedIsReported(paths, events, s);
    }
    FurthestIs(r, k);
  }

  lemma NoErrorAmong(paths: set<string>, events: seq<Event>)
    requires forall e :: e in events && e.path in paths ==> e.state != Error
    ensures !SomeError(ReportsOf(paths, set e | e in events))
  {
  }

  lemma ReachedIsReported(paths: set<string>, events: seq<Event>, s: RunState)
    ensures AllReached(ReportsOf(paths, set e | e in events), s) <==> forall p :: p in paths ==> Event(p, s) in events
  {
    var all := set e | e in events;
    var r := ReportsOf(paths, all);
    forall p | p in paths ensures s in r[p] <==> Event(p, s) in events {
      if Event(p, s) in events {
        assert Event(p, s) in all && Event(p, s).path == p;
      }
    }
  }

  lemma FurthestIs(r: Reports, k: nat)
    requires k < 7
    ensures var order := [New, Queued, TakeOff, Ic, Op, OpEnd, Done];
            && (AllReached(r, order[k]) && (forall j :: k < j < 7 ==> !AllReached(r, order[j]))
                ==> Furthest(r, |STATE_ORDER|) == Some(order[k]))
            && ((forall j :: 0 <= j < 7 ==> !AllReached(r, order[j])) ==> Furthest(r, |STATE_ORDER|) == None)
  {
    hide AllReached;
    var order := [New, Queued, TakeOff, Ic, Op, OpEnd, Done];
    assert STATE_ORDER == order;
    assert STATE_ORDER[..|STATE_ORDER|] == STATE_ORDER;
    var f := Furthest(r, |STATE_ORDER|);
    if f.Some? {
      var j :| 0 <= j < 7 && order[j] == f.value;
      assert Progress(order[j]) == j by { OrderIsProgress(j); }
    }
  }

  /** In particular a run is done as soon as every carrier has reported so, whatever else came and in whatever
      order. */
  lemma AllDone(paths: set<string>, initial: RunState, events: seq<Event>)
    requires paths != {} && forall p :: p in paths ==> Event(p, Done) in events
    requires forall e :: e in events && e.path in paths ==> e.state != Error
    ensures TrackAll(paths, initial, events).state == Done
  {
    hide TrackAll;
    FurthestReported(paths, initial, events, 6);
  }

  /** A further call moves the state backwards exactly in one case: the reports first amount to a state, and
      that state lies before the one the run was created with. */
  lemma BackwardsOnlyFromStart(paths: set<string>, initial: RunState, events: seq<Event>, e: Event)
    ensures var a, b := TrackAll(paths, initial, events), TrackAll(paths, initial, events + [e]);
            Progress(b.state) < Progress(a.state) <==>
            Verdict(a.reports).None? && Verdict(b.reports).Some? &&
            Progress(Verdict(b.reports).value) < Progress(initial)
  {
    var all := events + [e];
    assert all[..|all| - 1] == events;
    ReportsTracked(paths, initial, events);
    ReportsTracked(paths, initial, all);
    StateOfEventSet(paths, initial, events);
    StateOfEventSet(paths, initial, all);
    var a, b := TrackAll(paths, initial, events).reports, TrackAll(paths, initial, all).reports;
    assert b == Reported(a, e.path, e.state);
    VerdictGrows(a, b);
    hide TrackAll, Verdict;
  }

  /** Main result: a run that starts out new never moves backwards. */
  lemma NeverBackwards(paths: set<string>, events: seq<Event>, e: Event)
    ensures Progress(TrackAll(paths, New, events).state) <= Progress(TrackAll(paths, New, events + [e]).state)
  {
    hide TrackAll;
    BackwardsOnlyFromStart(paths, New, events, e);
    var b := TrackAll(paths, New, events + [e]).reports;
    VerdictInOrder(b);
  }

  lemma VerdictInOrder(r: Reports)
    ensures Verdict(r).Some? ==> Progress(Verdict(r).value) >= 0
  {
    if Verdict(r).Some? && Verdict(r).value != Error {
      var k :| 0 <= k < |STATE_ORDER| && STATE_ORDER[k] == Verdict(r).value;
      OrderIsProgress(k);
    }
  }

  /** A run handed over as already queued is set back to new by its carriers' first reports. */
  lemma QueuedRunSetBack(path: string)
    ensures TrackAll({path}, Queued, []).state == Queued
    ensures TrackAll({path}, Queued, [Event(path, New)]).state == New
  {
    var e := Event(path, New);
    StateOfEventSet({path}, Queued, [e]);
    var all := set x | x in [e];
    var r := ReportsOf({path}, all);
    assert all == {e};
    assert r[path] == {New};
    assert r != map[] && AllReached(r, STATE_ORDER[0]) && !SomeError(r);
    assert forall s :: s != New ==> !AllReached(r, s);
  }
}
