/**
 Session admission, queueing and promotion in the proxy (proxy/proxy_server.cpp): the critical sections
 on the session deque, and the server and session threads as an interleaving of steps.  A session's
 number is its place in the order of admission; a message's number its place in the order of arrival.
 */
module ProxySessions {
  import opened Common

  // ---------------------------------------------------------------- the deque

  /** The deque without its disconnected front. */
  function DropFront(deque: seq<nat>, gone: set<nat>): (r: seq<nat>)
    ensures r != [] ==> r[0] !in gone
  {
    if deque != [] && deque[0] in gone then DropFront(deque[1..], gone) else deque
  }

  /** `std::find` and `erase`. */
  function Remove(deque: seq<nat>, x: nat): seq<nat> {
    if deque == [] then []
    else if deque[0] == x then deque[1..]
    else [deque[0]] + Remove(deque[1..], x)
  }

  function RemoveAll(deque: seq<nat>, drop: seq<nat>): seq<nat> {
    if drop == [] then deque else Remove(RemoveAll(deque, drop[..|drop| - 1]), drop[|drop| - 1])
  }

  function Total(deque: seq<nat>, active: Option<nat>): nat {
    |deque| + if active.Some? then 1 else 0
  }

  // ---------------------------------------------------------------- the two threads

  datatype Worker = Resting | Promoted(s: nat) | Dispatching(s: nat)

  /** A poll of the queued sessions: what is left of its snapshot, whom to drop, and a message taken from a
      session and not yet dealt with. */
  datatype Poll = NoPoll | Polling(todo: seq<nat>, drop: seq<nat>, hand: Option<(nat, nat)>)

  /** `polled` lists the messages that the poll answered, each with its session; the session thread handled the
      others.  `since` is how many sessions had been activated when the snapshot was taken. */
  datatype State = State(
    max: nat, slots: seq<Option<nat>>, deque: seq<nat>, active: Option<nat>, worker: Worker, poll: Poll,
    gone: set<nat>, healthy: bool, arrived: nat, handled: seq<nat>, activated: seq<nat>, ended: seq<nat>,
    polled: seq<(nat, nat)>, since: nat)

  datatype Heard = Nothing | Closed | Something

  datatype Event =
    | Accept(first: bool)   // a client connects, with or without a first message already read
    | Snapshot
    | Visit(heard: Heard)   // the poll looks at the next session of its snapshot
    | Handle(auth: bool)    // and deals with the message it took
    | Sweep
    | Promote
    | TakeFirst             // the session thread takes the stashed message
    | Dispatch              // or one from the wire
    | End
    | Disconnect(s: nat)
    | Health(up: bool)

  function Init(max: nat): State {
    State(max, [], [], None, Resting, NoPoll, {}, true, 0, [], [], [], [], 0)
  }

  function Step(s: State, e: Event): State {
    match e
    case Accept(first) =>
      if !s.poll.NoPoll? || Total(s.deque, s.active) >= s.max then s
      else s.(deque := s.deque + [|s.slots|], slots := s.slots + [if first then Some(s.arrived) else None],
              arrived := s.arrived + if first then 1 else 0)
    case Snapshot => if !s.poll.NoPoll? then s else s.(poll := Polling(s.deque, [], None), since := |s.activated|)
    case Visit(heard) =>
      if s.poll.Polling? && s.poll.hand.None? && s.poll.todo != [] && s.poll.todo[0] < |s.slots|
      then VisitNext(s, heard) else s
    case Handle(auth) =>
      if s.poll.Polling? && s.poll.hand.Some? && s.poll.hand.value.0 < |s.slots| then HandleTaken(s, auth) else s
    case Sweep =>
      if s.poll.Polling? && s.poll.hand.None? && s.poll.todo == []
      then s.(deque := RemoveAll(s.deque, s.poll.drop), poll := NoPoll) else s
    case Promote => if s.worker.Resting? then PromoteFront(s) else s
    case TakeFirst =>
      if s.worker.Promoted? && s.worker.s < |s.slots| then
        s.(slots := s.slots[s.worker.s := None], worker := Dispatching(s.worker.s),
           handled := s.handled + if s.slots[s.worker.s].Some? then [s.slots[s.worker.s].value] else [])
      else s
    case Dispatch =>
      if s.worker.Dispatching? then s.(arrived := s.arrived + 1, handled := s.handled + [s.arrived]) else s
    case End =>
      if s.worker.Dispatching? then s.(active := None, worker := Resting, ended := s.ended + [s.worker.s]) else s
    case Disconnect(x) => s.(gone := s.gone + {x})
    case Health(up) => s.(healthy := up)
  }

  function VisitNext(s: State, heard: Heard): State
    requires s.poll.Polling? && s.poll.hand.None? && s.poll.todo != [] && s.poll.todo[0] < |s.slots|
  {
    var x, rest := s.poll.todo[0], s.poll.todo[1..];
    if x in s.gone then s.(poll := Polling(rest, s.poll.drop + [x], None))
    else if s.slots[x].Some? then
      s.(slots := s.slots[x := None], poll := Polling(rest, s.poll.drop, Some((x, s.slots[x].value))))
    else (
      match heard
      case Nothing => s.(poll := Polling(rest, s.poll.drop, None))
      case Closed => s.(poll := Polling(rest, s.poll.drop + [x], None))
      case Something => s.(poll := Polling(rest, s.poll.drop, Some((x, s.arrived))), arrived := s.arrived + 1)
    )
  }

  /** A message other than authentication is stashed again while a backend is down, otherwise answered. */
  function HandleTaken(s: State, auth: bool): State
    requires s.poll.Polling? && s.poll.hand.Some? && s.poll.hand.value.0 < |s.slots|
  {
    var (x, m) := s.poll.hand.value;
    var done := s.poll.(hand := None);
    if !auth && !s.healthy then s.(slots := s.slots[x := Some(m)], poll := done)
    else s.(handled := s.handled + [m], poll := done, polled := s.polled + [(x, m)])
  }

  function PromoteFront(s: State): State {
    var rest := DropFront(s.deque, s.gone);
    if rest == [] || !s.healthy then s.(deque := rest)
    else
      s.(deque := rest[1..], active := Some(rest[0]), worker := Promoted(rest[0]),
         activated := s.activated + [rest[0]])
  }

  function Run(max: nat, events: seq<Event>): State {
    if events == [] then Init(max) else Step(Run(max, events[..|events| - 1]), events[|events| - 1])
  }

  // ---------------------------------------------------------------- the object

  /** The state guarded by the deque mutex.  `s` is the state of both threads that it is part of; each method
      is one step of that state. */
  class SessionQueue {
    const maxSessions: nat
    var deque: seq<nat>
    var active: Option<nat>
    var admitted: nat

    ghost predicate Shows(s: State)
      reads this
    {
      s.max == maxSessions && s.deque == deque && s.active == active && |s.slots| == admitted
    }

    constructor (maxSessions: nat)
      ensures Shows(Init(maxSessions))
    {
      this.maxSessions, deque, active, admitted := maxSessions, [], None, 0;
    }

    /** Admission in `server_loop`. */
    method Admit(ghost s: State, ghost first: bool) returns (ok: bool)
      requires Shows(s) && s.poll.NoPoll?
      modifies this
      ensures Shows(Step(s, Accept(first))) && ok == (Total(s.deque, s.active) < s.max)
    {
      var total := |deque| + if active.Some? then 1 else 0;
      ok := total < maxSessions;
      if ok {
        deque := deque + [admitted];
        admitted := admitted + 1;
      }
    }

    /** The first section of `poll_queued`. */
    method TakeSnapshot(ghost s: State) returns (todo: seq<nat>)
      requires Shows(s) && s.poll.NoPoll?
      ensures unchanged(this)
      ensures Shows(Step(s, Snapshot)) && Step(s, Snapshot).poll == Polling(todo, [], None)
    {
      todo := deque;
    }

    /** The last section of `poll_queued`. */
    method SweepDropped(ghost s: State, drop: seq<nat>)
      requires Shows(s) && s.poll == Polling([], drop, None)
      modifies this
      ensures Shows(Step(s, Sweep)) && Step(s, Sweep).poll == NoPoll
    {
      for k := 0 to |drop|
        invariant deque == RemoveAll(s.deque, drop[..k])
        invariant s.active == active && |s.slots| == admitted
      {
        assert drop[..k + 1][..k] == drop[..k];
        deque := Remove(deque, drop[k]);
      }
      assert drop[..|drop|] == drop;
    }

    /** The first section of `session_loop`. */
    method PromoteNext(ghost s: State, gone: set<nat>, healthy: bool) returns (sess: Option<nat>)
      requires Shows(s) && s.worker.Resting? && gone == s.gone && healthy == s.healthy
      modifies this
      ensures Shows(Step(s, Promote))
      ensures Step(s, Promote).worker == if sess.Some? then Promoted(sess.value) else Resting
    {
      while deque != [] && deque[0] in gone
        invariant DropFront(deque, gone) == DropFront(s.deque, gone)
        invariant s.active == active && |s.slots| == admitted
        decreases |deque|
      {
        deque := deque[1..];
      }
      sess := None;
      if deque != [] && healthy {
        active := Some(deque[0]);
        sess := active;
        deque := deque[1..];
      }
    }

    /** The last section of `session_loop`. */
    method Deactivate(ghost s: State)
      requires Shows(s) && s.worker.Dispatching?
      modifies this
      ensures Shows(Step(s, End))
    {
      active := None;
    }
  }

  // ---------------------------------------------------------------- queue discipline

  predicate Increasing(q: seq<nat>) {
    forall i, j :: 0 <= i < j < |q| ==> q[i] < q[j]
  }

  /** Everything promoted was admitted before everything still queued; one session at most is active. */
  ghost predicate QueueInv(s: State) {
    && Increasing(s.activated + s.deque)
    && (forall x :: x in s.activated + s.deque ==> x < |s.slots|)
    && Total(s.deque, s.active) <= s.max
    && (s.worker.Resting? <==> s.active.None?)
    && (!s.worker.Resting? ==> s.active == Some(s.worker.s))
    && s.activated == s.ended + if s.active.Some? then [s.active.value] else []
  }

  lemma {:induction false} DropFrontSuffix(deque: seq<nat>, gone: set<nat>) returns (n: nat)
    ensures n <= |deque| && DropFront(deque, gone) == deque[n..]
  {
    if deque != [] && deque[0] in gone {
      n := DropFrontSuffix(deque[1..], gone);
      n := n + 1;
    } else {
      n := 0;
    }
  }

  lemma {:induction false} RemoveKeeps(before: seq<nat>, q: seq<nat>, x: nat)
    requires Increasing(before + q)
    ensures |Remove(q, x)| <= |q| && Increasing(before + Remove(q, x))
    ensures forall y :: y in Remove(q, x) <==> y in q && y != x
    decreases |q|
  {
    hide Increasing;
    if q != [] {
      var first, rest := q[0], q[1..];
      assert q == [first] + rest;
      assert before + q == before + [first] + rest;
      WithoutMiddle(before, first, rest);
      if first != x {
        RemoveKeeps(before + [first], rest, x);
        assert before + ([first] + Remove(rest, x)) == before + [first] + Remove(rest, x);
      }
    }
  }

  lemma WithoutMiddle(a: seq<nat>, x: nat, b: seq<nat>)
    requires Increasing(a + [x] + b)
    ensures Increasing(a + b) && x !in b
  {
    var t, u := a + [x] + b, a + b;
    forall i, j | 0 <= i < j < |u| ensures u[i] < u[j] {
      assert u[i] == t[if i < |a| then i else i + 1] && u[j] == t[if j < |a| then j else j + 1];
    }
    forall i | 0 <= i < |b| ensures x < b[i] {
      assert t[|a|] == x && t[|a| + 1 + i] == b[i];
    }
  }

  lemma {:induction false} RemoveAllKeeps(before: seq<nat>, q: seq<nat>, drop: seq<nat>)
    requires Increasing(before + q)
    ensures |RemoveAll(q, drop)| <= |q| && Increasing(before + RemoveAll(q, drop))
    ensures forall y :: y in RemoveAll(q, drop) <==> y in q && y !in drop
  {
    if drop != [] {
      var n := |drop| - 1;
      RemoveAllKeeps(before, q, drop[..n]);
      RemoveKeeps(before, RemoveAll(q, drop[..n]), drop[n]);
      assert drop == drop[..n] + [drop[n]];
    }
  }

  lemma {:induction false} IncreasingPart(a: seq<nat>, b: seq<nat>, n: nat)
    requires Increasing(a + b) && n <= |b|
    ensures Increasing(a + b[n..])
    decreases n
  {
    if n > 0 {
      IncreasingPart(a, b, n - 1);
      assert a + b[n - 1..] == a + [b[n - 1]] + b[n..];
      WithoutMiddle(a, b[n - 1], b[n..]);
    } else {
      assert b[0..] == b;
    }
  }

  lemma QueueAccept(s: State, first: bool)
    requires QueueInv(s)
    ensures QueueInv(Step(s, Accept(first)))
  {
    var t, n := s.activated + s.deque, |s.slots|;
    assert s.activated + (s.deque + [n]) == t + [n];
    assert forall i :: 0 <= i < |t| ==> t[i] in t;
    assert Increasing(t + [n]);
    hide Increasing;
  }

  lemma QueueSweep(s: State)
    requires QueueInv(s)
    ensures QueueInv(Step(s, Sweep))
  {
    hide Increasing, RemoveAll;
    if s.poll.Polling? {
      RemoveAllKeeps(s.activated, s.deque, s.poll.drop);
      assert forall x :: x in s.activated + RemoveAll(s.deque, s.poll.drop) ==> x in s.activated + s.deque;
    }
  }

  lemma QueuePromote(s: State)
    requires QueueInv(s)
    ensures QueueInv(Step(s, Promote))
  {
    hide Increasing, DropFront;
    var n := DropFrontSuffix(s.deque, s.gone);
    IncreasingPart(s.activated, s.deque, n);
    var rest := s.deque[n..];
    assert forall x :: x in s.activated + rest ==> x in s.activated + s.deque;
    if rest != [] {
      assert s.activated + rest == (s.activated + [rest[0]]) + rest[1..];
    }
  }

  lemma QueueEnd(s: State)
    requires QueueInv(s)
    ensures QueueInv(Step(s, End))
  {
    hide Increasing;
  }

  /** A step that touches neither the queue nor who is active. */
  lemma QueueKept(s: State, r: State)
    requires QueueInv(s) && r.max == s.max && |r.slots| == |s.slots| && r.deque == s.deque && r.active == s.active
    requires r.activated == s.activated && r.ended == s.ended && r.worker.Resting? == s.worker.Resting?
    requires !s.worker.Resting? ==> r.worker.s == s.worker.s
    ensures QueueInv(r)
  {
    hide Increasing;
  }

  lemma QueueInvStep(s: State, e: Event)
    requires QueueInv(s)
    ensures QueueInv(Step(s, e))
  {
    hide QueueInv, RemoveAll, DropFront;
    match e
    case Accept(first) => QueueAccept(s, first);
    case Sweep => QueueSweep(s);
    case Promote => QueuePromote(s);
    case End => QueueEnd(s);
    case _ => QueueKept(s, Step(s, e));
  }

  lemma {:induction false} RunQueueInv(max: nat, events: seq<Event>)
    ensures QueueInv(Run(max, events))
  {
    if events != [] {
      RunQueueInv(max, events[..|events| - 1]);
      QueueInvStep(Run(max, events[..|events| - 1]), events[|events| - 1]);
      hide QueueInv, Step;
    }
  }
}
