/**
 What holds in every interleaving of the proxy's server and session threads, and where a stale poll
 snapshot loses a client's message.
 */
module ProxyTheorems {
  import opened Common
  import opened ProxySessions

  /** Safety over whole runs: sessions become active one at a time, each only after the one before it has
      ended, in the order they were admitted, and never more than the maximum are queued or active. */
  lemma EveryRunOrdered(max: nat, events: seq<Event>)
    ensures var s := Run(max, events);
            Increasing(s.activated) && s.ended <= s.activated && |s.activated| <= |s.ended| + 1 &&
            (s.active.Some? <==> |s.activated| == |s.ended| + 1) && Total(s.deque, s.active) <= max &&
            forall x :: x in s.activated ==> x < |s.slots| && x !in s.deque
  {
    hide Run, Increasing;
    RunQueueInv(max, events);
    RunMax(max, events);
    var s := Run(max, events);
    PartsApart(s.activated, s.deque);
    assert forall x :: x in s.activated ==> x in s.activated + s.deque;
  }

  lemma PartsApart(a: seq<nat>, b: seq<nat>)
    requires Increasing(a + b)
    ensures Increasing(a) && forall x :: x in a ==> x !in b
  {
    var t := a + b;
    assert forall i :: 0 <= i < |a| ==> t[i] == a[i];
    assert forall i :: 0 <= i < |b| ==> t[|a| + i] == b[i];
  }

  lemma {:induction false} RunMax(max: nat, events: seq<Event>)
    ensures Run(max, events).max == max
  {
    hide Step;
    if events != [] {
      RunMax(max, events[..|events| - 1]);
      StepMax(Run(max, events[..|events| - 1]), events[|events| - 1]);
    }
  }

  lemma StepMax(s: State, e: Event)
    ensures Step(s, e).max == s.max
  {
  }

  /** No step takes a promoted session back, and only the end of its own dispatch deactivates it: whatever
      a stale poll does, the active session stays active and out of the queue. */
  lemma PromotedStays(s: State, e: Event, x: nat)
    requires QueueInv(s) && x in s.activated
    ensures x in Step(s, e).activated && x !in Step(s, e).deque
    ensures s.active == Some(x) && e != End ==> Step(s, e).active == Some(x)
  {
    hide Step, Increasing, QueueInv;
    QueueInvStep(s, e);
    ActivatedGrows(s, e);
    QueueIsApart(Step(s, e));
  }

  lemma ActivatedGrows(s: State, e: Event)
    requires QueueInv(s)
    ensures s.activated <= Step(s, e).activated
    ensures s.active.Some? && e != End ==> Step(s, e).active == s.active
  {
    hide Increasing, DropFront, RemoveAll;
  }

  lemma QueueIsApart(s: State)
    requires QueueInv(s)
    ensures forall x :: x in s.activated ==> x !in s.deque
  {
    hide Increasing;
    PartsApart(s.activated, s.deque);
  }

  /** The sweep that ends a poll removes exactly the sessions it found closed, if they are still queued. */
  lemma SweepRemoves(s: State, x: nat)
    requires QueueInv(s) && s.poll.Polling? && s.poll.hand.None? && s.poll.todo == []
    ensures x in Step(s, Sweep).deque <==> x in s.deque && x !in s.poll.drop
  {
    RemoveAllKeeps(s.activated, s.deque, s.poll.drop);
  }

  // ---------------------------------------------------------------- messages

  predicate InHand(s: State, t: nat) {
    s.poll.Polling? && s.poll.hand.Some? && s.poll.hand.value.1 == t
  }

  ghost predicate InSlot(s: State, t: nat) {
    exists x :: 0 <= x < |s.slots| && s.slots[x] == Some(t)
  }

  /** What is known of a message in a slot. */
  ghost predicate SlotInv(s: State, x: nat)
    requires x < |s.slots| && s.slots[x].Some?
  {
    var t := s.slots[x].value;
    && t < s.arrived && t !in s.handled && !InHand(s, t)
    && forall y :: 0 <= y < |s.slots| && s.slots[y] == s.slots[x] ==> y == x
  }

  predicate Distinct(q: seq<nat>) {
    forall i, j :: 0 <= i < j < |q| ==> q[i] != q[j]
  }

  lemma DistinctAppend(q: seq<nat>, t: nat)
    requires Distinct(q) && t !in q
    ensures Distinct(q + [t])
  {
  }

  ghost predicate MessageInv(s: State) {
    && Distinct(s.handled)
    && (forall t :: t in s.handled ==> t < s.arrived)
    && (forall x: nat :: x < |s.slots| && s.slots[x].Some? ==> SlotInv(s, x))
    && (s.poll.Polling? && s.poll.hand.Some? ==>
          var x := s.poll.hand.value;
          x.1 < s.arrived && x.1 !in s.handled && x.0 < |s.slots| && s.slots[x.0].None?)
    && forall t: nat :: t < s.arrived ==> t in s.handled || InHand(s, t) || InSlot(s, t)
  }

  lemma MessageAccept(s: State, first: bool)
    requires MessageInv(s)
    ensures MessageInv(Step(s, Accept(first)))
  {
    var r := Step(s, Accept(first));
    forall x: nat | x < |r.slots| && r.slots[x].Some? ensures SlotInv(r, x) {
      assert x < |s.slots| ==> SlotInv(s, x);
      forall y | 0 <= y < |r.slots| && r.slots[y] == r.slots[x] ensures y == x {
        assert y < |s.slots| && s.slots[y].Some? ==> SlotInv(s, y);
      }
    }
    forall t: nat | t < r.arrived ensures t in r.handled || InHand(r, t) || InSlot(r, t) {
      if InSlot(s, t) {
        var x :| 0 <= x < |s.slots| && s.slots[x] == Some(t);
        assert r.slots[x] == Some(t);
      }
      assert t == s.arrived ==> r.slots[|s.slots|] == Some(t);
    }
  }

  /** Nothing but the plan of the poll changes. */
  lemma MessagePlan(s: State, todo: seq<nat>, drop: seq<nat>)
    requires MessageInv(s) && s.poll.Polling? && s.poll.hand.None?
    ensures MessageInv(s.(poll := Polling(todo, drop, None)))
  {
    hide Distinct;
    var r := s.(poll := Polling(todo, drop, None));
    forall x: nat | x < |r.slots| && r.slots[x].Some? ensures SlotInv(r, x) {
      assert SlotInv(s, x);
    }
    forall t: nat | t < r.arrived ensures t in r.handled || InHand(r, t) || InSlot(r, t) {
      assert InSlot(s, t) ==> InSlot(r, t);
    }
  }

  /** The poll takes the message in a slot. */
  lemma MessageTaken(s: State, x: nat, todo: seq<nat>, drop: seq<nat>)
    requires MessageInv(s) && s.poll.Polling? && s.poll.hand.None? && x < |s.slots| && s.slots[x].Some?
    ensures MessageInv(s.(slots := s.slots[x := None], poll := Polling(todo, drop, Some((x, s.slots[x].value)))))
  {
    hide Distinct;
    var r := s.(slots := s.slots[x := None], poll := Polling(todo, drop, Some((x, s.slots[x].value))));
    assert SlotInv(s, x);
    forall y: nat | y < |r.slots| && r.slots[y].Some? ensures SlotInv(r, y) {
      assert SlotInv(s, y);
    }
    forall t: nat | t < r.arrived ensures t in r.handled || InHand(r, t) || InSlot(r, t) {
      if InSlot(s, t) {
        var y :| 0 <= y < |s.slots| && s.slots[y] == Some(t);
        assert r.slots[y] == Some(t) || InHand(r, t);
      }
    }
  }

  /** The poll reads a message from the wire. */
  lemma MessageHeard(s: State, x: nat, todo: seq<nat>, drop: seq<nat>)
    requires MessageInv(s) && s.poll.Polling? && s.poll.hand.None? && x < |s.slots| && s.slots[x].None?
    ensures MessageInv(s.(poll := Polling(todo, drop, Some((x, s.arrived))), arrived := s.arrived + 1))
  {
    hide Distinct;
    var r := s.(poll := Polling(todo, drop, Some((x, s.arrived))), arrived := s.arrived + 1);
    forall y: nat | y < |r.slots| && r.slots[y].Some? ensures SlotInv(r, y) {
      assert SlotInv(s, y);
    }
    forall t: nat | t < r.arrived ensures t in r.handled || InHand(r, t) || InSlot(r, t) {
      assert InSlot(s, t) ==> InSlot(r, t);
    }
  }

  lemma MessageVisit(s: State, heard: Heard)
    requires MessageInv(s)
    ensures MessageInv(Step(s, Visit(heard)))
  {
    hide MessageInv;
    if s.poll.Polling? && s.poll.hand.None? && s.poll.todo != [] && s.poll.todo[0] < |s.slots| {
      var x, rest := s.poll.todo[0], s.poll.todo[1..];
      MessagePlan(s, rest, s.poll.drop + [x]);
      MessagePlan(s, rest, s.poll.drop);
      if s.slots[x].Some? {
        MessageTaken(s, x, rest, s.poll.drop);
      } else {
        MessageHeard(s, x, rest, s.poll.drop);
      }
    }
  }

  lemma MessageHandle(s: State, auth: bool)
    requires MessageInv(s)
    ensures MessageInv(Step(s, Handle(auth)))
  {
    hide Distinct;
    var r := Step(s, Handle(auth));
    if s.poll.Polling? && s.poll.hand.Some? {
      DistinctAppend(s.handled, s.poll.hand.value.1);
    }
    forall x: nat | x < |r.slots| && r.slots[x].Some? ensures SlotInv(r, x) {
      assert s.slots[x].Some? ==> SlotInv(s, x);
      forall y | 0 <= y < |r.slots| && r.slots[y] == r.slots[x] ensures y == x {
        assert s.slots[y].Some? ==> SlotInv(s, y);
      }
    }
    forall t: nat | t < r.arrived ensures t in r.handled || InHand(r, t) || InSlot(r, t) {
      if InSlot(s, t) {
        var x :| 0 <= x < |s.slots| && s.slots[x] == Some(t);
        assert r.slots[x] == Some(t);
      } else if InHand(s, t) {
        assert t in r.handled || r.slots[s.poll.hand.value.0] == Some(t);
      }
    }
  }

  lemma MessageTakeFirst(s: State)
    requires MessageInv(s)
    ensures MessageInv(Step(s, TakeFirst))
  {
    hide Distinct;
    var r := Step(s, TakeFirst);
    if s.worker.Promoted? && s.worker.s < |s.slots| && s.slots[s.worker.s].Some? {
      assert SlotInv(s, s.worker.s);
      DistinctAppend(s.handled, s.slots[s.worker.s].value);
    }
    assert s.handled + [] == s.handled;
    forall x: nat | x < |r.slots| && r.slots[x].Some? ensures SlotInv(r, x) {
      assert SlotInv(s, x);
    }
    forall t: nat | t < r.arrived ensures t in r.handled || InHand(r, t) || InSlot(r, t) {
      if InSlot(s, t) {
        var x :| 0 <= x < |s.slots| && s.slots[x] == Some(t);
        assert r.slots[x] == Some(t) || t in r.handled;
      }
    }
  }

  /** What the poll has taken and not yet dealt with. */
  function Hand(s: State): Option<(nat, nat)> {
    if s.poll.Polling? then s.poll.hand else None
  }

  /** A step that moves no message. */
  lemma MessageKept(s: State, r: State)
    requires MessageInv(s) && r.slots == s.slots && r.handled == s.handled && r.arrived == s.arrived
    requires Hand(r) == Hand(s)
    ensures MessageInv(r)
  {
    hide Distinct;
    forall x: nat | x < |r.slots| && r.slots[x].Some? ensures SlotInv(r, x) {
      assert SlotInv(s, x);
    }
    forall t: nat | t < r.arrived ensures t in r.handled || InHand(r, t) || InSlot(r, t) {
      assert InSlot(s, t) ==> InSlot(r, t);
    }
  }

  /** The session thread reads a message and handles it. */
  lemma MessageDispatch(s: State)
    requires MessageInv(s)
    ensures MessageInv(s.(arrived := s.arrived + 1, handled := s.handled + [s.arrived]))
  {
    hide Distinct;
    DistinctAppend(s.handled, s.arrived);
    var r := s.(arrived := s.arrived + 1, handled := s.handled + [s.arrived]);
    forall x: nat | x < |r.slots| && r.slots[x].Some? ensures SlotInv(r, x) {
      assert SlotInv(s, x);
    }
    forall t: nat | t < r.arrived ensures t in r.handled || InHand(r, t) || InSlot(r, t) {
      assert InSlot(s, t) ==> InSlot(r, t);
    }
  }

  lemma MessageOther(s: State, e: Event)
    requires MessageInv(s) && !e.Accept? && !e.Visit? && !e.Handle? && !e.TakeFirst?
    ensures MessageInv(Step(s, e))
  {
    hide MessageInv, DropFront, RemoveAll;
    if e.Dispatch? {
      MessageDispatch(s);
    } else {
      MessageKept(s, Step(s, e));
    }
  }

  /** What the poll answered was handled, and each message once. */
  ghost predicate PolledInv(s: State) {
    && (forall i :: 0 <= i < |s.polled| ==> s.polled[i].1 in s.handled)
    && forall i, j :: 0 <= i < j < |s.polled| ==> s.polled[i].1 != s.polled[j].1
  }

  lemma {:induction false} RunPolledInv(max: nat, events: seq<Event>)
    ensures PolledInv(Run(max, events))
  {
    if events != [] {
      var s, e := Run(max, events[..|events| - 1]), events[|events| - 1];
      RunPolledInv(max, events[..|events| - 1]);
      EveryMessageKept(max, events[..|events| - 1]);
      PolledInvStep(s, e);
      hide PolledInv, MessageInv, Step;
    }
  }

  lemma PolledInvStep(s: State, e: Event)
    requires MessageInv(s) && PolledInv(s)
    ensures PolledInv(Step(s, e))
  {
    hide Distinct, SlotInv, InSlot, DropFront, RemoveAll;
  }

  /** Conservation: in every interleaving each message that was read from a client is handled exactly once,
      or waits in exactly one place - its session's slot or the poll's hand. */
  lemma {:induction false} EveryMessageKept(max: nat, events: seq<Event>)
    ensures MessageInv(Run(max, events))
  {
    if events != [] {
      var s, e := Run(max, events[..|events| - 1]), events[|events| - 1];
      EveryMessageKept(max, events[..|events| - 1]);
      match e
      case Accept(first) => MessageAccept(s, first);
      case Visit(heard) => MessageVisit(s, heard);
      case Handle(auth) => MessageHandle(s, auth);
      case TakeFirst => MessageTakeFirst(s);
      case _ => MessageOther(s, e);
      hide MessageInv, Step;
    }
  }

  // ---------------------------------------------------------------- a stale poll

  /** What is left of a snapshot, and the session whose message is in hand, still in order of admission. */
  ghost predicate PollInv(s: State) {
    s.poll.Polling? ==>
      Increasing((if s.poll.hand.Some? then [s.poll.hand.value.0] else []) + s.poll.todo)
  }

  lemma PollInvStep(s: State, e: Event)
    requires QueueInv(s) && PollInv(s)
    ensures PollInv(Step(s, e))
  {
    hide Increasing, DropFront, RemoveAll, QueueInv;
    if e.Snapshot? && s.poll.NoPoll? {
      QueueIncreasing(s);
      assert [] + s.deque == s.deque;
    } else if e.Visit? && s.poll.Polling? && s.poll.hand.None? && s.poll.todo != [] {
      var x, rest := s.poll.todo[0], s.poll.todo[1..];
      assert [] + s.poll.todo == [x] + rest;
      TailIncreasing([x], rest);
      assert [] + rest == rest;
    } else if e.Handle? && s.poll.Polling? && s.poll.hand.Some? {
      TailIncreasing([s.poll.hand.value.0], s.poll.todo);
      assert [] + s.poll.todo == s.poll.todo;
    }
  }

  lemma QueueIncreasing(s: State)
    requires QueueInv(s)
    ensures Increasing(s.deque)
  {
    TailIncreasing(s.activated, s.deque);
  }

  lemma TailIncreasing(a: seq<nat>, b: seq<nat>)
    requires Increasing(a + b)
    ensures Increasing(b)
  {
    var t := a + b;
    assert forall i :: 0 <= i < |b| ==> t[|a| + i] == b[i];
  }

  lemma {:induction false} RunPollInv(max: nat, events: seq<Event>)
    ensures PollInv(Run(max, events))
  {
    if events != [] {
      RunPollInv(max, events[..|events| - 1]);
      RunQueueInv(max, events[..|events| - 1]);
      PollInvStep(Run(max, events[..|events| - 1]), events[|events| - 1]);
      hide PollInv, QueueInv, Step;
    }
  }

  /** Whom the poll still has to visit, or has a message of. */
  predicate Visited(s: State, x: nat) {
    s.poll.Polling? && (x in s.poll.todo || (s.poll.hand.Some? && s.poll.hand.value.0 == x))
  }

  /** Nobody in a snapshot had been activated when it was taken. */
  ghost predicate SinceInv(s: State) {
    s.since <= |s.activated| && forall x: nat :: Visited(s, x) ==> x !in s.activated[..s.since] && x < |s.slots|
  }

  lemma SinceSnapshot(s: State)
    requires QueueInv(s) && s.poll.NoPoll?
    ensures SinceInv(Step(s, Snapshot))
  {
    hide Increasing;
    PartsApart(s.activated, s.deque);
    assert s.activated[..|s.activated|] == s.activated;
    assert forall x :: x in s.deque ==> x in s.activated + s.deque;
  }

  /** A step that adds nobody to the poll and only appends to what was activated. */
  lemma SinceKept(s: State, r: State)
    requires SinceInv(s) && r.since == s.since && s.activated <= r.activated && |s.slots| <= |r.slots|
    requires forall x: nat :: Visited(r, x) ==> Visited(s, x)
    ensures SinceInv(r)
  {
    hide Visited;
    assert r.activated[..s.since] == s.activated[..s.since];
  }

  lemma SinceInvStep(s: State, e: Event)
    requires QueueInv(s) && SinceInv(s)
    ensures SinceInv(Step(s, e))
  {
    hide QueueInv, Increasing, DropFront, RemoveAll, SinceInv;
    if e.Snapshot? && s.poll.NoPoll? {
      SinceSnapshot(s);
    } else {
      SinceKept(s, Step(s, e));
    }
  }

  lemma {:induction false} RunSinceInv(max: nat, events: seq<Event>)
    ensures SinceInv(Run(max, events))
  {
    if events != [] {
      RunSinceInv(max, events[..|events| - 1]);
      RunQueueInv(max, events[..|events| - 1]);
      SinceInvStep(Run(max, events[..|events| - 1]), events[|events| - 1]);
      hide SinceInv, QueueInv, Step;
    }
  }

  /** Exactly when the poll takes a message of the active session, from its slot or from the wire: the session
      is next in the snapshot, connected, and has something to read.  It was then promoted after the snapshot
      was taken; without a promotion in between the poll never does. */
  lemma PollTakesFromActive(max: nat, events: seq<Event>, heard: Heard, x: nat)
    requires Run(max, events).active == Some(x) && !InHandOf(Run(max, events), x)
    ensures var s := Run(max, events);
            && x < |s.slots|
            && (InHandOf(Step(s, Visit(heard)), x) <==>
                  && s.poll.Polling? && s.poll.hand.None? && s.poll.todo != [] && s.poll.todo[0] == x
                  && x !in s.gone && (s.slots[x].Some? || heard.Something?))
            && (Visited(s, x) ==> s.since < |s.activated|)
  {
    hide Run, Increasing;
    RunQueueInv(max, events);
    RunSinceInv(max, events);
    var s := Run(max, events);
    assert s.activated[|s.activated| - 1] == x;
    assert x in s.activated + s.deque;
    if s.since == |s.activated| {
      assert s.activated[..s.since] == s.activated;
    }
  }

  predicate InHandOf(s: State, x: nat) {
    s.poll.Polling? && s.poll.hand.Some? && s.poll.hand.value.0 == x
  }

  /** A run in which the poll, with a stale snapshot, answers a message that the active session sent. */
  lemma StalePollAnswersActive(max: nat)
    requires max >= 1
    ensures var events := [Accept(false), Snapshot, Promote, TakeFirst, Visit(Something), Handle(false)];
            Run(max, events).polled == [(0, 0)] && Run(max, events).active == Some(0)
  {
    var es := [Accept(false), Snapshot, Promote, TakeFirst, Visit(Something), Handle(false)];
    assert Run(max, es[..0]) == Init(max);
    hide Run;
    RunOn(max, es, 0);
    RunOn(max, es, 1);
    RunOn(max, es, 2);
    RunOn(max, es, 3);
    RunOn(max, es, 4);
    RunOn(max, es, 5);
    assert es[..6] == es;
    AnsweringSteps(max);
  }

  lemma AnsweringSteps(max: nat)
    requires max >= 1
    ensures var s4 := Step(Step(Step(Step(Init(max), Accept(false)), Snapshot), Promote), TakeFirst);
            var s6 := Step(Step(s4, Visit(Something)), Handle(false));
            s6.polled == [(0, 0)] && s6.active == Some(0)
  {
    var i := Init(max);
    var s1 := Step(i, Accept(false));
    assert s1 == i.(slots := [None], deque := [0]);
    var s2 := Step(s1, Snapshot);
    assert s2 == i.(slots := [None], deque := [0], poll := Polling([0], [], None));
    assert DropFront([0], {}) == [0];
    var s4 := Step(Step(s2, Promote), TakeFirst);
    assert s4 == s2.(deque := [], active := Some(0), worker := Dispatching(0), activated := [0]);
  }

  /** Session `x` has message `t` in its slot, and neither thread will look there again. */
  ghost predicate Stranded(s: State, x: nat, t: nat) {
    && x < |s.slots| && s.slots[x] == Some(t)
    && x !in s.deque && s.worker != Promoted(x)
    && (s.poll.Polling? ==> x !in s.poll.todo && (s.poll.hand.Some? ==> s.poll.hand.value.0 != x))
  }

  lemma StrandedStep(s: State, e: Event, x: nat, t: nat)
    requires Stranded(s, x, t)
    ensures Stranded(Step(s, e), x, t)
  {
    hide DropFront, RemoveAll;
    if e.Promote? {
      var n := DropFrontSuffix(s.deque, s.gone);
      assert forall y :: y in s.deque[n..] ==> y in s.deque;
    } else if e.Sweep? && s.poll.Polling? {
      RemoveAllFrom(s.deque, s.poll.drop);
    }
  }

  lemma {:induction false} RemoveFrom(q: seq<nat>, x: nat)
    ensures forall y :: y in Remove(q, x) ==> y in q
  {
    if q != [] {
      RemoveFrom(q[1..], x);
    }
  }

  lemma {:induction false} RemoveAllFrom(q: seq<nat>, drop: seq<nat>)
    ensures forall y :: y in RemoveAll(q, drop) ==> y in q
  {
    if drop != [] {
      RemoveAllFrom(q, drop[..|drop| - 1]);
      RemoveFrom(RemoveAll(q, drop[..|drop| - 1]), drop[|drop| - 1]);
    }
  }

  lemma {:induction false} StrandedRun(max: nat, events: seq<Event>, more: seq<Event>, x: nat, t: nat)
    requires Stranded(Run(max, events), x, t)
    ensures Stranded(Run(max, events + more), x, t)
  {
    hide Step, Stranded;
    var all := events + more;
    if more == [] {
      assert all == events;
    } else {
      var n := |more| - 1;
      assert all[..|all| - 1] == events + more[..n] && all[|all| - 1] == more[n];
      StrandedRun(max, events, more[..n], x, t);
      StrandedStep(Run(max, events + more[..n]), more[n], x, t);
    }
  }

  /** A stranded message stays where it is in every continuation of the run: it is never handled. */
  lemma StrandedForever(max: nat, events: seq<Event>, more: seq<Event>, x: nat, t: nat)
    requires Stranded(Run(max, events), x, t)
    ensures Stranded(Run(max, events + more), x, t) && t !in Run(max, events + more).handled
  {
    hide Run;
    StrandedRun(max, events, more, x, t);
    EveryMessageKept(max, events + more);
    assert SlotInv(Run(max, events + more), x);
  }

  /** When the poll puts a message back, the message is lost exactly if meanwhile its session has left the
      queue and the session thread is past its one look at the slot. */
  lemma StashLoses(max: nat, events: seq<Event>)
    requires var s := Run(max, events);
             s.poll.Polling? && s.poll.hand.Some? && !s.healthy
    ensures var s := Run(max, events);
            Stranded(Run(max, events + [Handle(false)]), s.poll.hand.value.0, s.poll.hand.value.1) <==>
            s.poll.hand.value.0 !in s.deque && s.worker != Promoted(s.poll.hand.value.0)
  {
    RunPollInv(max, events);
    EveryMessageKept(max, events);
    var all, s := events + [Handle(false)], Run(max, events);
    assert all[..|all| - 1] == events;
    assert Run(max, all) == Step(s, Handle(false));
    hide Run;
    PartsApart([s.poll.hand.value.0], s.poll.todo);
    assert s.poll.hand.value.0 in [s.poll.hand.value.0];
  }

  /** Such a run: a client's first message is taken by the poll, the session is promoted and looks for its
      message, a backend fails, and the poll puts the message back. */
  lemma StalePollLosesMessage(max: nat)
    requires max >= 1
    ensures var events := [Accept(true), Snapshot, Visit(Nothing), Promote, TakeFirst, Health(false), Handle(false)];
            Stranded(Run(max, events), 0, 0) && Run(max, events).active == Some(0)
  {
    var es := [Accept(true), Snapshot, Visit(Nothing), Promote, TakeFirst, Health(false), Handle(false)];
    assert Run(max, es[..0]) == Init(max);
    hide Run;
    RunOn(max, es, 0);
    RunOn(max, es, 1);
    RunOn(max, es, 2);
    RunOn(max, es, 3);
    RunOn(max, es, 4);
    RunOn(max, es, 5);
    RunOn(max, es, 6);
    assert es[..7] == es;
    StaleSteps(max);
  }

  lemma StaleSteps(max: nat)
    requires max >= 1
    ensures var s3 := Step(Step(Step(Init(max), Accept(true)), Snapshot), Visit(Nothing));
            var s5 := Step(Step(s3, Promote), TakeFirst);
            var s7 := Step(Step(s5, Health(false)), Handle(false));
            Stranded(s7, 0, 0) && s7.active == Some(0)
  {
    StaleTaken(max);
    var s3 := Step(Step(Step(Init(max), Accept(true)), Snapshot), Visit(Nothing));
    assert DropFront([0], {}) == [0];
    var s5 := Step(Step(s3, Promote), TakeFirst);
    assert s5 == s3.(deque := [], active := Some(0), worker := Dispatching(0), activated := [0]);
  }

  lemma StaleTaken(max: nat)
    requires max >= 1
    ensures Step(Step(Step(Init(max), Accept(true)), Snapshot), Visit(Nothing))
         == Init(max).(slots := [None], deque := [0], arrived := 1, poll := Polling([], [], Some((0, 0))))
  {
    var i := Init(max);
    var s1 := Step(i, Accept(true));
    assert s1 == i.(slots := [Some(0)], deque := [0], arrived := 1);
    var s2 := Step(s1, Snapshot);
    assert s2 == s1.(poll := Polling([0], [], None));
    assert s2.poll.todo[1..] == [] && s2.slots[0 := None] == [None];
  }

  lemma RunOn(max: nat, es: seq<Event>, n: nat)
    requires n < |es|
    ensures Run(max, es[..n + 1]) == Step(Run(max, es[..n]), es[n])
  {
    assert es[..n + 1][..n] == es[..n];
  }
}
