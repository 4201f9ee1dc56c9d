/**
 What each step of the proxy's two threads does, in absolute terms, and that no admitted session is forgotten
 (proxy/proxy_server.cpp).
 */
module ProxySteps {
  import opened Common
  import opened ProxySessions
  import opened ProxyTheorems

  // ---------------------------------------------------------------- steps

  /** A client is queued at the back exactly while queued and active sessions are fewer than the maximum; a message
      it has already sent goes into its slot. */
  lemma Admission(s: State, first: bool)
    requires s.poll.NoPoll?
    ensures var full := |s.deque| + (if s.active.Some? then 1 else 0) >= s.max;
            Step(s, Accept(first))
            == if full then s
               else if first then s.(deque := s.deque + [|s.slots|], slots := s.slots + [Some(s.arrived)],
                                     arrived := s.arrived + 1)
               else s.(deque := s.deque + [|s.slots|], slots := s.slots + [None])
  {
  }

  /** Promotion: disconnected sessions in front go, and the first connected one becomes active if all backends are
      healthy; everyone behind it stays. */
  lemma Promotion(s: State, before: seq<nat>, x: nat, after: seq<nat>)
    requires s.worker.Resting? && s.deque == before + [x] + after && x !in s.gone
    requires forall y :: y in before ==> y in s.gone
    ensures Step(s, Promote)
         == if s.healthy
            then s.(deque := after, active := Some(x), worker := Promoted(x), activated := s.activated + [x])
            else s.(deque := [x] + after)
  {
    DropsBefore(before, [x] + after, s.gone);
    assert before + ([x] + after) == s.deque;
    assert ([x] + after)[1..] == after;
    hide DropFront;
  }

  lemma {:induction false} DropsBefore(before: seq<nat>, rest: seq<nat>, gone: set<nat>)
    requires (forall y :: y in before ==> y in gone) && (rest == [] || rest[0] !in gone)
    ensures DropFront(before + rest, gone) == rest
  {
    if before == [] {
      assert before + rest == rest;
    } else {
      assert (before + rest)[1..] == before[1..] + rest && (before + rest)[0] == before[0];
      assert before[0] in before;
      DropsBefore(before[1..], rest, gone);
    }
  }

  /** Nobody is left to promote where all have gone. */
  lemma NobodyToPromote(s: State)
    requires s.worker.Resting? && forall y :: y in s.deque ==> y in s.gone
    ensures Step(s, Promote) == s.(deque := [])
  {
    DropsBefore(s.deque, [], s.gone);
    assert s.deque + [] == s.deque;
  }

  /** A visit takes the message in the slot, or one from the wire; it marks a session for dropping exactly if that
      has gone, or its slot is empty and the wire is closed; otherwise it passes on. */
  lemma Visiting(s: State, heard: Heard, x: nat, rest: seq<nat>)
    requires s.poll.Polling? && s.poll.hand.None? && s.poll.todo == [x] + rest && x < |s.slots|
    ensures var r, drop := Step(s, Visit(heard)), s.poll.drop;
            && (x in s.gone ==> r == s.(poll := Polling(rest, drop + [x], None)))
            && (x !in s.gone && s.slots[x].Some? ==>
                  r == s.(slots := s.slots[x := None], poll := Polling(rest, drop, Some((x, s.slots[x].value)))))
            && (x !in s.gone && s.slots[x].None? && heard.Closed? ==> r == s.(poll := Polling(rest, drop + [x], None)))
            && (x !in s.gone && s.slots[x].None? && heard.Nothing? ==> r == s.(poll := Polling(rest, drop, None)))
            && (x !in s.gone && s.slots[x].None? && heard.Something? ==>
                  r == s.(poll := Polling(rest, drop, Some((x, s.arrived))), arrived := s.arrived + 1))
  {
    assert s.poll.todo[1..] == rest;
  }

  /** A message taken by the poll is put back exactly if it is no authentication and a backend is down; otherwise it
      is answered. */
  lemma Handling(s: State, auth: bool, x: nat, m: nat)
    requires s.poll.Polling? && s.poll.hand == Some((x, m)) && x < |s.slots|
    ensures Step(s, Handle(auth))
         == if !auth && !s.healthy then s.(slots := s.slots[x := Some(m)], poll := s.poll.(hand := None))
            else s.(handled := s.handled + [m], polled := s.polled + [(x, m)], poll := s.poll.(hand := None))
  {
  }

  /** The session thread handles the message in its session's slot first, then those from the wire, and leaves. */
  lemma Serving(s: State, x: nat)
    requires x < |s.slots|
    ensures s.worker == Promoted(x) && s.slots[x].Some? ==>
              Step(s, TakeFirst) == s.(slots := s.slots[x := None], worker := Dispatching(x),
                                       handled := s.handled + [s.slots[x].value])
    ensures s.worker == Promoted(x) && s.slots[x].None? ==>
              Step(s, TakeFirst) == s.(worker := Dispatching(x))
    ensures s.worker == Dispatching(x) ==>
              && Step(s, Dispatch) == s.(arrived := s.arrived + 1, handled := s.handled + [s.arrived])
              && Step(s, End) == s.(active := None, worker := Resting, ended := s.ended + [x])
  {
    assert s.slots[x].None? ==> s.slots[x := None] == s.slots;
    assert s.handled + [] == s.handled;
  }

  /** What the outside does: clients disconnect for good, backends come and go. */
  lemma Outside(s: State, x: nat, up: bool)
    ensures Step(s, Disconnect(x)) == s.(gone := s.gone + {x}) && Step(s, Health(up)) == s.(healthy := up)
  {
  }

  // ---------------------------------------------------------------- nobody is forgotten

  lemma {:induction false} DroppedWasGone(deque: seq<nat>, gone: set<nat>, x: nat)
    requires x in deque && x !in DropFront(deque, gone)
    ensures x in gone
  {
    if deque[0] in gone && x != deque[0] {
      assert x in deque[1..];
      DroppedWasGone(deque[1..], gone, x);
    }
  }

  lemma {:induction false} RemovedWasListed(deque: seq<nat>, drop: seq<nat>, x: nat)
    requires x in deque && x !in RemoveAll(deque, drop)
    ensures x in drop
  {
    if drop != [] {
      var n := |drop| - 1;
      if x !in RemoveAll(deque, drop[..n]) {
        RemovedWasListed(deque, drop[..n], x);
      } else if x != drop[n] {
        OthersStay(RemoveAll(deque, drop[..n]), drop[n], x);
      }
    }
  }

  lemma {:induction false} OthersStay(q: seq<nat>, y: nat, x: nat)
    requires x in q && x != y
    ensures x in Remove(q, y)
  {
    if q[0] != y && q[0] != x {
      assert x in q[1..];
      OthersStay(q[1..], y, x);
    } else if q[0] == y {
      assert x in q[1..];
    }
  }

  /** A session leaves the queue only by being promoted, as disconnected in front of it, or on the drop list. */
  lemma LeavesQueue(s: State, e: Event, x: nat)
    requires x in s.deque && x !in Step(s, e).deque
    ensures || (e.Promote? && Step(s, e).active == Some(x) && x in Step(s, e).activated)
            || (e.Promote? && x in s.gone)
            || (e.Sweep? && s.poll.Polling? && x in s.poll.drop)
  {
    hide DropFront, RemoveAll;
    if e.Promote? {
      var rest := DropFront(s.deque, s.gone);
      if x !in rest {
        DroppedWasGone(s.deque, s.gone, x);
      } else {
        assert rest == [rest[0]] + rest[1..];
      }
    } else if e.Sweep? {
      RemovedWasListed(s.deque, s.poll.drop, x);
    }
  }

  /** At event `k` of the run the poll visited `x` and found it disconnected, or its wire closed. */
  ghost predicate FoundClosed(max: nat, events: seq<Event>, x: nat, k: nat) {
    && k < |events| && events[k].Visit?
    && var s := Run(max, events[..k]);
       && s.poll.Polling? && s.poll.hand.None? && s.poll.todo != [] && s.poll.todo[0] == x && x < |s.slots|
       && (x in s.gone || (s.slots[x].None? && events[k].heard.Closed?))
  }

  lemma StillFound(max: nat, events: seq<Event>, e: Event, x: nat, k: nat)
    requires FoundClosed(max, events, x, k)
    ensures FoundClosed(max, events + [e], x, k)
  {
    hide Run;
    assert (events + [e])[..k] == events[..k];
  }

  /** Who is on the drop list was found closed. */
  lemma {:induction false} ListedWasFound(max: nat, events: seq<Event>, x: nat)
    requires Run(max, events).poll.Polling? && x in Run(max, events).poll.drop
    ensures exists k :: FoundClosed(max, events, x, k)
  {
    hide Step, FoundClosed;
    RunOfNothing(max);
    if events != [] {
      var n := |events| - 1;
      var before, e, s := events[..n], events[n], Run(max, events[..n]);
      assert events == before + [e];
      RunEnd(max, events);
      if s.poll.Polling? && x in s.poll.drop {
        ListedWasFound(max, before, x);
        var k :| FoundClosed(max, before, x, k);
        StillFound(max, before, e, x, k);
      } else {
        JustListed(s, e, x);
        FoundNow(max, events, x);
      }
    }
  }

  lemma RunOfNothing(max: nat)
    ensures Run(max, []) == Init(max)
  {
  }

  lemma RunEnd(max: nat, events: seq<Event>)
    requires events != []
    ensures Run(max, events) == Step(Run(max, events[..|events| - 1]), events[|events| - 1])
  {
    hide Step;
  }

  /** The one step that puts somebody on the drop list. */
  ghost predicate Listing(s: State, e: Event, x: nat) {
    && e.Visit? && s.poll.Polling? && s.poll.hand.None? && s.poll.todo != [] && s.poll.todo[0] == x && x < |s.slots|
    && (x in s.gone || (s.slots[x].None? && e.heard.Closed?))
  }

  lemma JustListed(s: State, e: Event, x: nat)
    requires Step(s, e).poll.Polling? && x in Step(s, e).poll.drop && !(s.poll.Polling? && x in s.poll.drop)
    ensures Listing(s, e, x)
  {
    hide DropFront, RemoveAll;
  }

  lemma FoundNow(max: nat, events: seq<Event>, x: nat)
    requires events != [] && Listing(Run(max, events[..|events| - 1]), events[|events| - 1], x)
    ensures FoundClosed(max, events, x, |events| - 1)
  {
    hide Run;
  }

  /** Main result: in every interleaving each admitted session is still queued, has been made active, has
      disconnected, or was found closed by a poll. */
  lemma {:induction false} NobodyForgotten(max: nat, events: seq<Event>, x: nat)
    requires x < |Run(max, events).slots|
    ensures var s := Run(max, events);
            x in s.deque || x in s.activated || x in s.gone || exists k :: FoundClosed(max, events, x, k)
  {
    hide Step, FoundClosed, Run;
    RunOfNothing(max);
    if events != [] {
      var n := |events| - 1;
      var before, e, s := events[..n], events[n], Run(max, events[..n]);
      assert events == before + [e];
      RunEnd(max, events);
      StepGrows(s, e, x);
      if x < |s.slots| {
        NobodyForgotten(max, before, x);
        if x in s.deque && x !in Step(s, e).deque {
          LeavesQueue(s, e, x);
          if e.Sweep? && s.poll.Polling? && x in s.poll.drop {
            ListedWasFound(max, before, x);
          }
        }
        if k :| FoundClosed(max, before, x, k) {
          StillFound(max, before, e, x, k);
        }
      }
    }
  }

  lemma StepGrows(s: State, e: Event, x: nat)
    ensures x in s.activated ==> x in Step(s, e).activated
    ensures x in s.gone ==> x in Step(s, e).gone
    ensures |s.slots| <= x < |Step(s, e).slots| ==> x in Step(s, e).deque
  {
    hide DropFront, RemoveAll;
  }
}
