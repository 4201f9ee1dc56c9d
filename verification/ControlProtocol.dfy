/**
 Every interleaving of callers, replies, timeouts, disconnects and stops on one control channel, one
 critical section at a time (channel/control_channel.cpp, `send_and_recv` against `process_message`,
 `stop`, `reconnect` and the disconnect branch of `recv_loop`).
 */
module ControlProtocol {
  import opened Common
  import opened ControlChannel

  /** Where one `send_and_recv` call stands; `id` is the id of its latest attempt. */
  datatype Phase =
    | Ready(id: string)
    | Sending(id: string, promise: nat)
    | Waiting(id: string, promise: nat)
    | Failing(id: string, promise: nat)
    | Backoff(id: string)
    | Ended(id: string, result: Option<Message>)
  {
    predicate InAttempt() {
      Sending? || Waiting? || Failing?
    }
  }

  datatype State = State(tables: Tables, calls: seq<Phase>)

  datatype Event =
    | Begin(id: string)            // a call enters with this message id
    | Emplace(c: nat)              // it makes its promise and registers it
    | Sent(c: nat, ok: bool)       // the transport took the message, or threw
    | Expire(c: nat)               // the wait ended without a reply
    | EraseAndThrow(c: nat)
    | Take(c: nat)                 // the future is ready
    | Retry(c: nat, id: string)    // after a busy reply, under a new id
    | GiveUp(c: nat)               // cancelled, or busy for too long
    | Receive(message: Message)
    | FailAll                      // stop, reconnect or disconnect

  const INIT := State(Tables(map[], []), [])

  function Advance(s: State, c: nat, phase: Phase): State
    requires c < |s.calls|
  {
    s.(calls := s.calls[c := phase])
  }

  /** One step; an event that does not apply changes nothing. */
  function Step(s: State, e: Event): (r: State)
    requires Consistent(s.tables)
    ensures Consistent(r.tables)
  {
    match e
    case Begin(id) => if id == "" then s else s.(calls := s.calls + [Ready(id)])
    case Receive(m) => s.(tables := Processed(s.tables, m))
    case FailAll => s.(tables := Failed(s.tables))
    case _ => if e.c >= |s.calls| then s else CallStep(s, e, s.calls[e.c])
  }

  function CallStep(s: State, e: Event, phase: Phase): (r: State)
    requires !e.Begin? && !e.Receive? && !e.FailAll? && e.c < |s.calls| && phase == s.calls[e.c]
    requires Consistent(s.tables)
    ensures Consistent(r.tables)
  {
    match (e, phase)
    case (Emplace(c), Ready(id)) =>
      State(Emplaced(s.tables, id, c), s.calls[c := Sending(id, |s.tables.promises|)])
    case (Sent(c, ok), Sending(id, p)) => Advance(s, c, if ok then Waiting(id, p) else Failing(id, p))
    case (Expire(c), Waiting(id, p)) => Advance(s, c, Failing(id, p))
    case (EraseAndThrow(c), Failing(id, p)) => State(Erased(s.tables, id), s.calls[c := Ended(id, None)])
    case (Take(c), Waiting(id, p)) =>
      if p >= |s.tables.promises| then s
      else (
        match s.tables.promises[p].outcome
        case Unset => s
        case Broken => Advance(s, c, Ended(id, None))
        case Reply(m) => Advance(s, c, if m.busy then Backoff(id) else Ended(id, Some(m)))
      )
    case (Retry(c, newId), Backoff(id)) => if newId == "" then s else Advance(s, c, Ready(newId))
    case (GiveUp(c), Backoff(id)) => Advance(s, c, Ended(id, None))
    case _ => s
  }

  function Run(events: seq<Event>): (s: State)
    ensures Consistent(s.tables)
  {
    if events == [] then INIT else Step(Run(events[..|events| - 1]), events[|events| - 1])
  }

  /** What a call does next: after its send it waits, or fails if the send threw; a timeout makes it fail; what
      fails erases its id and throws; a ready future returns its reply, backs off from a busy one, or throws. */
  lemma CallSteps(s: State, c: nat, id: string, p: nat)
    requires Consistent(s.tables) && c < |s.calls|
    ensures s.calls[c] == Sending(id, p) ==>
              && Step(s, Sent(c, true)) == s.(calls := s.calls[c := Waiting(id, p)])
              && Step(s, Sent(c, false)) == s.(calls := s.calls[c := Failing(id, p)])
    ensures s.calls[c] == Waiting(id, p) ==> Step(s, Expire(c)) == s.(calls := s.calls[c := Failing(id, p)])
    ensures s.calls[c] == Failing(id, p) ==>
              Step(s, EraseAndThrow(c))
              == State(Tables(s.tables.pending - {id}, s.tables.promises), s.calls[c := Ended(id, None)])
    ensures s.calls[c] == Waiting(id, p) && p < |s.tables.promises| ==>
              var o := s.tables.promises[p].outcome;
              Step(s, Take(c)) == if o.Unset? then s
                                  else if o.Broken? then s.(calls := s.calls[c := Ended(id, None)])
                                  else if o.message.busy then s.(calls := s.calls[c := Backoff(id)])
                                  else s.(calls := s.calls[c := Ended(id, Some(o.message))])
    ensures s.calls[c] == Backoff(id) ==>
              && Step(s, GiveUp(c)) == s.(calls := s.calls[c := Ended(id, None)])
              && forall next: string :: next != "" ==> Step(s, Retry(c, next)) == s.(calls := s.calls[c := Ready(next)])
  {
  }

  // ---------------------------------------------------------------- what every step keeps

  /** A promise is set at most once, and only ever by a message with its id. */
  predicate PromiseInv(s: State, p: nat)
    requires p < |s.tables.promises|
  {
    var x := s.tables.promises[p];
    && x.owner < |s.calls|
    && x.sets <= 1 && (x.outcome.Unset? <==> x.sets == 0)
    && (x.outcome.Reply? ==> x.outcome.message.id == x.id)
  }

  /** An entry belongs to a call that is still in that very attempt. */
  predicate EntryInv(s: State, id: string)
    requires id in s.tables.pending
  {
    var p := s.tables.pending[id];
    && p < |s.tables.promises|
    && s.tables.promises[p].sets == 0
    && s.tables.promises[p].owner < |s.calls|
    && s.calls[s.tables.promises[p].owner].InAttempt()
    && s.calls[s.tables.promises[p].owner].promise == p
  }

  predicate CallInv(s: State, c: nat)
    requires c < |s.calls|
  {
    var x := s.calls[c];
    && x.id != ""
    && (x.InAttempt() ==>
          x.promise < |s.tables.promises| &&
          s.tables.promises[x.promise].owner == c && s.tables.promises[x.promise].id == x.id)
    && (x.Ended? && x.result.Some? ==> x.result.value.id == x.id && !x.result.value.busy)
  }

  ghost predicate Inv(s: State) {
    && Consistent(s.tables)
    && (forall p :: 0 <= p < |s.tables.promises| ==> PromiseInv(s, p))
    && (forall id :: id in s.tables.pending ==> EntryInv(s, id))
    && forall c :: 0 <= c < |s.calls| ==> CallInv(s, c)
  }

  lemma InvStep(s: State, e: Event)
    requires Inv(s)
    ensures Inv(Step(s, e))
  {
    match e
    case Begin(id) => InvBegin(s, id);
    case Receive(m) => InvReceive(s, m);
    case FailAll => InvFailAll(s);
    case _ => if e.c < |s.calls| { InvCall(s, e); }
  }

  lemma InvBegin(s: State, id: string)
    requires Inv(s)
    ensures Inv(Step(s, Begin(id)))
  {
    var r := Step(s, Begin(id));
    forall p | 0 <= p < |r.tables.promises| ensures PromiseInv(r, p) {
      assert PromiseInv(s, p);
    }
    forall x | x in r.tables.pending ensures EntryInv(r, x) {
      assert EntryInv(s, x);
    }
    forall c | 0 <= c < |r.calls| ensures CallInv(r, c) {
      assert c < |s.calls| ==> CallInv(s, c);
    }
  }

  lemma InvReceive(s: State, m: Message)
    requires Inv(s)
    ensures Inv(Step(s, Receive(m)))
  {
    var r := Step(s, Receive(m));
    assert m.id in s.tables.pending ==> EntryInv(s, m.id);
    forall p | 0 <= p < |r.tables.promises| ensures PromiseInv(r, p) {
      assert PromiseInv(s, p);
    }
    forall id | id in r.tables.pending ensures EntryInv(r, id) {
      assert EntryInv(s, id);
    }
    forall c | 0 <= c < |r.calls| ensures CallInv(r, c) {
      assert CallInv(s, c);
    }
  }

  lemma InvFailAll(s: State)
    requires Inv(s)
    ensures Inv(Step(s, FailAll))
  {
    var r := Step(s, FailAll);
    forall p | 0 <= p < |r.tables.promises| ensures PromiseInv(r, p) {
      assert PromiseInv(s, p);
      assert IsPending(s.tables, p) ==> EntryInv(s, s.tables.promises[p].id);
    }
    forall c | 0 <= c < |r.calls| ensures CallInv(r, c) {
      assert CallInv(s, c);
    }
  }

  /** A call moves on without touching the tables: it keeps its attempt, or leaves one that is resolved. */
  lemma InvAdvance(s: State, c: nat, phase: Phase)
    requires Inv(s) && c < |s.calls| && phase.id != ""
    requires phase.InAttempt() ==>
               s.calls[c].InAttempt() && phase.promise == s.calls[c].promise && phase.id == s.calls[c].id
    requires !phase.InAttempt() && s.calls[c].InAttempt() ==>
               s.calls[c].promise < |s.tables.promises| && s.tables.promises[s.calls[c].promise].sets > 0
    requires phase.Ended? && phase.result.Some? ==> phase.result.value.id == phase.id && !phase.result.value.busy
    ensures Inv(Advance(s, c, phase))
  {
    var r := Advance(s, c, phase);
    forall id | id in r.tables.pending ensures EntryInv(r, id) {
      assert EntryInv(s, id);
    }
    forall p | 0 <= p < |r.tables.promises| ensures PromiseInv(r, p) {
      assert PromiseInv(s, p);
    }
    forall d | 0 <= d < |r.calls| ensures CallInv(r, d) {
      assert CallInv(s, d);
    }
  }

  lemma InvEmplace(s: State, c: nat)
    requires Inv(s) && c < |s.calls| && s.calls[c].Ready?
    ensures Inv(State(Emplaced(s.tables, s.calls[c].id, c), s.calls[c := Sending(s.calls[c].id, |s.tables.promises|)]))
  {
    var r := State(Emplaced(s.tables, s.calls[c].id, c), s.calls[c := Sending(s.calls[c].id, |s.tables.promises|)]);
    assert CallInv(s, c);
    forall id | id in r.tables.pending ensures EntryInv(r, id) {
      assert id in s.tables.pending ==> EntryInv(s, id);
    }
    forall p | 0 <= p < |r.tables.promises| ensures PromiseInv(r, p) {
      assert p < |s.tables.promises| ==> PromiseInv(s, p);
    }
    forall d | 0 <= d < |r.calls| ensures CallInv(r, d) {
      assert CallInv(s, d);
    }
  }

  lemma InvErase(s: State, c: nat)
    requires Inv(s) && c < |s.calls| && s.calls[c].Failing?
    ensures Inv(State(Erased(s.tables, s.calls[c].id), s.calls[c := Ended(s.calls[c].id, None)]))
  {
    var r := State(Erased(s.tables, s.calls[c].id), s.calls[c := Ended(s.calls[c].id, None)]);
    assert CallInv(s, c);
    forall id | id in r.tables.pending ensures EntryInv(r, id) {
      assert EntryInv(s, id);
    }
    forall p | 0 <= p < |r.tables.promises| ensures PromiseInv(r, p) {
      assert PromiseInv(s, p);
    }
    forall d | 0 <= d < |r.calls| ensures CallInv(r, d) {
      assert CallInv(s, d);
    }
  }

  /** What is known of a call and of the promise it waits for. */
  lemma CallKnown(s: State, c: nat)
    requires Inv(s) && c < |s.calls|
    ensures CallInv(s, c)
    ensures s.calls[c].InAttempt() ==> PromiseInv(s, s.calls[c].promise)
  {
  }

  lemma InvCall(s: State, e: Event)
    requires Inv(s) && !e.Begin? && !e.Receive? && !e.FailAll? && e.c < |s.calls|
    ensures Inv(Step(s, e))
  {
    hide Inv, Emplaced, Erased;
    var c, phase := e.c, s.calls[e.c];
    CallKnown(s, c);
    match (e, phase)
    case (Emplace(_), Ready(id)) => InvEmplace(s, c);
    case (Sent(_, ok), Sending(id, p)) => InvAdvance(s, c, if ok then Waiting(id, p) else Failing(id, p));
    case (Expire(_), Waiting(id, p)) => InvAdvance(s, c, Failing(id, p));
    case (EraseAndThrow(_), Failing(id, p)) => InvErase(s, c);
    case (Take(_), Waiting(id, p)) => InvTake(s, c);
    case (Retry(_, newId), Backoff(id)) => if newId != "" { InvAdvance(s, c, Ready(newId)); }
    case (GiveUp(_), Backoff(id)) => InvAdvance(s, c, Ended(id, None));
    case _ =>
  }

  lemma InvTake(s: State, c: nat)
    requires Inv(s) && c < |s.calls| && s.calls[c].Waiting?
    ensures Inv(Step(s, Take(c)))
  {
    hide Inv;
    CallKnown(s, c);
    var id, p := s.calls[c].id, s.calls[c].promise;
    match s.tables.promises[p].outcome
    case Unset =>
    case Broken => InvAdvance(s, c, Ended(id, None));
    case Reply(m) => InvAdvance(s, c, if m.busy then Backoff(id) else Ended(id, Some(m)));
  }

  lemma {:induction false} RunInv(events: seq<Event>)
    ensures Inv(Run(events))
  {
    if events != [] {
      RunInv(events[..|events| - 1]);
      InvStep(Run(events[..|events| - 1]), events[|events| - 1]);
      hide Inv, Step;
    }
  }

  /** Safety over whole runs: in every interleaving, whatever ids the callers use, each request is resolved
      at most once, a call returns only a reply that carries its latest id, and every entry in the pending
      map belongs to a call that has not ended. */
  lemma EveryRunSafe(events: seq<Event>)
    ensures var s := Run(events);
            (forall p :: 0 <= p < |s.tables.promises| ==> s.tables.promises[p].sets <= 1) &&
            (forall c :: 0 <= c < |s.calls| && s.calls[c].Ended? && s.calls[c].result.Some?
               ==> s.calls[c].result.value.id == s.calls[c].id) &&
            forall id :: id in s.tables.pending ==>
              s.tables.promises[s.tables.pending[id]].owner < |s.calls| &&
              !s.calls[s.tables.promises[s.tables.pending[id]].owner].Ended?
  {
    hide Run;
    RunInv(events);
    var s := Run(events);
    forall p | 0 <= p < |s.tables.promises| ensures s.tables.promises[p].sets <= 1 {
      assert PromiseInv(s, p);
    }
    forall c | 0 <= c < |s.calls| && s.calls[c].Ended? && s.calls[c].result.Some?
      ensures s.calls[c].result.value.id == s.calls[c].id
    {
      assert CallInv(s, c);
    }
    forall id | id in s.tables.pending ensures EntryInv(s, id) {
    }
  }

  // ---------------------------------------------------------------- returned replies were received

  ghost predicate Heard(s: State, events: seq<Event>) {
    && (forall p :: 0 <= p < |s.tables.promises| && s.tables.promises[p].outcome.Reply?
          ==> Receive(s.tables.promises[p].outcome.message) in events)
    && forall c :: 0 <= c < |s.calls| && s.calls[c].Ended? && s.calls[c].result.Some?
          ==> Receive(s.calls[c].result.value) in events
  }

  /** No reply is made up: a returned message was received on the channel. */
  lemma {:induction false} ReturnedWasReceived(events: seq<Event>)
    ensures Heard(Run(events), events)
  {
    if events != [] {
      var n := |events| - 1;
      ReturnedWasReceived(events[..n]);
      assert events == events[..n] + [events[n]];
      HeardStep(Run(events[..n]), events[..n], events[n]);
      hide Step, Heard;
    }
  }

  lemma HeardStep(s: State, events: seq<Event>, e: Event)
    requires Consistent(s.tables) && Heard(s, events)
    ensures Heard(Step(s, e), events + [e])
  {
    assert e in events + [e] && forall x :: x in events ==> x in events + [e];
  }

  // ---------------------------------------------------------------- distinct ids

  ghost predicate DistinctIds(s: State) {
    forall c, d :: 0 <= c < d < |s.calls| && s.calls[c].InAttempt() && s.calls[d].InAttempt()
      ==> s.calls[c].id != s.calls[d].id
  }

  ghost predicate Unresolved(s: State, c: nat) {
    && c < |s.calls| && s.calls[c].InAttempt()
    && s.calls[c].promise < |s.tables.promises| && s.tables.promises[s.calls[c].promise].outcome.Unset?
  }

  ghost predicate IsRegistered(s: State, c: nat)
    requires Unresolved(s, c)
  {
    s.calls[c].id in s.tables.pending && s.tables.pending[s.calls[c].id] == s.calls[c].promise
  }

  /** Every unresolved attempt can still be reached by its reply. */
  ghost predicate Registered(s: State) {
    forall c :: Unresolved(s, c) ==> IsRegistered(s, c)
  }

  /** A new attempt keeps every attempt reachable exactly when its id is not in the pending map. */
  lemma EmplaceKeepsRegistered(s: State, c: nat)
    requires Inv(s) && Registered(s) && c < |s.calls| && s.calls[c].Ready?
    ensures Registered(Step(s, Emplace(c))) <==> s.calls[c].id !in s.tables.pending
  {
    var r := Step(s, Emplace(c));
    var id := s.calls[c].id;
    assert Unresolved(r, c);
    forall d | Unresolved(r, d) && d != c ensures IsRegistered(r, d) || id !in s.tables.pending {
      assert CallInv(s, d);
      assert Unresolved(s, d);
    }
    if id !in s.tables.pending {
      forall d | Unresolved(r, d) ensures IsRegistered(r, d) {
        assert CallInv(s, d);
        assert d != c ==> Unresolved(s, d);
      }
    } else {
      assert EntryInv(s, id);
      assert !IsRegistered(r, c);
    }
  }

  lemma EntryHasCall(s: State, id: string)
    requires Inv(s) && id in s.tables.pending
    ensures exists d :: 0 <= d < |s.calls| && s.calls[d].InAttempt() && s.calls[d].id == id
  {
    assert EntryInv(s, id);
    var d := s.tables.promises[s.tables.pending[id]].owner;
    assert CallInv(s, d);
  }

  lemma RegisteredEmplace(s: State, c: nat)
    requires Inv(s) && Registered(s) && DistinctIds(Step(s, Emplace(c))) && c < |s.calls| && s.calls[c].Ready?
    ensures Registered(Step(s, Emplace(c)))
  {
    var r, id := Step(s, Emplace(c)), s.calls[c].id;
    assert r.calls[c].InAttempt() && r.calls[c].id == id;
    assert forall d :: 0 <= d < |s.calls| && s.calls[d].InAttempt() ==> d != c && r.calls[d] == s.calls[d];
    assert id !in s.tables.pending by {
      if id in s.tables.pending {
        EntryHasCall(s, id);
      }
    }
    EmplaceKeepsRegistered(s, c);
  }

  lemma RegisteredTables(s: State, e: Event)
    requires Inv(s) && Registered(s) && (e.Receive? || e.FailAll?)
    ensures Registered(Step(s, e))
  {
    var r := Step(s, e);
    forall c: nat | Unresolved(r, c) ensures IsRegistered(r, c) {
      assert CallInv(s, c);
      assert Unresolved(s, c) && IsRegistered(s, c);
    }
  }

  lemma InvConsistent(s: State)
    requires Inv(s)
    ensures Consistent(s.tables)
  {
  }

  /** A call that moves on without touching the tables stays as reachable as it was. */
  lemma RegisteredAdvance(s: State, r: State, c: nat)
    requires Registered(s) && r.tables == s.tables && |r.calls| >= |s.calls|
    requires forall d :: 0 <= d < |s.calls| && d != c ==> r.calls[d] == s.calls[d]
    requires forall d :: |s.calls| <= d < |r.calls| ==> !r.calls[d].InAttempt()
    requires c < |s.calls| && r.calls[c].InAttempt() ==>
               s.calls[c].InAttempt() && r.calls[c].promise == s.calls[c].promise && r.calls[c].id == s.calls[c].id
    ensures Registered(r)
  {
    forall d: nat | Unresolved(r, d) ensures IsRegistered(r, d) {
      assert Unresolved(s, d) && IsRegistered(s, d);
    }
  }

  lemma RegisteredErase(s: State, c: nat)
    requires Inv(s) && Registered(s) && DistinctIds(s) && c < |s.calls| && s.calls[c].Failing?
    ensures Registered(State(Erased(s.tables, s.calls[c].id), s.calls[c := Ended(s.calls[c].id, None)]))
  {
    hide Inv;
    var r := State(Erased(s.tables, s.calls[c].id), s.calls[c := Ended(s.calls[c].id, None)]);
    forall d: nat | Unresolved(r, d) ensures IsRegistered(r, d) {
      assert Unresolved(s, d) && IsRegistered(s, d);
    }
  }

  lemma RegisteredCall(s: State, e: Event)
    requires Inv(s) && Registered(s) && DistinctIds(s) && !e.Receive? && !e.FailAll?
    requires e.Emplace? ==> e.c >= |s.calls| || !s.calls[e.c].Ready?
    ensures Registered(Step(s, e))
  {
    hide Inv, Registered, DistinctIds, Erased, Emplaced;
    InvConsistent(s);
    if e.Begin? {
      RegisteredAdvance(s, Step(s, e), |s.calls|);
    } else if e.c < |s.calls| {
      if e.EraseAndThrow? && s.calls[e.c].Failing? {
        RegisteredErase(s, e.c);
      } else {
        RegisteredAdvance(s, Step(s, e), e.c);
      }
    }
  }

  ghost predicate AlwaysDistinct(events: seq<Event>) {
    forall n :: 0 <= n <= |events| ==> DistinctIds(Run(events[..n]))
  }

  /** While attempts in flight use distinct ids, every one of them stays reachable. */
  lemma {:induction false} DistinctIdsReachable(events: seq<Event>)
    requires AlwaysDistinct(events)
    ensures Registered(Run(events))
  {
    if events != [] {
      var n := |events| - 1;
      var before, e := events[..n], events[n];
      forall k | 0 <= k <= n ensures DistinctIds(Run(before[..k])) {
        assert before[..k] == events[..k];
      }
      assert events[..n + 1] == events && before[..n] == before;
      DistinctIdsReachable(before);
      RunInv(before);
      var s := Run(before);
      assert DistinctIds(s) && DistinctIds(Step(s, e));
      if e.Emplace? && e.c < |s.calls| && s.calls[e.c].Ready? {
        RegisteredEmplace(s, e.c);
      } else if e.Receive? || e.FailAll? {
        RegisteredTables(s, e);
      } else {
        RegisteredCall(s, e);
      }
      hide Inv, Registered, Step;
    }
  }

  /** With distinct ids a reply reaches exactly the call that waits for it, and no other promise changes. */
  lemma ReplyReachesItsCall(events: seq<Event>, c: nat, m: Message)
    requires AlwaysDistinct(events) && Unresolved(Run(events), c) && Run(events).calls[c].Waiting?
    requires m.id == Run(events).calls[c].id
    ensures ReplyReached(Run(events), c, m)
  {
    hide *;
    RunInv(events);
    DistinctIdsReachable(events);
    RegisteredReached(Run(events), c, m);
  }

  ghost predicate ReplyReached(s: State, c: nat, m: Message)
    requires Consistent(s.tables) && Unresolved(s, c)
  {
    var p, r := s.calls[c].promise, Step(s, Receive(m));
    && r == s.(tables := Tables(s.tables.pending - {m.id}, s.tables.promises[p := Promise(m.id, c, Reply(m), 1)]))
    && Step(r, Take(c)) == Advance(r, c, if m.busy then Backoff(m.id) else Ended(m.id, Some(m)))
  }

  lemma RegisteredReached(s: State, c: nat, m: Message)
    requires Inv(s) && Registered(s) && Unresolved(s, c) && s.calls[c].Waiting? && m.id == s.calls[c].id
    ensures ReplyReached(s, c, m)
  {
    assert CallInv(s, c) && IsRegistered(s, c) && PromiseInv(s, s.calls[c].promise);
  }

  /** With distinct ids a stop, reconnect or disconnect leaves no attempt unresolved: nobody waits on. */
  lemma FailAllReleases(events: seq<Event>)
    requires AlwaysDistinct(events)
    ensures forall c: nat :: !Unresolved(Step(Run(events), FailAll), c)
  {
    hide Run;
    RunInv(events);
    DistinctIdsReachable(events);
    var s := Run(events);
    var r := Step(s, FailAll);
    forall c: nat ensures !Unresolved(r, c) {
      if Unresolved(s, c) {
        assert CallInv(s, c) && IsRegistered(s, c);
        assert IsPending(s.tables, s.calls[c].promise);
      }
    }
  }

  /** Two calls under one id: the second one's timeout takes the first one's entry with it, and the reply
      that comes next reaches nobody. */
  lemma SharedIdLosesReply(id: string, body: nat)
    requires id != ""
    ensures Run([Begin(id), Begin(id), Emplace(0), Sent(0, true), Emplace(1), Sent(1, true), Expire(1),
                 EraseAndThrow(1), Receive(Message(id, false, body))])
         == State(Tables(map[], [Promise(id, 0, Unset, 0), Promise(id, 1, Unset, 0)]),
                  [Waiting(id, 0), Ended(id, None)])
  {
    hide Run, Step;
    var m := Message(id, false, body);
    var es := [Begin(id), Begin(id), Emplace(0), Sent(0, true), Emplace(1), Sent(1, true), Expire(1),
               EraseAndThrow(1), Receive(m)];
    RunNothing();
    assert es[..0] == [];
    RunOn(es, 0);
    RunOn(es, 1);
    RunOn(es, 2);
    RunOn(es, 3);
    RunOn(es, 4);
    RunOn(es, 5);
    RunOn(es, 6);
    RunOn(es, 7);
    RunOn(es, 8);
    assert es[..9] == es;
    SharedBegin(id);
    SharedFirst(id);
    SharedSecond(id);
    SharedTimeout(id, m);
  }

  function First(id: string): Promise { Promise(id, 0, Unset, 0) }

  function Second(id: string): Promise { Promise(id, 1, Unset, 0) }

  lemma SharedBegin(id: string)
    requires id != ""
    ensures Step(Step(INIT, Begin(id)), Begin(id)) == State(Tables(map[], []), [Ready(id), Ready(id)])
  {
  }

  lemma SharedFirst(id: string)
    ensures Step(Step(State(Tables(map[], []), [Ready(id), Ready(id)]), Emplace(0)), Sent(0, true))
         == State(Tables(map[id := 0], [First(id)]), [Waiting(id, 0), Ready(id)])
  {
    var s := State(Tables(map[], []), [Ready(id), Ready(id)]);
    assert Step(s, Emplace(0)) == State(Tables(map[id := 0], [First(id)]), [Sending(id, 0), Ready(id)]);
  }

  lemma SharedSecond(id: string)
    ensures var s := State(Tables(map[id := 0], [First(id)]), [Waiting(id, 0), Ready(id)]);
            Consistent(s.tables) &&
            Step(Step(s, Emplace(1)), Sent(1, true))
            == State(Tables(map[id := 0], [First(id), Second(id)]), [Waiting(id, 0), Waiting(id, 1)])
  {
    var s := State(Tables(map[id := 0], [First(id)]), [Waiting(id, 0), Ready(id)]);
    assert Step(s, Emplace(1))
        == State(Tables(map[id := 0], [First(id), Second(id)]), [Waiting(id, 0), Sending(id, 1)]);
  }

  lemma SharedTimeout(id: string, m: Message)
    requires m.id == id
    ensures var s := State(Tables(map[id := 0], [First(id), Second(id)]), [Waiting(id, 0), Waiting(id, 1)]);
            Consistent(s.tables) &&
            Step(Step(Step(s, Expire(1)), EraseAndThrow(1)), Receive(m))
            == State(Tables(map[], [First(id), Second(id)]), [Waiting(id, 0), Ended(id, None)])
  {
    var s := State(Tables(map[id := 0], [First(id), Second(id)]), [Waiting(id, 0), Waiting(id, 1)]);
    var t := Step(s, Expire(1));
    assert t == s.(calls := [Waiting(id, 0), Failing(id, 1)]);
    assert Step(t, EraseAndThrow(1))
        == State(Tables(map[], [First(id), Second(id)]), [Waiting(id, 0), Ended(id, None)]);
  }

  lemma RunNothing()
    ensures Run([]) == INIT
  {
  }

  lemma RunOn(es: seq<Event>, n: nat)
    requires n < |es|
    ensures Run(es[..n + 1]) == Step(Run(es[..n]), es[n])
  {
    assert es[..n + 1][..n] == es[..n];
  }
}
