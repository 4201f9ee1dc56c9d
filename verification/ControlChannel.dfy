/**
 Correlation of requests and replies (channel/control_channel.cpp): the pending map, the promises behind
 it, and the loop that retries a busy device.  Every critical section is one method.
 */
module ControlChannel {
  import opened Common

  datatype Message = Message(id: string, busy: bool, body: nat)

  /** A promise's state; setting it again is the error the original swallows. */
  datatype Outcome = Unset | Reply(message: Message) | Broken

  /** A request in flight: the id it was sent under, the call it belongs to, how often it was set. */
  datatype Promise = Promise(id: string, owner: nat, outcome: Outcome, sets: nat)

  datatype Tables = Tables(pending: map<string, nat>, promises: seq<Promise>)

  /** Every entry leads to a promise made under the entry's id. */
  predicate Consistent(t: Tables) {
    forall id :: id in t.pending ==> t.pending[id] < |t.promises| && t.promises[t.pending[id]].id == id
  }

  predicate IsPending(t: Tables, p: nat) {
    p < |t.promises| && t.promises[p].id in t.pending && t.pending[t.promises[p].id] == p
  }

  function Set(p: Promise, o: Outcome): Promise {
    p.(outcome := if p.outcome.Unset? then o else p.outcome, sets := p.sets + 1)
  }

  // ---------------------------------------------------------------- critical sections, as functions

  /** `pending_requests_.emplace`: an id that is already there keeps its entry. */
  function Emplaced(t: Tables, id: string, owner: nat): Tables {
    Tables(if id in t.pending then t.pending else t.pending[id := |t.promises|],
           t.promises + [Promise(id, owner, Unset, 0)])
  }

  function Erased(t: Tables, id: string): Tables {
    t.(pending := t.pending - {id})
  }

  /** A received message either resolves the entry under its id or goes to the callbacks. */
  function Processed(t: Tables, m: Message): Tables
    requires Consistent(t)
  {
    if m.id == "" || m.id !in t.pending then t
    else
      var p := t.pending[m.id];
      Tables(t.pending - {m.id}, t.promises[p := Set(t.promises[p], Reply(m))])
  }

  /** Every pending entry broken once: `stop`, `reconnect` and the disconnect branch of `recv_loop`. */
  function Failed(t: Tables): Tables {
    Tables(map[], seq(|t.promises|, p requires 0 <= p < |t.promises| =>
      if IsPending(t, p) then Set(t.promises[p], Broken) else t.promises[p]))
  }

  /** What each section does to the tables: a promise is made for every attempt, but an id in the map keeps its
      entry; a message resolves the promise under its id, and no other; a failure breaks exactly the promises that
      an entry leads to. */
  lemma SectionsExactly(t: Tables, id: string, owner: nat, m: Message, p: nat)
    requires Consistent(t)
    ensures var r := Emplaced(t, id, owner);
            && r.promises == t.promises + [Promise(id, owner, Unset, 0)]
            && (id in t.pending ==> r.pending == t.pending)
            && (id !in t.pending ==> r.pending == t.pending[id := |t.promises|])
    ensures Erased(t, id).promises == t.promises && Erased(t, id).pending == t.pending - {id}
    ensures m.id == "" || m.id !in t.pending ==> Processed(t, m) == t
    ensures m.id != "" && m.id in t.pending && p < |t.promises| && t.promises[p].outcome.Unset? ==>
              && Processed(t, m).pending == t.pending - {m.id} && |Processed(t, m).promises| == |t.promises|
              && Processed(t, m).promises[p]
                 == if p == t.pending[m.id] then t.promises[p].(outcome := Reply(m), sets := t.promises[p].sets + 1)
                    else t.promises[p]
    ensures Failed(t).pending == map[] && |Failed(t).promises| == |t.promises|
    ensures p < |t.promises| && t.promises[p].outcome.Unset? ==>
              Failed(t).promises[p]
              == if exists i :: i in t.pending && t.pending[i] == p
                 then t.promises[p].(outcome := Broken, sets := t.promises[p].sets + 1) else t.promises[p]
  {
    if i :| i in t.pending && t.pending[i] == p && p < |t.promises| {
      assert t.promises[p].id == i;
      assert IsPending(t, p);
    }
  }

  // ---------------------------------------------------------------- the object

  class Channel {
    var pending: map<string, nat>
    var promises: seq<Promise>

    function View(): Tables
      reads this
    {
      Tables(pending, promises)
    }

    constructor ()
      ensures View() == Tables(map[], [])
    {
      pending, promises := map[], [];
    }

    method Emplace(id: string, owner: nat) returns (promise: nat)
      modifies this
      ensures View() == Emplaced(old(View()), id, owner) && promise == old(|promises|)
    {
      promise := |promises|;
      promises := promises + [Promise(id, owner, Unset, 0)];
      if id !in pending {
        pending := pending[id := promise];
      }
    }

    method Erase(id: string)
      modifies this
      ensures View() == Erased(old(View()), id)
    {
      pending := pending - {id};
    }

    /** `process_message`; the result says whether the message goes to the callbacks instead. */
    method ProcessMessage(m: Message) returns (callback: bool)
      requires Consistent(View())
      modifies this
      ensures View() == Processed(old(View()), m)
      ensures callback <==> m.id == "" || m.id !in old(pending)
    {
      if m.id == "" {
        return true;
      }
      if m.id in pending {
        var p := pending[m.id];
        pending := pending - {m.id};
        promises := promises[p := Set(promises[p], Reply(m))];
        return false;
      }
      callback := true;
    }

    /** The loop over the pending map in `stop`, `reconnect` and `recv_loop`, entries in any order. */
    method FailPending()
      requires Consistent(View())
      modifies this
      ensures View() == Failed(old(View()))
    {
      ghost var t := View();
      var left := pending.Keys;
      while left != {}
        invariant left <= t.pending.Keys && pending == t.pending && |promises| == |t.promises|
        invariant forall p :: 0 <= p < |promises| ==>
          promises[p]
          == if IsPending(t, p) && t.promises[p].id !in left then Set(t.promises[p], Broken) else t.promises[p]
        decreases left
      {
        var id :| id in left;
        var p := pending[id];
        promises := promises[p := Set(promises[p], Broken)];
        left := left - {id};
      }
      pending := map[];
    }
  }

  // ---------------------------------------------------------------- busy retry

  const POLL_INTERVAL := 2.0

  /** How an attempt ends: a reply, a busy reply, none in time, a send that fails, or a promise broken by a
      stop or a lost connection. */
  datatype Answer = Accepted | Busy | NoReply | SendFails | Breaks

  /** How one attempt goes: its answer, the time until it, and, for a busy reply, when the wait that follows is
      cancelled, if it is. */
  datatype Attempt = Attempt(answer: Answer, delay: real, cancel: Option<real>)

  datatype Ending = Returned | TimedOut | NotSent | Disconnected | Cancelled | BusyTooLong

  function Least(a: real, b: real): real {
    if a <= b then a else b
  }

  /** At most this many attempts. */
  function MaxAttempts(maxWait: nat): nat {
    if maxWait <= 2 then 1 else (maxWait + 1) / 2
  }

  /** How long the wait behind a busy reply may last, given when the reply came: two seconds, or what is left. */
  function Pause(maxWait: nat, at: real): real {
    if at >= maxWait as real then 0.0 else Least(2.0, maxWait as real - at)
  }

  /** When attempt `k` begins, if the ones before it were busy and not cancelled. */
  function Begun(maxWait: nat, device: nat -> Attempt, k: nat): real {
    if k == 0 then 0.0
    else
      var at := Begun(maxWait, device, k - 1) + device(k - 1).delay;
      at + Pause(maxWait, at)
  }

  /** The wait behind the busy reply of attempt `k` is cancelled before it is over. */
  predicate CancelledIn(maxWait: nat, device: nat -> Attempt, k: nat) {
    && device(k).cancel.Some?
    && 0.0 <= device(k).cancel.value <= Pause(maxWait, Begun(maxWait, device, k) + device(k).delay)
  }

  /** The wait ends after two seconds or at the cap, whichever comes first. */
  lemma PauseMeans(maxWait: nat, at: real)
    requires at >= 0.0
    ensures var p := Pause(maxWait, at);
            && 0.0 <= p <= 2.0 && (at < maxWait as real ==> at + p <= maxWait as real)
            && (at >= maxWait as real ==> p == 0.0) && (p < 2.0 ==> at + p >= maxWait as real)
  {
  }

  /** The least number of attempts, two seconds apart, that reach the cap. */
  lemma MaxAttemptsMeans(maxWait: nat)
    ensures var n := MaxAttempts(maxWait); n >= 1 && 2 * n >= maxWait && (n > 1 ==> 2 * (n - 1) < maxWait)
  {
  }

  /** After attempt `k` there is another one: it was busy, the wait was not cancelled, and the cap not reached. */
  predicate GoesOn(maxWait: nat, device: nat -> Attempt, k: nat) {
    && device(k).answer.Busy? && !CancelledIn(maxWait, device, k)
    && Begun(maxWait, device, k + 1) < maxWait as real
  }

  lemma BegunNext(maxWait: nat, device: nat -> Attempt, k: nat)
    ensures Begun(maxWait, device, 0) == 0.0
    ensures var at := Begun(maxWait, device, k) + device(k).delay;
            Begun(maxWait, device, k + 1) == at + Pause(maxWait, at)
  {
  }

  /** `send_and_recv` against an ideal clock: `device` says how each attempt would go, with replies no
      later than the timeout.  Whatever the device does, the number of attempts and the total time are
      bounded, and the ending says what the device did.  A device that is always busy and answers at once
      reaches the number of attempts; the time bound is reached only where one of its parts is zero. */
  method SendAndRecv(maxWait: nat, timeout: real, device: nat -> Attempt)
    returns (ending: Ending, attempts: nat, elapsed: real)
    requires timeout >= 0.0 && forall k :: 0.0 <= device(k).delay <= timeout
    ensures 1 <= attempts <= MaxAttempts(maxWait)
    ensures 0.0 <= elapsed <= maxWait as real + timeout
    ensures maxWait > 0 && timeout > 0.0 ==> elapsed < maxWait as real + timeout
    ensures forall k :: 0 <= k < attempts - 1 ==> GoesOn(maxWait, device, k)
    ensures ending.Returned? <==> device(attempts - 1).answer.Accepted?
    ensures ending.TimedOut? <==> device(attempts - 1).answer.NoReply?
    ensures ending.NotSent? <==> device(attempts - 1).answer.SendFails?
    ensures ending.Disconnected? <==> device(attempts - 1).answer.Breaks?
    ensures ending.Cancelled? <==> device(attempts - 1).answer.Busy? && CancelledIn(maxWait, device, attempts - 1)
    ensures ending.BusyTooLong? <==>
            device(attempts - 1).answer.Busy? && !CancelledIn(maxWait, device, attempts - 1)
    ensures ending.BusyTooLong? ==> elapsed == Begun(maxWait, device, attempts) >= maxWait as real
    ensures ending.TimedOut? ==> elapsed == Begun(maxWait, device, attempts - 1) + timeout
    ensures ending.Cancelled? ==>
              elapsed == Begun(maxWait, device, attempts - 1) + device(attempts - 1).delay
                         + device(attempts - 1).cancel.value
    ensures ending.Returned? || ending.NotSent? || ending.Disconnected? ==>
              elapsed == Begun(maxWait, device, attempts - 1) + device(attempts - 1).delay
    ensures (forall k :: device(k) == Attempt(Busy, 0.0, None))
              ==> ending.BusyTooLong? && attempts == MaxAttempts(maxWait) && elapsed == maxWait as real
  {
    hide Begun;
    elapsed, attempts := 0.0, 0;
    BegunNext(maxWait, device, 0);
    var cap := maxWait as real;
    while true
      invariant 2.0 * attempts as real <= elapsed && (attempts == 0 || elapsed < cap)
      invariant elapsed <= cap && (attempts == 0 ==> elapsed == 0.0)
      invariant elapsed == Begun(maxWait, device, attempts)
      invariant forall k :: 0 <= k < attempts ==> GoesOn(maxWait, device, k)
      invariant (forall k :: device(k) == Attempt(Busy, 0.0, None)) ==> elapsed == 2.0 * attempts as real
      decreases MaxAttempts(maxWait) - attempts
    {
      var a := device(attempts);
      BegunNext(maxWait, device, attempts);
      attempts := attempts + 1;
      if a.answer.NoReply? {
        return TimedOut, attempts, elapsed + timeout;
      }
      elapsed := elapsed + a.delay;
      match a.answer {
        case Accepted => return Returned, attempts, elapsed;
        case SendFails => return NotSent, attempts, elapsed;
        case Breaks => return Disconnected, attempts, elapsed;
        case _ =>
      }
      var remaining := if elapsed >= cap then 0.0 else cap - elapsed;
      var sleep := Least(POLL_INTERVAL, remaining);
      if a.cancel.Some? && 0.0 <= a.cancel.value <= sleep {
        return Cancelled, attempts, elapsed + a.cancel.value;
      }
      elapsed := elapsed + sleep;
      if elapsed >= cap {
        return BusyTooLong, attempts, elapsed;
      }
    }
  }
}
