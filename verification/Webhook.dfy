// The debouncing webhook: notifications accumulate until a timer callback flushes them as one task. A stopped timer
// may already have fired, and its callback then waits for the lock.
module Webhook {
  import opened Common

  // A callback that will still run: its timer is armed, or it has fired and waits for the lock.
  datatype Callback = Armed | Waiting

  class Debouncer {
    var pending: nat
    var timer: Option<nat>
    var closed: bool
    // The timers whose callback is still to run, and the number of timers made so far.
    var callbacks: map<nat, Callback>
    var timers: nat
    // The notifications accepted, the counts of the flushes, and the notifications dropped by closing.
    var accepted: nat
    var batches: seq<nat>
    var dropped: nat

    constructor ()
      ensures Valid() && accepted == 0 && batches == [] && dropped == 0 && !closed
    {
      pending, timer, closed, callbacks, timers := 0, None, false, map[], 0;
      accepted, batches, dropped := 0, [], 0;
    }

    // Every accepted notification is in one flush, pending, or dropped; and while something is pending on an open
    // service, a callback is outstanding.
    predicate Valid()
      reads this
    {
      && accepted == Sum(batches) + pending + dropped
      && (!closed ==> dropped == 0) && (closed ==> pending == 0 && timer.None?)
      && (pending > 0 ==> timer.Some? && timer.value in callbacks)
      && (timer.Some? ==> timer.value < timers)
      && forall t | t in callbacks :: t < timers
    }

    // Stopping a timer cancels its callback unless it has fired.
    method Stop(t: nat)
      modifies this`callbacks
      ensures callbacks == if t in old(callbacks) && old(callbacks)[t].Armed? then old(callbacks) - {t} else old(callbacks)
    {
      if t in callbacks && callbacks[t].Armed? {
        callbacks := callbacks - {t};
      }
    }

    method Notify() returns (ok: bool)
      requires Valid()
      modifies this
      ensures Valid() && ok == !old(closed) && closed == old(closed)
      ensures accepted == old(accepted) + (if ok then 1 else 0) && batches == old(batches) && dropped == old(dropped)
      ensures ok ==> timer.Some? && timer.value in callbacks && callbacks[timer.value].Armed?
    {
      if closed {
        return false;
      }
      pending, accepted := pending + 1, accepted + 1;
      if timer.Some? {
        Stop(timer.value);
      }
      callbacks := callbacks[timers := Armed];
      timer, timers := Some(timers), timers + 1;
      ok := true;
    }

    // A timer runs out.
    method Fire(t: nat)
      requires Valid() && t in callbacks && callbacks[t].Armed?
      modifies this`callbacks
      ensures Valid() && callbacks == old(callbacks)[t := Waiting]
    {
      callbacks := callbacks[t := Waiting];
    }

    // A fired callback gets the lock.
    method Flush(t: nat)
      requires Valid() && t in callbacks && callbacks[t].Waiting?
      modifies this
      ensures Valid() && pending == 0 && closed == old(closed) && accepted == old(accepted) && dropped == old(dropped)
      ensures callbacks == old(callbacks) - {t}
      ensures batches == old(batches) + if old(pending) > 0 then [old(pending)] else []
    {
      if !closed && pending > 0 {
        TakeBatch();
      }
      callbacks := callbacks - {t};
    }

    // Everything pending becomes one batch.
    method TakeBatch()
      requires Valid() && !closed && pending > 0
      modifies this`batches, this`pending, this`timer
      ensures Valid() && pending == 0 && timer.None? && batches == old(batches) + [old(pending)]
    {
      SumOneMore(batches, pending);
      batches := batches + [pending];
      pending, timer := 0, None;
    }

    method Close()
      requires Valid()
      modifies this
      ensures Valid() && closed && pending == 0 && accepted == old(accepted) && batches == old(batches)
      ensures dropped == old(dropped) + old(pending)
    {
      closed := true;
      if timer.Some? {
        Stop(timer.value);
        timer := None;
      }
      dropped, pending := dropped + pending, 0;
    }
  }

  function Sum(ns: seq<nat>): nat {
    if ns == [] then 0 else Sum(ns[..|ns| - 1]) + ns[|ns| - 1]
  }

  lemma SumOneMore(ns: seq<nat>, n: nat)
    ensures Sum(ns + [n]) == Sum(ns) + n
  {
    assert (ns + [n])[..|ns|] == ns;
  }
}
