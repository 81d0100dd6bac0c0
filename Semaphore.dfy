/** The counting semaphore of Semaphore.js as a class whose methods update
    its fields in place, as the prototype methods do.

    `process.nextTick` is not modelled: granting a waiter appends its
    handler to `scheduled`, the queue of deferred calls, in grant order. */
module AsyncSemaphore {
  import opened Permits
  import opened GrantScan

  class Semaphore {
    /** Permits available now; may be negative after `ReducePermits`. */
    var available: int
    /** Pending acquirers, head first. */
    var acquirers: seq<Acquirer>
    /** Fairness, fixed at construction. */
    const isFair: bool
    /** Handlers handed to the deferred-call queue, in scheduling order. */
    var scheduled: seq<HandlerId>

    /** Every entry ever enqueued by `Acquire`, in call order. */
    ghost var requests: seq<Acquirer>
    /** Every entry ever granted, in grant order. */
    ghost var granted: seq<Acquirer>
    /** The initial permits, plus every release, minus every reduction and
        every drain: what the owner has put into the semaphore. */
    ghost var credited: int

    /** Bookkeeping that every operation keeps: each enqueued entry is
        either still queued or granted (once), each grant has scheduled its
        handler, and every debit of the counter went to a grant. */
    ghost predicate Valid()
      reads this
    {
      && scheduled == Handlers(granted)
      && multiset(requests) == multiset(acquirers) + multiset(granted)
      && available + Total(granted) == credited
    }

    /** `new Semaphore(permits, isFair)`; `fair` is None for any argument
        that is not a boolean. */
    constructor (permits: Arg, fair: Option<bool>)
      ensures Valid()
      ensures available == ParsePermits(permits, 0)
      ensures isFair == (fair == Some(true))
      ensures acquirers == [] && scheduled == []
      ensures requests == [] && granted == [] && credited == available
    {
      var n := ParsePermits(permits, 0);
      var f := if fair.Some? then fair.value else false;
      available := n;
      acquirers := [];
      isFair := f;
      scheduled := [];
      requests := [];
      granted := [];
      credited := n;
    }

    method AvailablePermits() returns (n: int)
      ensures n == available
    {
      n := available;
    }

    /** The number of enqueued entries not yet granted. */
    method GetQueueLength() returns (n: nat)
      requires Valid()
      ensures n == |acquirers|
      ensures n == |requests| - |granted|
    {
      n := |acquirers|;
      assert |multiset(requests)| == |multiset(acquirers)| + |multiset(granted)|;
    }

    /** A fresh sequence of the queued handlers, head first. */
    method GetQueueAcquirers() returns (handlers: seq<HandlerId>)
      ensures |handlers| == |acquirers|
      ensures forall i :: 0 <= i < |acquirers| ==> handlers[i] == acquirers[i].handler
      ensures handlers == Handlers(acquirers)
    {
      handlers := [];
      var i := 0;
      while i < |acquirers|
        invariant 0 <= i <= |acquirers|
        invariant |handlers| == i
        invariant forall j :: 0 <= j < i ==> handlers[j] == acquirers[j].handler
      {
        handlers := handlers + [acquirers[i].handler];
        i := i + 1;
      }
      forall j | 0 <= j < |acquirers|
        ensures handlers[j] == Handlers(acquirers)[j]
      {
        HandlersAt(acquirers, j);
      }
    }

    /** `acquire(permits, handler)`. `permits == Function` is the call
        `acquire(handler)`: the handler came first and one permit is asked. */
    method Acquire(permits: Arg, handler: HandlerId)
      requires Valid()
      modifies this
      ensures Valid()
      ensures var e := Acquirer(if permits == Function then 1 else ParsePermits(permits, 1), handler);
              var r := Scan(old(acquirers) + [e], old(available), isFair);
              && acquirers == r.remaining
              && available == r.available
              && granted == old(granted) + r.granted
              && scheduled == old(scheduled) + Handlers(r.granted)
              && requests == old(requests) + [e]
      ensures credited == old(credited)
    {
      var n: int;
      if permits == Function {
        n := 1;
      } else {
        n := ParsePermits(permits, 1);
      }
      acquirers := acquirers + [Acquirer(n, handler)];
      requests := requests + [Acquirer(n, handler)];
      ghost var r := Scan(acquirers, available, isFair);
      assert r == Scan(old(acquirers) + [Acquirer(n, handler)], old(available), isFair);
      CheckSemaphore();
    }

    /** `release(permits)`: credits the counter, with no upper bound, then
        scans the queue. */
    method Release(permits: Arg)
      requires Valid()
      modifies this
      ensures Valid()
      ensures var r := Scan(old(acquirers), old(available) + ParsePermits(permits, 1), isFair);
              && acquirers == r.remaining
              && available == r.available
              && granted == old(granted) + r.granted
              && scheduled == old(scheduled) + Handlers(r.granted)
      ensures requests == old(requests)
      ensures credited == old(credited) + ParsePermits(permits, 1)
    {
      var n := ParsePermits(permits, 1);
      available := available + n;
      credited := credited + n;
      ghost var r := Scan(acquirers, available, isFair);
      assert r == Scan(old(acquirers), old(available) + ParsePermits(permits, 1), isFair);
      CheckSemaphore();
    }

    /** `_checkSemaphore`: one pass over the queue that removes each entry
        it can grant, debits the counter and schedules the handler. Nothing
        happens when the counter is zero or the queue is empty. */
    method CheckSemaphore()
      requires Valid()
      modifies this
      ensures Valid()
      ensures var r := Scan(old(acquirers), old(available), isFair);
              && acquirers == r.remaining
              && available == r.available
              && granted == old(granted) + r.granted
              && scheduled == old(scheduled) + Handlers(r.granted)
      ensures requests == old(requests) && credited == old(credited)
    {
      if available == 0 {
        return;
      } else if |acquirers| == 0 {
        return;
      }
      ghost var q0, a0, g0 := acquirers, available, granted;
      ghost var got := GrantLoop();
      FinishScan(q0, a0, isFair, requests, g0, credited, acquirers, available, got);
    }

    /** The loop of `_checkSemaphore`: walks the queue with `idx` and `len`,
        splicing out each entry it grants; a fair semaphore returns at the
        first entry it cannot grant. `got` is what it granted, in order. */
    method GrantLoop() returns (ghost got: seq<Acquirer>)
      modifies this
      ensures Outcome(acquirers, available, got) == ScanFrom(old(acquirers), 0, old(available), isFair, [])
      ensures granted == old(granted) + got && scheduled == old(scheduled) + Handlers(got)
      ensures requests == old(requests) && credited == old(credited)
    {
      ghost var g0, s0 := granted, scheduled;
      ghost var target := ScanFrom(acquirers, 0, available, isFair, []);
      got := [];
      var len := |acquirers|;
      var idx := 0;
      while idx < len
        invariant 0 <= idx <= len == |acquirers|
        invariant requests == old(requests) && credited == old(credited)
        invariant granted == g0 + got && scheduled == s0 + Handlers(got)
        invariant ScanFrom(acquirers, idx, available, isFair, got) == target
        decreases len - idx
      {
        var acquirer := acquirers[idx];
        if acquirer.permits > available {
          if isFair {
            return;
          }
        } else {
          HandlersSnoc(got, acquirer);
          SnocAssoc(g0, got, acquirer);
          SnocAssoc(s0, Handlers(got), acquirer.handler);
          GrantAt(idx);
          idx := idx - 1;
          len := len - 1;
          got := got + [acquirer];
        }
        idx := idx + 1;
      }
    }

    /** One grant of the scan: the entry at `idx` leaves the queue
        (`splice(idx, 1)`), its permits are debited and its handler is
        scheduled. */
    method GrantAt(idx: nat)
      requires idx < |acquirers|
      modifies this
      ensures acquirers == old(acquirers[..idx] + acquirers[idx + 1..])
      ensures available == old(available - acquirers[idx].permits)
      ensures scheduled == old(scheduled) + [old(acquirers[idx].handler)]
      ensures granted == old(granted) + [old(acquirers[idx])]
      ensures requests == old(requests) && credited == old(credited)
    {
      var acquirer := acquirers[idx];
      acquirers := acquirers[..idx] + acquirers[idx + 1..];
      available := available - acquirer.permits;
      scheduled := scheduled + [acquirer.handler];
      granted := granted + [acquirer];
    }

    /** `drainPermits()`: takes every permit there is, leaving zero. */
    method DrainPermits() returns (drained: int)
      requires Valid()
      modifies this
      ensures Valid()
      ensures drained == old(available) && available == 0
      ensures acquirers == old(acquirers) && scheduled == old(scheduled)
      ensures requests == old(requests) && granted == old(granted)
      ensures credited == old(credited) - drained
    {
      drained := available;
      available := 0;
      credited := credited - drained;
    }

    /** `reducePermits(permits)`: shrinks the counter, possibly below zero,
        without scanning the queue. */
    method ReducePermits(permits: Arg)
      requires Valid()
      modifies this
      ensures Valid()
      ensures available == old(available) - ParsePermits(permits, 0)
      ensures acquirers == old(acquirers) && scheduled == old(scheduled)
      ensures requests == old(requests) && granted == old(granted)
      ensures credited == old(credited) - ParsePermits(permits, 0)
    {
      var n := ParsePermits(permits, 0);
      available := available - n;
      credited := credited - n;
    }

    /** `tryAcquire(permits)`: whether the permits are there now; it takes
        none and changes nothing. */
    method TryAcquire(permits: Arg) returns (ok: bool)
      ensures ok <==> available >= ParsePermits(permits, 1)
    {
      var n := ParsePermits(permits, 1);
      ok := available >= n;
    }
  }

  /** The loop of `GrantLoop` from position `idx`, as it runs: `cur`
      is the queue as spliced so far and `got` the grants made so far. */
  ghost function ScanFrom(cur: seq<Acquirer>, idx: nat, avail: int, fair: bool, got: seq<Acquirer>): (r: Outcome)
    requires idx <= |cur|
    // the remaining and granted entries number as many as the queue and the earlier grants
    ensures |r.remaining| + |r.granted| == |cur| + |got|
    // grants already made stay first, in their order
    ensures |got| <= |r.granted| && r.granted[..|got|] == got
    decreases |cur| - idx
  {
    if idx == |cur| then Outcome(cur, avail, got)
    else if cur[idx].permits > avail then
      if fair then Outcome(cur, avail, got) else ScanFrom(cur, idx + 1, avail, fair, got)
    else ScanFrom(cur[..idx] + cur[idx + 1..], idx, avail - cur[idx].permits, fair, got + [cur[idx]])
  }

  /** Splicing the queue in place computes the pass over the part not yet
      visited: the skipped entries stay in front of what that pass leaves. */
  lemma {:induction false} ScanFromIsPass(cur: seq<Acquirer>, idx: nat, avail: int, fair: bool, got: seq<Acquirer>)
    requires idx <= |cur|
    ensures var p := Pass(cur[idx..], avail, fair);
            ScanFrom(cur, idx, avail, fair, got) == Outcome(cur[..idx] + p.remaining, p.available, got + p.granted)
    decreases |cur| - idx
  {
    if idx == |cur| {
      assert cur[idx..] == [];
      assert cur[..idx] == cur;
    } else if cur[idx].permits > avail {
      if fair {
        assert cur[..idx] + cur[idx..] == cur;
      } else {
        ScanFromIsPass(cur, idx + 1, avail, fair, got);
        assert cur[..idx + 1] == cur[..idx] + [cur[idx]];
        assert cur[idx..][1..] == cur[idx + 1..];
      }
    } else {
      var next := cur[..idx] + cur[idx + 1..];
      var p' := Pass(cur[idx + 1..], avail - cur[idx].permits, fair);
      ScanFromIsPass(next, idx, avail - cur[idx].permits, fair, got + [cur[idx]]);
      assert cur[idx..][1..] == cur[idx + 1..];
      assert next[..idx] == cur[..idx];
      assert next[idx..] == cur[idx + 1..];
      assert got + ([cur[idx]] + p'.granted) == (got + [cur[idx]]) + p'.granted;
    }
  }

  /** The in-place loop started at the head with no grants is the scan of
      a non-empty queue with a non-zero counter. */
  lemma ScanFromStart(q: seq<Acquirer>, avail: int, fair: bool)
    requires avail != 0 && q != []
    ensures ScanFrom(q, 0, avail, fair, []) == Scan(q, avail, fair)
  {
    ScanFromIsPass(q, 0, avail, fair, []);
    assert q[0..] == q && q[..0] == [];
  }

  /** Where the in-place loop ends is where the scan ends, and the books
      of `Valid` are kept. */
  lemma FinishScan(q: seq<Acquirer>, avail: int, fair: bool,
                   requests: seq<Acquirer>, granted: seq<Acquirer>, credited: int,
                   cur: seq<Acquirer>, avail': int, got: seq<Acquirer>)
    requires avail != 0 && q != []
    requires ScanFrom(q, 0, avail, fair, []) == Outcome(cur, avail', got)
    requires multiset(requests) == multiset(q) + multiset(granted)
    requires avail + Total(granted) == credited
    ensures var r := Scan(q, avail, fair);
            && cur == r.remaining && avail' == r.available && got == r.granted
            && multiset(requests) == multiset(cur) + multiset(granted + got)
            && avail' + Total(granted + got) == credited
            && Handlers(granted + got) == Handlers(granted) + Handlers(got)
  {
    ScanFromStart(q, avail, fair);
    ScanKeepsBooks(q, avail, fair, requests, granted, credited);
  }

  /** A scan keeps the books of `Valid`: the granted entries move from the
      queue to the grants, their requests are debited from the counter, and
      their handlers are scheduled after those scheduled before. */
  lemma ScanKeepsBooks(q: seq<Acquirer>, avail: int, fair: bool,
                       requests: seq<Acquirer>, granted: seq<Acquirer>, credited: int)
    requires multiset(requests) == multiset(q) + multiset(granted)
    requires avail + Total(granted) == credited
    ensures var r := Scan(q, avail, fair);
            && multiset(requests) == multiset(r.remaining) + multiset(granted + r.granted)
            && r.available + Total(granted + r.granted) == credited
            && Handlers(granted + r.granted) == Handlers(granted) + Handlers(r.granted)
  {
    var r := Scan(q, avail, fair);
    ScanSplits(q, avail, fair);
    ScanConserves(q, avail, fair);
    TotalAppend(granted, r.granted);
    HandlersAppend(granted, r.granted);
  }
}
