/** The grant scan of Semaphore.js (`_checkSemaphore`, lines 93-130) as a
    pure function of the queue, the permit counter and the fairness flag,
    with the properties the semaphore relies on. The class in Semaphore.dfy
    runs the scan in place and is proved to agree with `Scan`. */
module GrantScan {

  /** Stands for a handler function; the model never calls it. */
  type HandlerId = nat

  /** One pending `acquire` call: the permits it asked for and its handler. */
  datatype Acquirer = Acquirer(permits: int, handler: HandlerId)

  /** What a scan leaves behind: the queue still waiting, the counter, and
      the entries granted, in the order the scan granted them. */
  datatype Outcome = Outcome(remaining: seq<Acquirer>, available: int, granted: seq<Acquirer>)

  /** The handlers of a queue, in queue order (`getQueueAcquirers`). */
  function Handlers(s: seq<Acquirer>): (r: seq<HandlerId>)
    ensures |r| == |s|
  {
    if s == [] then [] else [s[0].handler] + Handlers(s[1..])
  }

  /** Position `i` of the handler list is the handler of entry `i`. */
  lemma {:induction false} HandlersAt(s: seq<Acquirer>, i: nat)
    requires i < |s|
    ensures Handlers(s)[i] == s[i].handler
  {
    if i > 0 {
      HandlersAt(s[1..], i - 1);
    }
  }

  lemma {:induction false} HandlersAppend(x: seq<Acquirer>, y: seq<Acquirer>)
    ensures Handlers(x + y) == Handlers(x) + Handlers(y)
  {
    if x != [] {
      assert (x + y)[1..] == x[1..] + y;
      HandlersAppend(x[1..], y);
    } else {
      assert x + y == y;
    }
  }

  lemma HandlersSnoc(x: seq<Acquirer>, a: Acquirer)
    ensures Handlers(x + [a]) == Handlers(x) + [a.handler]
  {
    HandlersAppend(x, [a]);
    assert [a][1..] == [];
  }

  /** Appending one element after a concatenation. */
  lemma SnocAssoc<T>(x: seq<T>, y: seq<T>, a: T)
    ensures (x + y) + [a] == x + (y + [a])
  {
  }

  /** The permits requested by a sequence of entries, added up. */
  function Total(s: seq<Acquirer>): (t: int) {
    if s == [] then 0 else s[0].permits + Total(s[1..])
  }

  lemma {:induction false} TotalAppend(x: seq<Acquirer>, y: seq<Acquirer>)
    ensures Total(x + y) == Total(x) + Total(y)
  {
    if x != [] {
      assert (x + y)[1..] == x[1..] + y;
      TotalAppend(x[1..], y);
    } else {
      assert x + y == y;
    }
  }

  /** The loop of the scan, from the head of `q` with `avail` permits: an
      entry asking for more than is available stops a fair scan and is
      skipped by a non-fair one; any other entry is granted and debited. */
  function Pass(q: seq<Acquirer>, avail: int, fair: bool): (r: Outcome)
    // the remaining and granted entries number as many as the queue
    ensures |r.remaining| + |r.granted| == |q|
    // a loop that grants nothing changes nothing
    ensures r.granted == [] ==> r.remaining == q && r.available == avail
    decreases |q|
  {
    if q == [] then Outcome([], avail, [])
    else if q[0].permits > avail then
      if fair then Outcome(q, avail, [])
      else
        var rest := Pass(q[1..], avail, fair);
        Outcome([q[0]] + rest.remaining, rest.available, rest.granted)
    else
      var rest := Pass(q[1..], avail - q[0].permits, fair);
      Outcome(rest.remaining, rest.available, [q[0]] + rest.granted)
  }

  /** The whole scan: nothing happens when the counter is zero or the queue
      is empty. A negative counter does not stop it. */
  function Scan(q: seq<Acquirer>, avail: int, fair: bool): (r: Outcome)
    ensures |r.remaining| + |r.granted| == |q|
    ensures r.granted == [] ==> r.remaining == q && r.available == avail
  {
    if avail == 0 || q == [] then Outcome(q, avail, []) else Pass(q, avail, fair)
  }

  /** The guard: a zero counter or an empty queue ends the scan at once. */
  lemma ScanZeroOrEmpty(q: seq<Acquirer>, avail: int, fair: bool)
    ensures Scan(q, 0, fair) == Outcome(q, 0, [])
    ensures Scan([], avail, fair) == Outcome([], avail, [])
  {
  }

  /** `q` is split into `x` and `y`, each keeping the order it had in `q`,
      every entry going to exactly one side. */
  predicate Interleaving(q: seq<Acquirer>, x: seq<Acquirer>, y: seq<Acquirer>)
    decreases |q|
  {
    if q == [] then x == [] && y == []
    else
      || (x != [] && x[0] == q[0] && Interleaving(q[1..], x[1..], y))
      || (y != [] && y[0] == q[0] && Interleaving(q[1..], x, y[1..]))
  }

  lemma {:induction false} InterleavingAllRight(q: seq<Acquirer>)
    ensures Interleaving(q, [], q)
  {
    if q != [] {
      InterleavingAllRight(q[1..]);
    }
  }

  /** An interleaving neither loses nor duplicates an entry. */
  lemma {:induction false} InterleavingMultiset(q: seq<Acquirer>, x: seq<Acquirer>, y: seq<Acquirer>)
    requires Interleaving(q, x, y)
    ensures multiset(q) == multiset(x) + multiset(y)
  {
    if q != [] {
      assert q == [q[0]] + q[1..];
      if x != [] && x[0] == q[0] && Interleaving(q[1..], x[1..], y) {
        InterleavingMultiset(q[1..], x[1..], y);
        assert x == [x[0]] + x[1..];
      } else {
        InterleavingMultiset(q[1..], x, y[1..]);
        assert y == [y[0]] + y[1..];
      }
    }
  }

  // ---------------------------------------------------------------------
  // Accounting: each grant debits exactly its request.

  lemma {:induction false} PassConserves(q: seq<Acquirer>, avail: int, fair: bool)
    ensures Pass(q, avail, fair).available + Total(Pass(q, avail, fair).granted) == avail
    decreases |q|
  {
    if q != [] {
      if q[0].permits > avail {
        if !fair {
          PassConserves(q[1..], avail, fair);
        }
      } else {
        var rest := Pass(q[1..], avail - q[0].permits, fair);
        PassConserves(q[1..], avail - q[0].permits, fair);
        assert ([q[0]] + rest.granted)[1..] == rest.granted;
      }
    }
  }

  /** After a scan, the counter plus what was granted is the counter before. */
  lemma ScanConserves(q: seq<Acquirer>, avail: int, fair: bool)
    ensures Scan(q, avail, fair).available + Total(Scan(q, avail, fair).granted) == avail
  {
    if avail != 0 && q != [] {
      PassConserves(q, avail, fair);
    }
  }

  // ---------------------------------------------------------------------
  // Each grant is affordable at the moment it is made.

  /** Entry `i` of `g` asks for no more than what is left of `avail` once
      the entries before it have been debited. */
  predicate Affordable(g: seq<Acquirer>, avail: int) {
    forall i :: 0 <= i < |g| ==> g[i].permits <= avail - Total(g[..i])
  }

  lemma {:induction false} PassAffordable(q: seq<Acquirer>, avail: int, fair: bool)
    ensures Affordable(Pass(q, avail, fair).granted, avail)
    decreases |q|
  {
    if q != [] {
      if q[0].permits > avail {
        if !fair {
          PassAffordable(q[1..], avail, fair);
        }
      } else {
        var a := avail - q[0].permits;
        var g' := Pass(q[1..], a, fair).granted;
        PassAffordable(q[1..], a, fair);
        var g := [q[0]] + g';
        forall i | 0 <= i < |g|
          ensures g[i].permits <= avail - Total(g[..i])
        {
          if i > 0 {
            assert g[..i] == [q[0]] + g'[..i - 1];
            assert g[..i][1..] == g'[..i - 1];
          }
        }
      }
    }
  }

  /** A waiter is granted only when its request fits in what is available
      at that point of the scan. */
  lemma ScanAffordable(q: seq<Acquirer>, avail: int, fair: bool)
    ensures Affordable(Scan(q, avail, fair).granted, avail)
  {
    if avail != 0 && q != [] {
      PassAffordable(q, avail, fair);
    }
  }

  lemma {:induction false} PassKeepsNonNegative(q: seq<Acquirer>, avail: int, fair: bool)
    requires avail >= 0
    ensures Pass(q, avail, fair).available >= 0
    decreases |q|
  {
    if q != [] {
      if q[0].permits > avail {
        if !fair {
          PassKeepsNonNegative(q[1..], avail, fair);
        }
      } else {
        PassKeepsNonNegative(q[1..], avail - q[0].permits, fair);
      }
    }
  }

  /** A scan that starts with a non-negative counter never drives it below
      zero, whatever the requests. */
  lemma ScanKeepsNonNegative(q: seq<Acquirer>, avail: int, fair: bool)
    requires avail >= 0
    ensures Scan(q, avail, fair).available >= 0
  {
    if avail != 0 && q != [] {
      PassKeepsNonNegative(q, avail, fair);
    }
  }

  // ---------------------------------------------------------------------
  // Queue discipline: granted entries leave, the others stay in order.

  lemma {:induction false} PassSplits(q: seq<Acquirer>, avail: int, fair: bool)
    ensures Interleaving(q, Pass(q, avail, fair).granted, Pass(q, avail, fair).remaining)
    decreases |q|
  {
    if q != [] {
      if q[0].permits > avail {
        if fair {
          InterleavingAllRight(q);
        } else {
          var rest := Pass(q[1..], avail, fair);
          PassSplits(q[1..], avail, fair);
          assert ([q[0]] + rest.remaining)[1..] == rest.remaining;
        }
      } else {
        var rest := Pass(q[1..], avail - q[0].permits, fair);
        PassSplits(q[1..], avail - q[0].permits, fair);
        assert ([q[0]] + rest.granted)[1..] == rest.granted;
      }
    }
  }

  /** A scan removes exactly the granted entries: the queue it leaves and
      the grants it makes are the old queue split in two, each half in queue
      order, so no waiter is lost, duplicated or granted twice. */
  lemma ScanSplits(q: seq<Acquirer>, avail: int, fair: bool)
    ensures Interleaving(q, Scan(q, avail, fair).granted, Scan(q, avail, fair).remaining)
    ensures multiset(q) == multiset(Scan(q, avail, fair).granted) + multiset(Scan(q, avail, fair).remaining)
  {
    var r := Scan(q, avail, fair);
    if avail != 0 && q != [] {
      PassSplits(q, avail, fair);
    } else {
      InterleavingAllRight(q);
    }
    InterleavingMultiset(q, r.granted, r.remaining);
  }

  // ---------------------------------------------------------------------
  // Fair mode: first in, first out.

  lemma {:induction false} FairPassPrefix(q: seq<Acquirer>, avail: int)
    ensures Pass(q, avail, true).granted + Pass(q, avail, true).remaining == q
    ensures Pass(q, avail, true).remaining != [] ==>
              Pass(q, avail, true).remaining[0].permits > Pass(q, avail, true).available
    decreases |q|
  {
    if q != [] && q[0].permits <= avail {
      var rest := Pass(q[1..], avail - q[0].permits, true);
      FairPassPrefix(q[1..], avail - q[0].permits);
      assert [q[0]] + rest.granted + rest.remaining == [q[0]] + (rest.granted + rest.remaining);
    }
  }

  /** A fair scan grants a prefix of the queue and leaves the rest as it was;
      when it ran and something is left, the head of what is left asks for
      more than the counter holds. */
  lemma FairScanGrantsPrefix(q: seq<Acquirer>, avail: int)
    ensures Scan(q, avail, true).granted + Scan(q, avail, true).remaining == q
    ensures avail != 0 && Scan(q, avail, true).remaining != [] ==>
              Scan(q, avail, true).remaining[0].permits > Scan(q, avail, true).available
  {
    if avail != 0 && q != [] {
      FairPassPrefix(q, avail);
    }
  }

  // ---------------------------------------------------------------------
  // Non-fair mode: a skipped waiter does not stop the scan.

  predicate AllPositive(q: seq<Acquirer>) {
    forall i :: 0 <= i < |q| ==> q[i].permits > 0
  }

  lemma {:induction false} UnfairPassLeavesUnaffordable(q: seq<Acquirer>, avail: int)
    requires AllPositive(q)
    ensures Pass(q, avail, false).available <= avail
    ensures forall i :: 0 <= i < |Pass(q, avail, false).remaining| ==>
              Pass(q, avail, false).remaining[i].permits > Pass(q, avail, false).available
    decreases |q|
  {
    if q != [] {
      assert q[0].permits > 0;
      assert AllPositive(q[1..]) by {
        forall i | 0 <= i < |q[1..]| ensures q[1..][i].permits > 0 {
          assert q[1..][i] == q[i + 1];
        }
      }
      if q[0].permits > avail {
        var rest := Pass(q[1..], avail, false);
        UnfairPassLeavesUnaffordable(q[1..], avail);
        var left := [q[0]] + rest.remaining;
        forall i | 0 <= i < |left| ensures left[i].permits > rest.available {
          if i > 0 {
            assert left[i] == rest.remaining[i - 1];
          }
        }
      } else {
        UnfairPassLeavesUnaffordable(q[1..], avail - q[0].permits);
      }
    }
  }

  /** With positive requests, a non-fair scan leaves queued only waiters
      that ask for more than the counter holds at its end. */
  lemma UnfairScanLeavesUnaffordable(q: seq<Acquirer>, avail: int)
    requires AllPositive(q)
    ensures forall i :: 0 <= i < |Scan(q, avail, false).remaining| ==>
              Scan(q, avail, false).remaining[i].permits > Scan(q, avail, false).available
  {
    if avail != 0 && q != [] {
      UnfairPassLeavesUnaffordable(q, avail);
    }
  }

  // ---------------------------------------------------------------------
  // Worked cases.

  /** Waiters asking for 5 then 2 with 3 permits: a non-fair scan skips the
      first and grants the second; a fair one grants neither. */
  lemma BargingExample(h1: HandlerId, h2: HandlerId)
    ensures Scan([Acquirer(5, h1), Acquirer(2, h2)], 3, false) == Outcome([Acquirer(5, h1)], 1, [Acquirer(2, h2)])
    ensures Scan([Acquirer(5, h1), Acquirer(2, h2)], 3, true) == Outcome([Acquirer(5, h1), Acquirer(2, h2)], 3, [])
  {
    var q := [Acquirer(5, h1), Acquirer(2, h2)];
    assert q[1..] == [Acquirer(2, h2)] && q[1..][1..] == [];
    assert Pass(q[1..], 3, false) == Outcome([], 1, [Acquirer(2, h2)]);
    assert [Acquirer(5, h1)] + [] == [Acquirer(5, h1)];
  }

  /** The guard tests for zero only: with a negative counter the scan still
      runs, and a request below the counter is granted (and credits it);
      with a zero counter nothing is granted, not even a request below zero. */
  lemma NegativeCounterStillScans(h: HandlerId)
    ensures Scan([Acquirer(-2, h)], -1, true) == Outcome([], 1, [Acquirer(-2, h)])
    ensures Scan([Acquirer(1, h)], 0, false) == Outcome([Acquirer(1, h)], 0, [])
    ensures Scan([Acquirer(-1, h)], 0, true) == Outcome([Acquirer(-1, h)], 0, [])
  {
  }
}
