/**
 The service discipline of one playback key, without batches, timers or limits:
 a queue of updates and "stopped" barriers served strictly in arrival order, one
 at a time. A log of events follows the discipline when every event is allowed
 in the state that the events before it lead to. The coalescer is proved (module
 ProgressSpec) to produce only such logs; what that means for the upstream server
 is proved here, once, about logs alone.
 */
module ProgressFifo {

  datatype Event =
    | Accept(r: nat)                           // an update is accepted
    | Stop(b: nat)                             // a barrier is accepted
    | Start(ms: seq<nat>)                      // the updates ms are dispatched as one request, the last of them
    | Finish(ms: seq<nat>, told: set<nat>)     // that dispatch ended; its outcome is sent to the clients in told
    | Grant(b: nat)                            // the barrier's request may proceed
    | Release(b: nat)                          // the barrier's request is done
    | Withdraw(b: nat)                         // a queued barrier is cancelled by its client
    | Leave(r: nat)                            // the client of update r stops waiting

  datatype Item = Update(id: nat) | Barrier(id: nat)

  datatype Serving = Idle | Sending(ms: seq<nat>) | Stopped(b: nat)

  datatype Fifo = Fifo(pending: seq<Item>, serving: Serving, left: set<nat>, next: nat)

  const EMPTY := Fifo([], Idle, {}, 0)

  function Updates(ms: seq<nat>): (items: seq<Item>)
    ensures |items| == |ms|
    ensures forall i :: 0 <= i < |ms| ==> items[i] == Update(ms[i])
  {
    seq(|ms|, i requires 0 <= i < |ms| => Update(ms[i]))
  }

  function Ids(ms: seq<nat>): set<nat> {
    set m | m in ms
  }

  ghost predicate Waiting(f: Fifo, r: nat) {
    r !in f.left && (Update(r) in f.pending || (f.serving.Sending? && r in f.serving.ms))
  }

  ghost predicate Allowed(f: Fifo, e: Event) {
    match e
    case Accept(r) => f.next <= r
    case Stop(b) => f.next <= b
    case Start(ms) => f.serving.Idle? && ms != [] && Updates(ms) <= f.pending
    case Finish(ms, told) => f.serving == Sending(ms) && told == Ids(ms) - f.left
    case Grant(b) => f.serving.Idle? && [Barrier(b)] <= f.pending
    case Release(b) => f.serving == Stopped(b)
    case Withdraw(b) => Barrier(b) in f.pending
    case Leave(r) => Waiting(f, r)
  }

  function Without(items: seq<Item>, x: Item): (rest: seq<Item>)
    ensures forall y :: y in rest <==> y in items && y != x
    ensures |rest| <= |items|
  {
    if items == [] then []
    else if items[0] == x then Without(items[1..], x)
    else [items[0]] + Without(items[1..], x)
  }

  ghost function After(f: Fifo, e: Event): Fifo
    requires Allowed(f, e)
  {
    match e
    case Accept(r) => f.(pending := f.pending + [Update(r)], next := r + 1)
    case Stop(b) => f.(pending := f.pending + [Barrier(b)], next := b + 1)
    case Start(ms) => f.(pending := f.pending[|ms|..], serving := Sending(ms))
    case Finish(ms, told) => f.(serving := Idle)
    case Grant(b) => f.(pending := f.pending[1..], serving := Stopped(b))
    case Release(b) => f.(serving := Idle)
    case Withdraw(b) => f.(pending := Without(f.pending, Barrier(b)))
    case Leave(r) => f.(left := f.left + {r})
  }

  ghost predicate Follows(log: seq<Event>)
    decreases |log|, 0
  {
    log == [] || (Follows(log[..|log| - 1]) && Allowed(State(log[..|log| - 1]), log[|log| - 1]))
  }

  ghost function State(log: seq<Event>): Fifo
    requires Follows(log)
    decreases |log|, 1
  {
    if log == [] then EMPTY else After(State(log[..|log| - 1]), log[|log| - 1])
  }

  /** One more allowed event keeps the log within the discipline. */
  lemma Extend(log: seq<Event>, e: Event)
    requires Follows(log) && Allowed(State(log), e)
    ensures Follows(log + [e]) && State(log + [e]) == After(State(log), e)
  {
    assert (log + [e])[..|log|] == log;
  }

  lemma {:induction false} FollowsPrefix(log: seq<Event>, n: nat)
    requires Follows(log) && n <= |log|
    ensures Follows(log[..n])
    decreases |log|
  {
    if n < |log| {
      FollowsPrefix(log[..|log| - 1], n);
      assert log[..|log| - 1][..n] == log[..n];
    } else {
      assert log[..n] == log;
    }
  }

  // ---------- what every reachable state keeps ----------

  ghost predicate Sorted(items: seq<Item>) {
    forall i, j :: 0 <= i < j < |items| ==> items[i].id < items[j].id
  }

  ghost predicate Ordered(f: Fifo) {
    && Sorted(f.pending)
    && (forall x :: x in f.pending ==> x.id < f.next)
    && (forall r :: r in f.left ==> r < f.next)
    && (f.serving.Sending? ==> forall m, x :: m in f.serving.ms && x in f.pending ==> m < x.id)
    && (f.serving.Sending? ==> forall m :: m in f.serving.ms ==> m < f.next)
  }

  lemma {:induction false} WithoutSorted(items: seq<Item>, x: Item)
    requires Sorted(items)
    ensures Sorted(Without(items, x))
  {
    if items != [] {
      var rest := items[1..];
      WithoutSorted(rest, x);
      forall y | y in Without(rest, x) ensures items[0].id < y.id {
        assert y in rest;
      }
    }
  }

  /** The first |ms| queued items are the updates ms, so nothing else precedes what follows them. */
  lemma FrontUpdates(f: Fifo, ms: seq<nat>)
    requires Updates(ms) <= f.pending
    ensures forall p :: 0 <= p < |ms| ==> f.pending[p] == Update(ms[p])
    ensures f.pending == Updates(ms) + f.pending[|ms|..]
  {
    forall p | 0 <= p < |ms| ensures f.pending[p] == Update(ms[p]) {
      assert Updates(ms)[p] == f.pending[p];
    }
  }

  lemma StartOrdered(f: Fifo, ms: seq<nat>)
    requires Ordered(f) && Allowed(f, Start(ms))
    ensures Ordered(After(f, Start(ms)))
  {
    FrontUpdates(f, ms);
    var rest := f.pending[|ms|..];
    forall x | x in rest ensures x in f.pending && forall m :: m in ms ==> m < x.id {
      var q :| 0 <= q < |rest| && rest[q] == x;
      assert f.pending[|ms| + q] == x;
    }
    forall m | m in ms ensures m < f.next {
      var p :| 0 <= p < |ms| && ms[p] == m;
      assert f.pending[p] in f.pending;
    }
  }

  lemma ArrivalOrdered(f: Fifo, x: Item)
    requires Ordered(f) && f.next <= x.id
    ensures Ordered(f.(pending := f.pending + [x], next := x.id + 1))
  {
  }

  lemma {:induction false} StateOrdered(log: seq<Event>)
    requires Follows(log)
    ensures Ordered(State(log))
  {
    if log != [] {
      var before := log[..|log| - 1];
      StateOrdered(before);
      var f, e := State(before), log[|log| - 1];
      match e {
        case Accept(r) => ArrivalOrdered(f, Update(r));
        case Stop(b) => ArrivalOrdered(f, Barrier(b));
        case Start(ms) => StartOrdered(f, ms);
        case Withdraw(b) => WithoutSorted(f.pending, Barrier(b));
        case _ =>
      }
    }
  }

  ghost predicate Arrival(e: Event) {
    e.Accept? || e.Stop?
  }

  ghost function ArrivalId(e: Event): nat
    requires Arrival(e)
  {
    if e.Accept? then e.r else e.b
  }

  /** Arrival numbers grow along the log, so "smaller number" means "accepted earlier". */
  lemma {:induction false} ArrivalsIncrease(log: seq<Event>)
    requires Follows(log)
    ensures forall i :: 0 <= i < |log| && Arrival(log[i]) ==> ArrivalId(log[i]) < State(log).next
    ensures forall i, j :: 0 <= i < j < |log| && Arrival(log[i]) && Arrival(log[j]) ==> ArrivalId(log[i]) < ArrivalId(log[j])
  {
    if log != [] {
      var before := log[..|log| - 1];
      ArrivalsIncrease(before);
      forall i | 0 <= i < |before| ensures log[i] == before[i] { }
    }
  }

  ghost predicate FinishedWithin(log: seq<Event>, r: nat, from: nat, to: nat)
    requires to <= |log|
  {
    exists k :: from <= k < to && log[k].Finish? && r in log[k].ms
  }

  ghost predicate EndedWithin(log: seq<Event>, b: nat, from: nat, to: nat)
    requires to <= |log|
  {
    exists k :: from <= k < to && (log[k] == Release(b) || log[k] == Withdraw(b))
  }

  /** An accepted update is queued, on its way upstream, or finished. */
  lemma {:induction false} AcceptedSomewhere(log: seq<Event>, i: nat)
    requires Follows(log) && i < |log| && log[i].Accept?
    ensures var f, r := State(log), log[i].r;
            Update(r) in f.pending || (f.serving.Sending? && r in f.serving.ms) || FinishedWithin(log, r, i, |log|)
    decreases |log|
  {
    var before, e, r := log[..|log| - 1], log[|log| - 1], log[i].r;
    if i < |log| - 1 {
      AcceptedSomewhere(before, i);
      var f := State(before);
      if FinishedWithin(before, r, i, |before|) {
        var k :| i <= k < |before| && before[k].Finish? && r in before[k].ms;
        assert log[k] == before[k];
      } else if e.Start? && Update(r) in f.pending {
        FrontUpdates(f, e.ms);
        var p :| 0 <= p < |f.pending| && f.pending[p] == Update(r);
        if p >= |e.ms| {
          assert f.pending[|e.ms|..][p - |e.ms|] == Update(r);
        }
      } else if e.Grant? && Update(r) in f.pending {
        var p :| 0 <= p < |f.pending| && f.pending[p] == Update(r);
        assert f.pending[1..][p - 1] == Update(r);
      } else if e.Finish? {
        assert log[|log| - 1] == e;
      }
    } else {
      assert State(log).pending[|State(before).pending|] == Update(r);
    }
  }

  /** An accepted barrier is queued, active, or over. */
  lemma {:induction false} StoppedSomewhere(log: seq<Event>, i: nat)
    requires Follows(log) && i < |log| && log[i].Stop?
    ensures var f, b := State(log), log[i].b;
            Barrier(b) in f.pending || f.serving == Stopped(b) || EndedWithin(log, b, i, |log|)
    decreases |log|
  {
    var before, e, b := log[..|log| - 1], log[|log| - 1], log[i].b;
    if i < |log| - 1 {
      StoppedSomewhere(before, i);
      var f := State(before);
      if EndedWithin(before, b, i, |before|) {
        var k :| i <= k < |before| && (before[k] == Release(b) || before[k] == Withdraw(b));
        assert log[k] == before[k];
      } else if e.Start? && Barrier(b) in f.pending {
        FrontUpdates(f, e.ms);
        var p :| 0 <= p < |f.pending| && f.pending[p] == Barrier(b);
        assert f.pending[|e.ms|..][p - |e.ms|] == Barrier(b);
      } else if e.Grant? && Barrier(b) in f.pending {
        var p :| 0 <= p < |f.pending| && f.pending[p] == Barrier(b);
        if p > 0 { assert f.pending[1..][p - 1] == Barrier(b); }
      } else if e == Release(b) || e == Withdraw(b) {
        assert log[|log| - 1] == e;
      }
    } else {
      assert State(log).pending[|State(before).pending|] == Barrier(b);
    }
  }

  // ---------- what a log that follows the discipline guarantees ----------

  lemma PrefixState(log: seq<Event>, k: nat)
    requires Follows(log) && k < |log|
    ensures Follows(log[..k]) && Allowed(State(log[..k]), log[k])
  {
    FollowsPrefix(log, k);
    FollowsPrefix(log, k + 1);
    assert log[..k + 1][..k] == log[..k];
  }

  /** A granted barrier waited for every update accepted before it. */
  lemma GrantAfterEarlierUpdates(log: seq<Event>, i: nat, j: nat, k: nat)
    requires Follows(log) && i < j < k < |log|
    requires log[i].Accept? && log[j].Stop? && log[k] == Grant(log[j].b)
    ensures FinishedWithin(log, log[i].r, i, k)
  {
    var before := log[..k];
    PrefixState(log, k);
    StateOrdered(before);
    ArrivalsIncrease(before);
    AcceptedSomewhere(before, i);
    var f := State(before);
    assert before[i] == log[i] && before[j] == log[j];
    assert ArrivalId(before[i]) < ArrivalId(before[j]);
    forall x | x in f.pending ensures log[j].b <= x.id {
      assert f.pending[0] == Barrier(log[j].b);
    }
    var n :| i <= n < k && before[n].Finish? && log[i].r in before[n].ms;
    assert log[n] == before[n];
  }

  /** No update accepted after a barrier is dispatched before the barrier is released or withdrawn. */
  lemma LaterUpdatesAfterBarrier(log: seq<Event>, j: nat, i: nat, k: nat)
    requires Follows(log) && j < i < k < |log|
    requires log[j].Stop? && log[i].Accept? && log[k].Start? && log[i].r in log[k].ms
    ensures EndedWithin(log, log[j].b, j, k)
  {
    var before, b, r := log[..k], log[j].b, log[i].r;
    PrefixState(log, k);
    StateOrdered(before);
    ArrivalsIncrease(before);
    StoppedSomewhere(before, j);
    var f, ms := State(before), log[k].ms;
    assert before[i] == log[i] && before[j] == log[j];
    assert ArrivalId(before[j]) < ArrivalId(before[i]);
    FrontUpdates(f, ms);
    var q :| 0 <= q < |ms| && ms[q] == r;
    forall p | 0 <= p < |f.pending| ensures f.pending[p].Update? || r < f.pending[p].id { }
    var n :| j <= n < k && (before[n] == Release(b) || before[n] == Withdraw(b));
    assert log[n] == before[n];
  }

  ghost predicate Begins(e: Event) {
    e.Start? || e.Grant?
  }

  ghost predicate Ends(first: Event, e: Event) {
    (first.Start? && e.Finish? && e.ms == first.ms) || (first.Grant? && e == Release(first.b))
  }

  lemma {:induction false} ServedUntilEnded(log: seq<Event>, i: nat)
    requires Follows(log) && i < |log| && Begins(log[i])
    ensures || (log[i].Start? && State(log).serving == Sending(log[i].ms))
            || (log[i].Grant? && State(log).serving == Stopped(log[i].b))
            || exists k :: i < k < |log| && Ends(log[i], log[k])
    decreases |log|
  {
    if i < |log| - 1 {
      var before := log[..|log| - 1];
      ServedUntilEnded(before, i);
      if k :| i < k < |before| && Ends(before[i], before[k]) {
        assert log[k] == before[k];
      } else if log[|log| - 1].Finish? || log[|log| - 1].Release? {
        assert Ends(log[i], log[|log| - 1]);
      }
    }
  }

  /** Dispatches and active barriers of one key never overlap: the first ends before the second begins. */
  lemma OneAtATime(log: seq<Event>, i: nat, j: nat)
    requires Follows(log) && i < j < |log| && Begins(log[i]) && Begins(log[j])
    ensures exists k :: i < k < j && Ends(log[i], log[k])
  {
    var before := log[..j];
    PrefixState(log, j);
    ServedUntilEnded(before, i);
    assert before[i] == log[i];
    var k :| i < k < |before| && Ends(before[i], before[k]);
    assert log[k] == before[k];
  }

  // The updates accepted, the updates contained in dispatched batches, and the updates still queued, in order.

  ghost function Accepted(log: seq<Event>): seq<nat> {
    if log == [] then []
    else
      var e := log[|log| - 1];
      Accepted(log[..|log| - 1]) + Arrived(e)
  }

  ghost function Dispatched(log: seq<Event>): seq<nat> {
    if log == [] then []
    else
      var e := log[|log| - 1];
      Dispatched(log[..|log| - 1]) + Sent(e)
  }

  ghost function Queued(items: seq<Item>): seq<nat> {
    if items == [] then []
    else (if items[0].Update? then [items[0].id] else []) + Queued(items[1..])
  }

  lemma {:induction false} QueuedConcat(a: seq<Item>, b: seq<Item>)
    ensures Queued(a + b) == Queued(a) + Queued(b)
  {
    if a == [] {
      assert a + b == b;
    } else {
      assert (a + b)[1..] == a[1..] + b;
      QueuedConcat(a[1..], b);
      var head, x, y := if a[0].Update? then [a[0].id] else [], Queued(a[1..]), Queued(b);
      assert head + (x + y) == (head + x) + y;
    }
  }

  lemma {:induction false} QueuedUpdates(ms: seq<nat>)
    ensures Queued(Updates(ms)) == ms
  {
    if ms != [] {
      assert Updates(ms)[1..] == Updates(ms[1..]);
      QueuedUpdates(ms[1..]);
    }
  }

  lemma {:induction false} QueuedWithoutBarrier(items: seq<Item>, b: nat)
    ensures Queued(Without(items, Barrier(b))) == Queued(items)
  {
    if items != [] {
      QueuedWithoutBarrier(items[1..], b);
      if items[0] != Barrier(b) {
        assert ([items[0]] + Without(items[1..], Barrier(b)))[1..] == Without(items[1..], Barrier(b));
      }
    }
  }

  ghost function Sent(e: Event): seq<nat> {
    if e.Start? then e.ms else []
  }

  ghost function Arrived(e: Event): seq<nat> {
    if e.Accept? then [e.r] else []
  }

  lemma QueuedAfter(f: Fifo, e: Event)
    requires Allowed(f, e)
    ensures Queued(f.pending) + Arrived(e) == Sent(e) + Queued(After(f, e).pending)
  {
    match e
    case Accept(r) => QueuedConcat(f.pending, [Update(r)]);
    case Stop(b) => QueuedConcat(f.pending, [Barrier(b)]);
    case Start(ms) =>
      FrontUpdates(f, ms);
      QueuedConcat(Updates(ms), f.pending[|ms|..]);
      QueuedUpdates(ms);
    case Grant(b) => assert f.pending[0] == Barrier(b);
    case Withdraw(b) => QueuedWithoutBarrier(f.pending, b);
    case _ =>
  }

  /**
   No accepted update is lost or reordered: the dispatched batches, laid end to end
   and followed by the queue, are exactly the accepted updates in arrival order. An
   update that never is the request of a batch is therefore superseded by a later
   member of its own batch.
   */
  lemma {:induction false} NothingLost(log: seq<Event>)
    requires Follows(log)
    ensures Accepted(log) == Dispatched(log) + Queued(State(log).pending)
  {
    if log != [] {
      var before, e := log[..|log| - 1], log[|log| - 1];
      var f := State(before);
      NothingLost(before);
      QueuedAfter(f, e);
      calc {
        Accepted(before) + Arrived(e);
        Dispatched(before) + Queued(f.pending) + Arrived(e);
        Dispatched(before) + (Queued(f.pending) + Arrived(e));
        Dispatched(before) + (Sent(e) + Queued(After(f, e).pending));
        Dispatched(before) + Sent(e) + Queued(After(f, e).pending);
      }
    }
  }

  // ---------- outcomes ----------

  ghost predicate LeftWithin(log: seq<Event>, r: nat, n: nat)
    requires n <= |log|
  {
    exists k :: 0 <= k < n && log[k] == Leave(r)
  }

  lemma {:induction false} LeftExactly(log: seq<Event>, r: nat)
    requires Follows(log)
    ensures r in State(log).left <==> LeftWithin(log, r, |log|)
  {
    if log != [] {
      var before := log[..|log| - 1];
      LeftExactly(before, r);
      if LeftWithin(before, r, |before|) {
        var k :| 0 <= k < |before| && before[k] == Leave(r);
        assert log[k] == Leave(r);
      }
      if LeftWithin(log, r, |log|) {
        var k :| 0 <= k < |log| && log[k] == Leave(r);
        if k < |before| { assert before[k] == Leave(r); }
      }
    }
  }

  /** When a dispatch ends, exactly those clients of its batch that still wait are told. */
  lemma ToldExactlyWaiters(log: seq<Event>, k: nat)
    requires Follows(log) && k < |log| && log[k].Finish?
    ensures forall r :: r in log[k].told <==> r in log[k].ms && !LeftWithin(log, r, k)
  {
    PrefixState(log, k);
    forall r ensures r in log[k].told <==> r in log[k].ms && !LeftWithin(log, r, k) {
      LeftExactly(log[..k], r);
      if LeftWithin(log, r, k) {
        var n :| 0 <= n < k && log[n] == Leave(r);
        assert log[..k][n] == Leave(r);
      }
      if LeftWithin(log[..k], r, k) {
        var n :| 0 <= n < k && log[..k][n] == Leave(r);
        assert log[n] == Leave(r);
      }
    }
  }

  /** After the dispatch with members ms ended, every update still queued or being sent is newer than they are. */
  lemma {:induction false} FinishedAreOldest(log: seq<Event>, i: nat)
    requires Follows(log) && i < |log| && log[i].Finish?
    ensures forall m, x :: m in log[i].ms && x in State(log).pending ==> m < x.id
    ensures State(log).serving.Sending? ==> forall m, r :: m in log[i].ms && r in State(log).serving.ms ==> m < r
    ensures forall m :: m in log[i].ms ==> m < State(log).next
    decreases |log|
  {
    var before := log[..|log| - 1];
    StateOrdered(before);
    if i < |log| - 1 {
      FinishedAreOldest(before, i);
      var e := log[|log| - 1];
      if e.Start? {
        forall m, r | m in log[i].ms && r in e.ms ensures m < r {
          var q :| 0 <= q < |e.ms| && e.ms[q] == r;
          FrontUpdates(State(before), e.ms);
          assert State(before).pending[q] in State(before).pending;
        }
      }
    }
  }

  /** No client is told twice, so a result channel of capacity one is never full. */
  lemma ToldAtMostOnce(log: seq<Event>, i: nat, j: nat)
    requires Follows(log) && i < j < |log| && log[i].Finish? && log[j].Finish?
    ensures log[i].told !! log[j].told
  {
    PrefixState(log, i);
    PrefixState(log, j);
    FinishedAreOldest(log[..j], i);
    assert log[..j][i] == log[i];
  }

  // ---------- extending a log by several events ----------

  ghost predicate AllowedAll(f: Fifo, es: seq<Event>)
    decreases |es|
  {
    es == [] || (Allowed(f, es[0]) && AllowedAll(After(f, es[0]), es[1..]))
  }

  ghost function AfterAll(f: Fifo, es: seq<Event>): Fifo
    requires AllowedAll(f, es)
    decreases |es|
  {
    if es == [] then f else AfterAll(After(f, es[0]), es[1..])
  }

  lemma {:induction false} ExtendAll(log: seq<Event>, es: seq<Event>)
    requires Follows(log) && AllowedAll(State(log), es)
    ensures Follows(log + es) && State(log + es) == AfterAll(State(log), es)
    decreases |es|
  {
    hide Allowed, After, Follows;
    if es == [] {
      assert log + es == log;
    } else {
      Extend(log, es[0]);
      var longer := log + [es[0]];
      ExtendAll(longer, es[1..]);
      assert longer + es[1..] == log + es;
    }
  }
}
