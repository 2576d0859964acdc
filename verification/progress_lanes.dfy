/** One key of the coalescer refines the service discipline of module ProgressFifo. */
module ProgressLanes {
  import opened Wrappers
  import opened ProgressFifo
  import opened ProgressSpec

  // ---------- abstraction ----------

  function Items(w: Work): seq<Item> {
    if w.BatchWork? then Updates(w.batch.Members()) else [Barrier(w.barrier)]
  }

  function Flat(queue: seq<Work>): seq<Item> {
    if queue == [] then [] else Items(queue[0]) + Flat(queue[1..])
  }

  function ServingOf(e: Entry): Serving {
    if e.activeBatch.Some? then Sending(e.activeBatch.value.Members())
    else if e.activeBarrier.Some? then Stopped(e.activeBarrier.value)
    else ProgressFifo.Idle
  }

  function WorkWaiters(w: Work): nat {
    if w.BatchWork? then |w.batch.waiters| else 1
  }

  function QueueWaiters(queue: seq<Work>): nat {
    if queue == [] then 0 else WorkWaiters(queue[0]) + QueueWaiters(queue[1..])
  }

  /** The clients that the work of an entry still owes an answer. */
  function Outstanding(e: Entry): nat {
    QueueWaiters(e.queue)
    + (if e.activeBatch.Some? then |e.activeBatch.value.waiters| else 0)
    + (if e.activeBarrier.Some? then 1 else 0)
  }

  // ---------- invariant of one key ----------

  ghost predicate WaitersExact(b: Batch, left: set<nat>) {
    b.waiters == Ids(b.Members()) - left
  }

  /** An unready batch has a timer armed for its quiet period, cut off at its first arrival plus the longest delay. */
  ghost predicate TimerArmed(config: Config, b: Batch) {
    if b.ready then b.timer.None?
    else b.timer == Some(Min(b.lastArrival + config.debounce, b.firstArrival + config.maxDispatchDelay))
  }

  ghost predicate WorkOk(config: Config, w: Work, left: set<nat>) {
    w.BatchWork? ==> WaitersExact(w.batch, left) && TimerArmed(config, w.batch)
  }

  /** Every batch but the last of the queue is ready. */
  ghost predicate QueueOk(config: Config, queue: seq<Work>, left: set<nat>) {
    queue != [] ==>
      && WorkOk(config, queue[0], left)
      && (|queue| > 1 && queue[0].BatchWork? ==> queue[0].batch.ready)
      && QueueOk(config, queue[1..], left)
  }

  /** The invariant, but for a queue that may be due to move on. */
  ghost predicate LaneAlmost(config: Config, e: Entry, f: Fifo) {
    && f.pending == Flat(e.queue)
    && f.serving == ServingOf(e)
    && (e.activeBatch.None? || e.activeBarrier.None?)
    && QueueOk(config, e.queue, f.left)
    && (e.activeBatch.Some? ==> WaitersExact(e.activeBatch.value, f.left))
    && e.waiters == Outstanding(e)
  }

  ghost predicate LaneOk(config: Config, e: Entry, f: Fifo) {
    && LaneAlmost(config, e, f)
    && !CanAdvance(e)
  }

  // ---------- queues ----------

  lemma {:induction false} AppendSums(queue: seq<Work>, w: Work)
    ensures Flat(queue + [w]) == Flat(queue) + Items(w)
    ensures QueueWaiters(queue + [w]) == QueueWaiters(queue) + WorkWaiters(w)
  {
    if queue == [] {
      assert (queue + [w])[1..] == [];
    } else {
      assert (queue + [w])[1..] == queue[1..] + [w];
      AppendSums(queue[1..], w);
    }
  }

  lemma {:induction false} ForceSame(queue: seq<Work>)
    ensures Flat(ForceQueue(queue)) == Flat(queue)
    ensures QueueWaiters(ForceQueue(queue)) == QueueWaiters(queue)
  {
    if queue != [] {
      assert ForceQueue(queue)[1..] == ForceQueue(queue[1..]);
      ForceSame(queue[1..]);
      assert Items(ForceWork(queue[0])) == Items(queue[0]);
    }
  }

  lemma UpdatesConcat(a: seq<nat>, b: seq<nat>)
    ensures Updates(a + b) == Updates(a) + Updates(b)
  {
  }

  ghost predicate AllReady(queue: seq<Work>) {
    queue != [] ==> (queue[0].BatchWork? ==> queue[0].batch.ready) && AllReady(queue[1..])
  }

  lemma {:induction false} ForcedOk(config: Config, queue: seq<Work>, left: set<nat>)
    requires QueueOk(config, queue, left)
    ensures QueueOk(config, ForceQueue(queue), left) && AllReady(ForceQueue(queue))
  {
    if queue != [] {
      assert ForceQueue(queue)[1..] == ForceQueue(queue[1..]);
      ForcedOk(config, queue[1..], left);
    }
  }

  lemma {:induction false} ReadyAppend(config: Config, queue: seq<Work>, w: Work, left: set<nat>)
    requires QueueOk(config, queue, left) && AllReady(queue) && WorkOk(config, w, left)
    ensures QueueOk(config, queue + [w], left)
    ensures (w.BatchWork? ==> w.batch.ready) ==> AllReady(queue + [w])
  {
    if queue != [] {
      assert (queue + [w])[1..] == queue[1..] + [w];
      ReadyAppend(config, queue[1..], w, left);
    } else {
      assert (queue + [w])[1..] == [];
    }
  }

  lemma {:induction false} Split(config: Config, queue: seq<Work>, w: Work, left: set<nat>)
    requires QueueOk(config, queue + [w], left)
    ensures QueueOk(config, queue, left) && AllReady(queue) && WorkOk(config, w, left)
  {
    if queue != [] {
      assert (queue + [w])[1..] == queue[1..] + [w];
      Split(config, queue[1..], w, left);
    }
  }

  lemma ForcedLane(config: Config, e: Entry, f: Fifo)
    requires LaneAlmost(config, e, f)
    ensures LaneAlmost(config, ForceEntry(e), f) && AllReady(ForceEntry(e).queue)
  {
    ForceSame(e.queue);
    ForcedOk(config, e.queue, f.left);
  }

  // ---------- moving on ----------

  /** Starting the head of the queue is what the discipline does next. */
  lemma AdvanceOk(config: Config, e: Entry, f: Fifo)
    requires LaneAlmost(config, e, f)
    ensures AllowedAll(f, AdvanceEvents(e))
    ensures LaneOk(config, Advance(e), AfterAll(f, AdvanceEvents(e)))
    ensures AllReady(e.queue) ==> AllReady(Advance(e).queue) && (Advance(e).Inactive() ==> Advance(e).queue == [])
  {
    if CanAdvance(e) {
      var w := e.queue[0];
      assert Flat(e.queue) == Items(w) + Flat(e.queue[1..]);
      assert f.pending[|Items(w)|..] == Flat(e.queue[1..]);
      assert AdvanceEvents(e)[1..] == [];
      assert WorkOk(config, w, f.left);
    }
  }

  lemma ThenAll(f: Fifo, x: Event, es: seq<Event>)
    requires Allowed(f, x) && AllowedAll(After(f, x), es)
    ensures AllowedAll(f, [x] + es) && AfterAll(f, [x] + es) == AfterAll(After(f, x), es)
  {
    assert ([x] + es)[1..] == es;
  }

  /** Event x leads to state f2, which the changed entry e describes; letting e move on keeps the invariant. */
  lemma StepOk(config: Config, f: Fifo, x: Event, e: Entry)
    requires Allowed(f, x) && LaneAlmost(config, e, After(f, x))
    ensures AllowedAll(f, [x] + AdvanceEvents(e))
    ensures LaneOk(config, Advance(e), AfterAll(f, [x] + AdvanceEvents(e)))
  {
    AdvanceOk(config, e, After(f, x));
    ThenAll(f, x, AdvanceEvents(e));
  }

  // ---------- the operations ----------

  lemma InBatch(b: Batch, r: nat)
    ensures Update(r) in Updates(b.Members()) <==> r in b.Members()
  {
    if r in b.Members() {
      var i :| 0 <= i < |b.Members()| && b.Members()[i] == r;
      assert Updates(b.Members())[i] == Update(r);
    }
  }

  lemma IdsAppend(ms: seq<nat>, r: nat)
    ensures Ids(ms + [r]) == Ids(ms) + {r}
  {
    forall m ensures m in Ids(ms + [r]) <==> m in Ids(ms) + {r} { }
  }

  /** An existing batch that takes update r: its members, its waiters, its deadline. */
  lemma SupersedeOk(config: Config, last: Batch, r: nat, now: int, left: set<nat>)
    requires WaitersExact(last, left) && TimerArmed(config, last) && r !in left && r !in last.Members()
    ensures var b := TakeWaiter(config, Supersede(last, r, now), r, now);
            && WorkOk(config, BatchWork(b), left)
            && b.Members() == last.Members() + [r]
            && |b.waiters| == |last.waiters| + 1
  {
    IdsAppend(last.Members(), r);
    assert r !in last.waiters;
  }

  lemma NewBatchOk(config: Config, r: nat, now: int, left: set<nat>)
    requires r !in left
    ensures var b := TakeWaiter(config, NewBatch(r, now), r, now);
            && WorkOk(config, BatchWork(b), left)
            && Items(BatchWork(b)) == [Update(r)]
            && |b.waiters| == 1
  {
    var b := TakeWaiter(config, NewBatch(r, now), r, now);
    assert b.Members() == [r];
    assert b.waiters == {r};
  }

  lemma Associate<T>(x: seq<T>, y: seq<T>, z: seq<T>)
    ensures x + (y + z) == x + y + z
  {
  }

  lemma MergeOk(config: Config, kept: seq<Work>, last: Batch, r: nat, now: int, left: set<nat>)
    requires QueueOk(config, kept, left) && AllReady(kept) && WorkOk(config, BatchWork(last), left)
    requires r !in left && Update(r) !in Flat(kept) + Updates(last.Members())
    ensures var w := BatchWork(TakeWaiter(config, Supersede(last, r, now), r, now));
            && QueueOk(config, kept + [w], left)
            && Flat(kept + [w]) == Flat(kept) + Updates(last.Members()) + [Update(r)]
            && QueueWaiters(kept + [w]) == QueueWaiters(kept) + |last.waiters| + 1
  {
    hide TakeWaiter, Supersede, WaitersExact, TimerArmed, QueueOk, AllReady;
    InBatch(last, r);
    SupersedeOk(config, last, r, now, left);
    UpdatesConcat(last.Members(), [r]);
    var w := BatchWork(TakeWaiter(config, Supersede(last, r, now), r, now));
    ReadyAppend(config, kept, w, left);
    AppendSums(kept, w);
    Associate(Flat(kept), Updates(last.Members()), Updates([r]));
  }

  lemma QueueUpdateOk(config: Config, queue: seq<Work>, r: nat, now: int, left: set<nat>)
    requires QueueOk(config, queue, left) && r !in left && Update(r) !in Flat(queue)
    ensures QueueOk(config, QueueUpdate(config, queue, r, now), left)
    ensures Flat(QueueUpdate(config, queue, r, now)) == Flat(queue) + [Update(r)]
    ensures QueueWaiters(QueueUpdate(config, queue, r, now)) == QueueWaiters(queue) + 1
  {
    var n := |queue|;
    if n > 0 {
      assert queue == queue[..n - 1] + [queue[n - 1]];
      Split(config, queue[..n - 1], queue[n - 1], left);
      AppendSums(queue[..n - 1], queue[n - 1]);
    }
    if n > 0 && queue[n - 1].BatchWork? {
      MergeOk(config, queue[..n - 1], queue[n - 1].batch, r, now, left);
    } else {
      if n > 0 {
        ReadyAppend(config, queue[..n - 1], queue[n - 1], left);
      }
      NewBatchOk(config, r, now, left);
      var w := BatchWork(TakeWaiter(config, NewBatch(r, now), r, now));
      ReadyAppend(config, queue, w, left);
      AppendSums(queue, w);
    }
  }

  lemma AcceptOk(config: Config, e: Entry, f: Fifo, r: nat, now: int)
    requires LaneOk(config, e, f) && Ordered(f) && f.next <= r
    ensures Allowed(f, Accept(r)) && After(f, Accept(r)).next == r + 1
    ensures var e1 := e.(waiters := e.waiters + 1, queue := QueueUpdate(config, e.queue, r, now), lastActivity := now);
            LaneAlmost(config, e1, After(f, Accept(r)))
  {
    QueueUpdateOk(config, e.queue, r, now, f.left);
  }

  lemma StopOk(config: Config, e: Entry, f: Fifo, b: nat, now: int)
    requires LaneOk(config, e, f) && f.next <= b
    ensures Allowed(f, Stop(b)) && After(f, Stop(b)).next == b + 1
    ensures var e1 := e.(waiters := e.waiters + 1, queue := QueueBarrier(e.queue, b), lastActivity := now);
            LaneAlmost(config, e1, After(f, Stop(b)))
  {
    ForceSame(e.queue);
    ForcedOk(config, e.queue, f.left);
    AppendSums(ForceQueue(e.queue), BarrierWork(b));
    ReadyAppend(config, ForceQueue(e.queue), BarrierWork(b), f.left);
  }

  lemma {:induction false} MarkReadySame(config: Config, queue: seq<Work>, batchId: nat, generation: nat, left: set<nat>)
    requires QueueOk(config, queue, left)
    ensures var marked := MarkReady(queue, batchId, generation);
            && Flat(marked) == Flat(queue) && QueueWaiters(marked) == QueueWaiters(queue)
            && QueueOk(config, marked, left) && |marked| == |queue|
            && (AllReady(queue) ==> marked == queue)
  {
    if queue != [] {
      var marked := MarkReady(queue, batchId, generation);
      if queue[0].BatchWork? && queue[0].batch.id == batchId {
        assert marked[1..] == queue[1..];
      } else {
        MarkReadySame(config, queue[1..], batchId, generation, left);
        assert marked[1..] == MarkReady(queue[1..], batchId, generation);
        assert [queue[0]] + queue[1..] == queue;
      }
    }
  }

  lemma FinishOk(config: Config, e: Entry, f: Fifo, force: bool, now: int)
    requires LaneOk(config, e, f) && e.activeBatch.Some?
    ensures var batch := e.activeBatch.value;
            && Allowed(f, Finish(batch.Members(), batch.waiters)) && After(f, Finish(batch.Members(), batch.waiters)).next == f.next
            && |batch.waiters| <= e.waiters
            && (var e1 := e.(activeBatch := None, lastActivity := now, waiters := e.waiters - |batch.waiters|);
                LaneAlmost(config, if force then ForceEntry(e1) else e1, After(f, Finish(batch.Members(), batch.waiters))))
  {
    var batch := e.activeBatch.value;
    var e1 := e.(activeBatch := None, lastActivity := now, waiters := e.waiters - |batch.waiters|);
    var f1 := After(f, Finish(batch.Members(), batch.waiters));
    assert LaneAlmost(config, e1, f1);
    ForcedLane(config, e1, f1);
  }

  lemma ReleaseOk(config: Config, e: Entry, f: Fifo, force: bool, now: int)
    requires LaneOk(config, e, f) && e.activeBarrier.Some?
    ensures var b := e.activeBarrier.value;
            && Allowed(f, Release(b)) && After(f, Release(b)).next == f.next
            && 1 <= e.waiters
            && (var e1 := e.(activeBarrier := None, lastActivity := now, waiters := e.waiters - 1);
                LaneAlmost(config, if force then ForceEntry(e1) else e1, After(f, Release(b))))
  {
    var b := e.activeBarrier.value;
    var e1 := e.(activeBarrier := None, lastActivity := now, waiters := e.waiters - 1);
    assert LaneAlmost(config, e1, After(f, Release(b)));
    ForcedLane(config, e1, After(f, Release(b)));
  }

  lemma {:induction false} WithoutConcat(a: seq<Item>, b: seq<Item>, x: Item)
    ensures Without(a + b, x) == Without(a, x) + Without(b, x)
  {
    if a == [] {
      assert a + b == b;
    } else {
      assert (a + b)[1..] == a[1..] + b;
      WithoutConcat(a[1..], b, x);
    }
  }

  lemma {:induction false} WithoutAbsent(a: seq<Item>, x: Item)
    requires x !in a
    ensures Without(a, x) == a
  {
    if a != [] {
      WithoutAbsent(a[1..], x);
    }
  }

  lemma TailSorted(a: seq<Item>, b: seq<Item>)
    requires Sorted(a + b)
    ensures Sorted(b)
  {
    forall i, j | 0 <= i < j < |b| ensures b[i].id < b[j].id {
      assert (a + b)[|a| + i] == b[i] && (a + b)[|a| + j] == b[j];
    }
  }

  /** In a sorted queue an item stands once. */
  lemma Apart(a: seq<Item>, b: seq<Item>, x: Item)
    requires Sorted(a + b)
    ensures x in a ==> x !in b
  {
    if x in a {
      var i :| 0 <= i < |a| && a[i] == x;
      forall j | 0 <= j < |b| ensures b[j] != x {
        assert (a + b)[i].id < (a + b)[|a| + j].id;
      }
    }
  }

  lemma {:induction false} RemoveBarrierOk(config: Config, queue: seq<Work>, b: nat, left: set<nat>)
    requires QueueOk(config, queue, left) && BarrierWork(b) in queue && Sorted(Flat(queue))
    ensures var rest := RemoveBarrier(queue, b);
            && Flat(rest) == Without(Flat(queue), Barrier(b))
            && QueueWaiters(rest) + 1 == QueueWaiters(queue)
            && QueueOk(config, rest, left)
            && Barrier(b) in Flat(queue)
            && (AllReady(queue) ==> AllReady(rest))
            && |rest| + 1 == |queue|
  {
    var rest := RemoveBarrier(queue, b);
    var head, tail := Items(queue[0]), Flat(queue[1..]);
    TailSorted(head, tail);
    Apart(head, tail, Barrier(b));
    WithoutConcat(head, tail, Barrier(b));
    if queue[0] == BarrierWork(b) {
      assert head == [Barrier(b)];
      WithoutAbsent(tail, Barrier(b));
      assert Without(head, Barrier(b)) == [] by { assert head[1..] == []; }
    } else {
      RemoveBarrierOk(config, queue[1..], b, left);
      WithoutAbsent(head, Barrier(b));
      assert rest[1..] == RemoveBarrier(queue[1..], b);
    }
  }

  lemma WithdrawOk(config: Config, e: Entry, f: Fifo, b: nat, now: int)
    requires LaneOk(config, e, f) && Ordered(f) && BarrierWork(b) in e.queue
    ensures Allowed(f, Withdraw(b)) && After(f, Withdraw(b)).next == f.next && 1 <= e.waiters
    ensures var e1 := e.(queue := RemoveBarrier(e.queue, b), waiters := e.waiters - 1, lastActivity := now);
            LaneAlmost(config, e1, After(f, Withdraw(b))) && (AllReady(e.queue) ==> AllReady(e1.queue))
  {
    RemoveBarrierOk(config, e.queue, b, f.left);
  }

  lemma {:induction false} RemoveWaiterReady(queue: seq<Work>, r: nat)
    ensures AllReady(queue) ==> AllReady(RemoveWaiter(queue, r))
    ensures |RemoveWaiter(queue, r)| == |queue|
    ensures queue != [] && queue[0].BatchWork? ==> RemoveWaiter(queue, r)[0].BatchWork? && RemoveWaiter(queue, r)[0].batch.ready == queue[0].batch.ready
    ensures queue != [] && queue[0].BarrierWork? ==> RemoveWaiter(queue, r)[0].BarrierWork?
  {
    if queue != [] {
      RemoveWaiterReady(queue[1..], r);
      assert RemoveWaiter(queue, r)[1..] in {queue[1..], RemoveWaiter(queue[1..], r)};
    }
  }

  function LessWaiter(b: Batch, r: nat): Batch {
    b.(waiters := b.waiters - {r})
  }

  /** The waiter is in the first work of the queue, and therefore in no other. */
  lemma RemoveHere(config: Config, b: Batch, rest: seq<Work>, r: nat, left: set<nat>)
    requires WorkOk(config, BatchWork(b), left) && QueueOk(config, rest, left) && r in b.waiters
    requires Sorted(Updates(b.Members()) + Flat(rest))
    ensures WorkOk(config, BatchWork(LessWaiter(b, r)), left + {r})
    ensures |LessWaiter(b, r).waiters| + 1 == |b.waiters|
    ensures QueueOk(config, rest, left + {r})
    ensures Update(r) in Updates(b.Members()) && r !in left
  {
    Apart(Updates(b.Members()), Flat(rest), Update(r));
    InBatch(b, r);
    NotMembers(config, rest, r, left);
  }

  lemma {:induction false} RemoveWaiterItems(queue: seq<Work>, r: nat)
    ensures Flat(RemoveWaiter(queue, r)) == Flat(queue)
    ensures QueueWaits(queue, r) ==> QueueWaiters(RemoveWaiter(queue, r)) + 1 == QueueWaiters(queue)
  {
    if queue != [] {
      var rest := RemoveWaiter(queue, r);
      if queue[0].BatchWork? && r in queue[0].batch.waiters {
        assert rest[1..] == queue[1..];
        assert |queue[0].batch.waiters - {r}| + 1 == |queue[0].batch.waiters|;
      } else {
        assert rest[1..] == RemoveWaiter(queue[1..], r);
        RemoveWaiterItems(queue[1..], r);
        if QueueWaits(queue, r) {
          var i :| 0 <= i < |queue| && queue[i].BatchWork? && r in queue[i].batch.waiters;
          assert queue[1..][i - 1] == queue[i];
        }
      }
    }
  }

  lemma {:induction false} RemoveWaiterOk(config: Config, queue: seq<Work>, r: nat, left: set<nat>)
    requires QueueOk(config, queue, left) && QueueWaits(queue, r) && Sorted(Flat(queue))
    ensures QueueOk(config, RemoveWaiter(queue, r), left + {r})
    ensures Update(r) in Flat(queue) && r !in left
  {
    var rest := RemoveWaiter(queue, r);
    RemoveWaiterReady(queue[1..], r);
    if queue[0].BatchWork? && r in queue[0].batch.waiters {
      RemoveHere(config, queue[0].batch, queue[1..], r, left);
      assert rest[1..] == queue[1..];
    } else {
      var i :| 0 <= i < |queue| && queue[i].BatchWork? && r in queue[i].batch.waiters;
      assert queue[1..][i - 1] == queue[i];
      TailSorted(Items(queue[0]), Flat(queue[1..]));
      Apart(Items(queue[0]), Flat(queue[1..]), Update(r));
      RemoveWaiterOk(config, queue[1..], r, left);
      assert rest[1..] == RemoveWaiter(queue[1..], r) && rest[0] == queue[0];
      if queue[0].BatchWork? {
        InBatch(queue[0].batch, r);
      }
    }
  }

  /** An update that is not in the flattened queue is in no batch of it. */
  lemma {:induction false} NotMembers(config: Config, queue: seq<Work>, r: nat, left: set<nat>)
    requires QueueOk(config, queue, left) && Update(r) !in Flat(queue)
    ensures QueueOk(config, queue, left + {r})
  {
    if queue != [] {
      if queue[0].BatchWork? {
        InBatch(queue[0].batch, r);
      }
      NotMembers(config, queue[1..], r, left);
    }
  }

  lemma LeaveOk(config: Config, e: Entry, f: Fifo, r: nat, now: int)
    requires LaneOk(config, e, f) && Ordered(f) && (ActiveWaits(e, r) || QueueWaits(e.queue, r))
    ensures Allowed(f, Leave(r)) && After(f, Leave(r)).next == f.next && 1 <= e.waiters
    ensures var e1 := DropWaiter(e, r).(waiters := e.waiters - 1, lastActivity := now);
            LaneOk(config, e1, After(f, Leave(r))) && (AllReady(e.queue) ==> AllReady(e1.queue)) && |e1.queue| == |e.queue|
  {
    if ActiveWaits(e, r) {
      var b := e.activeBatch.value;
      assert r in b.Members();
      assert Update(r) !in Flat(e.queue);
      NotMembers(config, e.queue, r, f.left);
      assert |b.waiters - {r}| == |b.waiters| - 1;
    } else {
      RemoveWaiterOk(config, e.queue, r, f.left);
      RemoveWaiterItems(e.queue, r);
      RemoveWaiterReady(e.queue, r);
      assert e.activeBatch.Some? ==> r !in e.activeBatch.value.Members();
    }
  }
}
