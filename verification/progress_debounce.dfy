/** When an update is dispatched: not before its quiet period, unless something forces it; and what an accepted one joins. */
module ProgressDebounce {
  import opened Wrappers
  import opened ProgressFifo
  import opened ProgressSpec
  import opened ProgressLanes
  import opened ProgressRuns

  // ---------- batches of a key ----------

  /** A batch in the queue or being dispatched. */
  ghost predicate Has(e: Entry, b: Batch) {
    BatchWork(b) in e.queue || e.activeBatch == Some(b)
  }

  /** The batch has been started, or would be as soon as the key has time for it. */
  ghost predicate Released(e: Entry, id: nat) {
    || (e.activeBatch.Some? && e.activeBatch.value.id == id)
    || (exists w :: w in e.queue && w.BatchWork? && w.batch.id == id && w.batch.ready)
  }

  /** When its quiet period ends: debounce after its last update, but no later than the longest delay after its first. */
  function Due(config: Config, b: Batch): int {
    if b.lastArrival + config.debounce < b.firstArrival + config.maxDispatchDelay then b.lastArrival + config.debounce
    else b.firstArrival + config.maxDispatchDelay
  }

  // ---------- what releases a batch ----------

  /**
   The ways to release a batch: its own timer, armed for the end of its quiet period; a
   barrier accepted behind it; an accepted update that finds the quiet period over; the
   beginning of a drain.
   */
  ghost predicate Releases(g: Global, c: Coalescer, op: Op, key: Key, id: nat) {
    var c1 := Apply(g, c, op).1;
    match op
    case OpTimer(k, entryId, batchId, generation) =>
      && k == key && batchId == id && key in c.entries && c.entries[key].id == entryId
      && exists w :: w in c.entries[key].queue && w.BatchWork? && w.batch.id == id && !w.batch.ready
                     && w.batch.timer == Some(Due(c.config, w.batch)) && w.batch.timerGeneration == generation
    case OpStop(k, now) => k == key && EnqueueBarrier(g, c, key, now).2.Some?
    case OpUpdate(k, now) =>
      && k == key && key in c1.entries
      && exists b :: Has(c1.entries[key], b) && b.id == id && EnqueueUpdate(g, c, key, now).2 == Some(b.request)
                     && b.lastArrival == now && Due(c.config, b) <= now
    case OpEndIngress => c.state == Quiescing && c1.state == Draining
    case OpBeginDrain => c.state == Open && c1.state == Draining
    case _ => false
  }

  // ---------- queues ----------

  lemma {:induction false} MarkedMembers(queue: seq<Work>, batchId: nat, generation: nat)
    ensures forall w :: w in MarkReady(queue, batchId, generation) ==>
      || w in queue
      || (w.BatchWork? && w.batch.id == batchId && w.batch.ready
          && exists v :: v in queue && v.BatchWork? && v.batch.id == batchId && !v.batch.ready
                         && v.batch.timerGeneration == generation && w.batch == v.batch.(ready := true, timer := None))
  {
    if queue != [] {
      MarkedMembers(queue[1..], batchId, generation);
      var out := MarkReady(queue, batchId, generation);
      forall w | w in out && w !in queue
        ensures w.BatchWork? && w.batch.id == batchId && w.batch.ready
        ensures exists v :: v in queue && v.BatchWork? && v.batch.id == batchId && !v.batch.ready
                            && v.batch.timerGeneration == generation && w.batch == v.batch.(ready := true, timer := None)
      {
        if queue[0].BatchWork? && queue[0].batch.id == batchId {
          assert queue[0] in queue;
          assert out != queue;
          assert forall x :: x in out ==> x == out[0] || x in queue[1..];
        } else {
          assert w in MarkReady(queue[1..], batchId, generation);
          assert w !in queue[1..];
        }
      }
    }
  }

  lemma ForcedMember(queue: seq<Work>, w: Work)
    requires w in ForceQueue(queue)
    ensures exists v :: v in queue && w == ForceWork(v)
  {
    var i :| 0 <= i < |queue| && ForceQueue(queue)[i] == w;
    assert queue[i] in queue;
  }

  lemma {:induction false} AllReadyMember(queue: seq<Work>, w: Work)
    requires AllReady(queue) && w in queue && w.BatchWork?
    ensures w.batch.ready
    decreases |queue|
  {
    if queue[0] != w {
      AllReadyMember(queue[1..], w);
    }
  }

  lemma {:induction false} ArmedMember(config: Config, queue: seq<Work>, left: set<nat>, w: Work)
    requires QueueOk(config, queue, left) && w in queue && w.BatchWork? && !w.batch.ready
    ensures w.batch.timer == Some(Due(config, w.batch))
    decreases |queue|
  {
    if queue[0] != w {
      ArmedMember(config, queue[1..], left, w);
    }
  }

  lemma {:induction false} WithoutBarrier(queue: seq<Work>, b: nat)
    ensures forall w :: w in RemoveBarrier(queue, b) ==> w in queue
  {
    if queue != [] && queue[0] != BarrierWork(b) {
      WithoutBarrier(queue[1..], b);
    }
  }

  lemma {:induction false} WithoutWaiter(queue: seq<Work>, r: nat)
    ensures forall w :: w in RemoveWaiter(queue, r) ==>
      exists v :: v in queue && (w == v || (w.BatchWork? && v.BatchWork? && w.batch == v.batch.(waiters := v.batch.waiters - {r})))
  {
    if queue != [] {
      if queue[0].BatchWork? && r in queue[0].batch.waiters {
        forall w | w in RemoveWaiter(queue, r)
          ensures exists v :: v in queue && (w == v || (w.BatchWork? && v.BatchWork? && w.batch == v.batch.(waiters := v.batch.waiters - {r})))
        {
          if w != RemoveWaiter(queue, r)[0] {
            assert w in queue[1..];
          } else {
            assert queue[0] in queue;
          }
        }
      } else {
        WithoutWaiter(queue[1..], r);
        assert queue[0] in queue;
      }
    }
  }

  /** Letting a queue move on starts what was ready at its head, and nothing else changes. */
  lemma AdvancedFrom(e: Entry)
    ensures forall w :: w in Advance(e).queue ==> w in e.queue
    ensures Advance(e).activeBatch == e.activeBatch
            || (Advance(e).activeBatch.Some? && Advance(e).activeBatch.value.ready && BatchWork(Advance(e).activeBatch.value) in e.queue)
  {
  }

  // ---------- one entry after one step ----------

  /** Every batch of e1 is one of e as far as readiness and arrivals go; what is released there is released here. */
  ghost predicate Inherits(e: Entry, e1: Entry) {
    && (forall w :: w in e1.queue && w.BatchWork? ==>
          exists v :: v in e.queue && v.BatchWork? && Alike(v.batch, w.batch) && (w.batch.ready ==> v.batch.ready))
    && (e1.activeBatch.Some? ==>
          || (e.activeBatch.Some? && Alike(e.activeBatch.value, e1.activeBatch.value))
          || exists v :: v in e.queue && v.BatchWork? && Alike(v.batch, e1.activeBatch.value) && v.batch.ready)
  }

  ghost predicate Alike(b: Batch, b1: Batch) {
    && b1.id == b.id && b1.superseded == b.superseded && b1.request == b.request
    && b1.firstArrival == b.firstArrival && b1.lastArrival == b.lastArrival
  }

  lemma InheritsReleased(e: Entry, e1: Entry, id: nat)
    requires Inherits(e, e1) && Released(e1, id)
    ensures Released(e, id)
  {
    if e1.activeBatch.Some? && e1.activeBatch.value.id == id {
    } else {
      var w :| w in e1.queue && w.BatchWork? && w.batch.id == id && w.batch.ready;
      var v :| v in e.queue && v.BatchWork? && Alike(v.batch, w.batch) && (w.batch.ready ==> v.batch.ready);
    }
  }

  lemma AdvanceInherits(e: Entry)
    ensures Inherits(e, Advance(e))
  {
    AdvancedFrom(e);
  }

  lemma InheritsTwice(a: Entry, b: Entry, c: Entry)
    requires Inherits(a, b) && Inherits(b, c)
    ensures Inherits(a, c)
  {
    forall w | w in c.queue && w.BatchWork?
      ensures exists v :: v in a.queue && v.BatchWork? && Alike(v.batch, w.batch) && (w.batch.ready ==> v.batch.ready)
    {
      var x :| x in b.queue && x.BatchWork? && Alike(x.batch, w.batch) && (w.batch.ready ==> x.batch.ready);
      var v :| v in a.queue && v.BatchWork? && Alike(v.batch, x.batch) && (x.batch.ready ==> v.batch.ready);
      assert Alike(v.batch, w.batch);
    }
    if c.activeBatch.Some? {
      if b.activeBatch.Some? && Alike(b.activeBatch.value, c.activeBatch.value) {
        if !(a.activeBatch.Some? && Alike(a.activeBatch.value, b.activeBatch.value)) {
          var v :| v in a.queue && v.BatchWork? && Alike(v.batch, b.activeBatch.value) && v.batch.ready;
          assert Alike(v.batch, c.activeBatch.value);
        }
      } else {
        var x :| x in b.queue && x.BatchWork? && Alike(x.batch, c.activeBatch.value) && x.batch.ready;
        var v :| v in a.queue && v.BatchWork? && Alike(v.batch, x.batch) && (x.batch.ready ==> v.batch.ready);
        assert Alike(v.batch, c.activeBatch.value);
      }
    }
  }

  lemma SameInherits(e: Entry, e1: Entry)
    requires e1.queue == e.queue && (e1.activeBatch == e.activeBatch || e1.activeBatch.None?)
    ensures Inherits(e, e1)
  {
    forall w | w in e1.queue && w.BatchWork?
      ensures exists v :: v in e.queue && v.BatchWork? && Alike(v.batch, w.batch) && (w.batch.ready ==> v.batch.ready)
    {
      assert Alike(w.batch, w.batch);
    }
  }

  lemma ForcedInherits(e: Entry)
    requires AllReady(e.queue)
    ensures Inherits(e, ForceEntry(e))
  {
    var e1 := ForceEntry(e);
    forall w | w in e1.queue && w.BatchWork?
      ensures exists v :: v in e.queue && v.BatchWork? && Alike(v.batch, w.batch) && (w.batch.ready ==> v.batch.ready)
    {
      ForcedMember(e.queue, w);
      var v :| v in e.queue && w == ForceWork(v);
      AllReadyMember(e.queue, v);
      assert Alike(v.batch, w.batch);
    }
  }

  lemma DropInherits(e: Entry, r: nat)
    ensures Inherits(e, DropWaiter(e, r))
  {
    var e1 := DropWaiter(e, r);
    WithoutWaiter(e.queue, r);
    forall w | w in e1.queue && w.BatchWork?
      ensures exists v :: v in e.queue && v.BatchWork? && Alike(v.batch, w.batch) && (w.batch.ready ==> v.batch.ready)
    {
      if w in e.queue {
        assert Alike(w.batch, w.batch);
      } else {
        var v :| v in e.queue && (w == v || (w.BatchWork? && v.BatchWork? && w.batch == v.batch.(waiters := v.batch.waiters - {r})));
        assert Alike(v.batch, w.batch);
      }
    }
    if e1.activeBatch.Some? {
      assert Alike(e.activeBatch.value, e1.activeBatch.value);
    }
  }

  lemma BarrierGoneInherits(e: Entry, b: nat)
    ensures Inherits(e, e.(queue := RemoveBarrier(e.queue, b)))
  {
    WithoutBarrier(e.queue, b);
    forall w | w in RemoveBarrier(e.queue, b) && w.BatchWork?
      ensures exists v :: v in e.queue && v.BatchWork? && Alike(v.batch, w.batch) && (w.batch.ready ==> v.batch.ready)
    {
      assert Alike(w.batch, w.batch);
    }
  }

  // ---------- the steps that release nothing ----------

  ghost predicate Steady(c: Coalescer, c1: Coalescer) {
    forall key :: key in c1.entries ==> key in c.entries && Inherits(c.entries[key], c1.entries[key])
  }

  lemma StoredSteady(c: Coalescer, c1: Coalescer, key: Key, e: Entry, es: seq<Event>)
    requires key in c.entries && Inherits(c.entries[key], e) && c1.entries == c.entries
    ensures Steady(c, Store(c1, key, e, es))
  {
    hide Inherits, Advance, AdvanceEvents;
    AdvanceInherits(e);
    InheritsTwice(c.entries[key], e, Advance(e));
    forall k | k in c.entries ensures Inherits(c.entries[k], c.entries[k]) {
      SameInherits(c.entries[k], c.entries[k]);
    }
  }

  lemma SteadySame(c: Coalescer, c1: Coalescer)
    requires forall k :: k in c1.entries ==> k in c.entries && c1.entries[k] == c.entries[k]
    ensures Steady(c, c1)
  {
    hide Inherits;
    forall k | k in c1.entries ensures Inherits(c.entries[k], c1.entries[k]) {
      SameInherits(c.entries[k], c.entries[k]);
    }
  }

  lemma FinishSteady(g: Global, c: Coalescer, key: Key, entryId: nat, batchId: nat, failed: bool, now: int)
    requires Inv(c)
    ensures Steady(c, FinishDispatch(g, c, key, entryId, batchId, failed, now).1)
  {
    hide Inherits, Store, KeysOk, Steady;
    SteadySame(c, c);
    if c.Holds(key, entryId) && c.entries[key].activeBatch.Some? && c.entries[key].activeBatch.value.id == batchId {
      var batch := c.entries[key].activeBatch.value;
      var e := c.entries[key].(activeBatch := None, lastActivity := now);
      var e1 := ReleaseWaiters(g, e, |batch.waiters|).1;
      SameInherits(c.entries[key], e1);
      if c.state == Draining {
        assert AllReady(e1.queue);
        ForcedInherits(e1);
        InheritsTwice(c.entries[key], e1, ForceEntry(e1));
      }
      var c1 := if failed && c.drain.Some? && (c.state == Quiescing || c.state == Draining)
                then c.(drain := Some(c.drain.value.(failed := true))) else c;
      var e2 := if c.state == Draining then ForceEntry(e1) else e1;
      StoredSteady(c, c1, key, e2, [Finish(batch.Members(), batch.waiters)]);
      CompletedSteady(c, Store(c1, key, e2, [Finish(batch.Members(), batch.waiters)]));
    }
  }

  lemma CompletedSteady(c: Coalescer, c1: Coalescer)
    requires Steady(c, c1)
    ensures Steady(c, CompleteDrain(c1))
  {
  }

  lemma LeaveSteady(g: Global, c: Coalescer, key: Key, entryId: nat, r: nat, now: int)
    ensures Steady(c, LeaveWaiter(g, c, key, entryId, r, now).1)
  {
    hide Inherits, DropWaiter;
    if c.Holds(key, entryId) {
      var d := DropWaiter(c.entries[key], r);
      var e1 := ReleaseWaiters(g, d, 1).1.(lastActivity := now);
      DropInherits(c.entries[key], r);
      SameInherits(d, e1);
      InheritsTwice(c.entries[key], d, e1);
    }
    forall k | k in c.entries ensures Inherits(c.entries[k], c.entries[k]) {
      SameInherits(c.entries[k], c.entries[k]);
    }
  }

  lemma CancelSteady(g: Global, c: Coalescer, key: Key, entryId: nat, b: nat, now: int)
    ensures Steady(c, CancelBarrier(g, c, key, entryId, b, now).1)
  {
    hide Inherits, Store, Steady;
    SteadySame(c, c);
    if c.Holds(key, entryId) && c.entries[key].activeBarrier != Some(b) && BarrierWork(b) in c.entries[key].queue {
      var e := c.entries[key];
      var d := e.(queue := RemoveBarrier(e.queue, b));
      var e1 := ReleaseWaiters(g, d, 1).1.(lastActivity := now);
      BarrierGoneInherits(e, b);
      SameInherits(d, e1);
      InheritsTwice(e, d, e1);
      StoredSteady(c, c, key, e1, [Withdraw(b)]);
      CompletedSteady(c, Store(c, key, e1, [Withdraw(b)]));
    }
  }

  lemma ReleaseSteady(g: Global, c: Coalescer, key: Key, entryId: nat, b: nat, now: int)
    requires Inv(c)
    ensures Steady(c, ReleaseBarrier(g, c, key, entryId, b, now).1)
  {
    hide Inherits, Store, KeysOk, Steady;
    SteadySame(c, c);
    if c.Holds(key, entryId) && c.entries[key].activeBarrier == Some(b) {
      var e2 := ReleaseWaiters(g, c.entries[key].(activeBarrier := None), 1).1.(lastActivity := now);
      SameInherits(c.entries[key], e2);
      if c.state == Draining {
        assert AllReady(e2.queue);
        ForcedInherits(e2);
        InheritsTwice(c.entries[key], e2, ForceEntry(e2));
      }
      var e3 := if c.state == Draining then ForceEntry(e2) else e2;
      StoredSteady(c, c, key, e3, [Release(b)]);
      CompletedSteady(c, Store(c, key, e3, [Release(b)]));
    }
  }

  // ---------- the steps that release something ----------

  lemma TimerReleases(g: Global, c: Coalescer, op: Op, key: Key, id: nat)
    requires Inv(c) && op.OpTimer?
    requires var c1 := Apply(g, c, op).1;
      key in c1.entries && Released(c1.entries[key], id) && !(key in c.entries && Released(c.entries[key], id))
    ensures Releases(g, c, op, key, id)
  {
    hide Inherits;
    if op.key == key && c.Holds(key, op.entryId) && c.state != Closed {
      var e := c.entries[key];
      var queue := MarkReady(e.queue, op.batchId, op.generation);
      MarkedMembers(e.queue, op.batchId, op.generation);
      AdvanceInherits(e.(queue := queue));
      InheritsReleased(e.(queue := queue), Advance(e.(queue := queue)), id);
      var w :| w in queue && w.BatchWork? && w.batch.id == id && w.batch.ready;
      assert w !in e.queue;
      var v :| v in e.queue && v.BatchWork? && v.batch.id == op.batchId && !v.batch.ready
               && v.batch.timerGeneration == op.generation && w.batch == v.batch.(ready := true, timer := None);
      Lane(c, key);
      ArmedMember(c.config, e.queue, State(c.logs[key]).left, v);
    }
  }

  lemma OtherEntry(g: Global, c: Coalescer, op: Op, key: Key)
    requires op.OpUpdate? || op.OpStop?
    requires op.key != key
    ensures var c1 := Apply(g, c, op).1; key in c1.entries ==> key in c.entries && c1.entries[key] == c.entries[key]
  {
    hide QueueUpdate, QueueBarrier, Advance, AdvanceEvents;
  }

  lemma NewEntryHas(g: Global, c: Coalescer, key: Key, now: int)
    ensures var c1 := WithEntry(g, c, key, now).1;
      key in c1.entries && (if key in c.entries then c1.entries[key] == c.entries[key]
                            else c1.entries[key].queue == [] && c1.entries[key].Inactive())
    ensures WithEntry(g, c, key, now).1.config == c.config
  {
  }

  lemma StopReleases(g: Global, c: Coalescer, op: Op, key: Key, id: nat)
    requires op.OpStop?
    requires var c1 := Apply(g, c, op).1;
      key in c1.entries && Released(c1.entries[key], id) && !(key in c.entries && Released(c.entries[key], id))
    ensures Releases(g, c, op, key, id)
  {
    hide Released, QueueBarrier, Advance, AdvanceEvents;
    if op.key != key {
      OtherEntry(g, c, op, key);
    }
  }

  /** What an accepted update leaves in the queue, before the key moves on. */
  lemma QueuedUpdate(config: Config, queue: seq<Work>, r: nat, now: int, w: Work)
    requires w in QueueUpdate(config, queue, r, now)
    ensures w in queue || w == QueueUpdate(config, queue, r, now)[|QueueUpdate(config, queue, r, now)| - 1]
    ensures var last := QueueUpdate(config, queue, r, now)[|QueueUpdate(config, queue, r, now)| - 1];
      && last.BatchWork? && last.batch.request == r && last.batch.lastArrival == now
      && (last.batch.ready && !(queue != [] && queue[|queue| - 1].BatchWork? && queue[|queue| - 1].batch.ready) ==>
            Due(config, last.batch) <= now)
      && (queue != [] && queue[|queue| - 1].BatchWork? ==> last.batch.id == queue[|queue| - 1].batch.id)
  {
  }

  lemma UpdateReleases(g: Global, c: Coalescer, op: Op, key: Key, id: nat)
    requires op.OpUpdate?
    requires var c1 := Apply(g, c, op).1;
      key in c1.entries && Released(c1.entries[key], id) && !(key in c.entries && Released(c.entries[key], id))
    ensures Releases(g, c, op, key, id)
  {
    hide Inherits, QueueUpdate, Advance, AdvanceEvents, WithEntry;
    if op.key != key {
      OtherEntry(g, c, op, key);
      assert false;
    } else if Fits(g, c, key, op.now) {
      NewEntryHas(g, c, key, op.now);
      var c0 := WithEntry(g, c, key, op.now).1;
      var e, r := c0.entries[key], c0.nextId;
      var e1 := e.(waiters := e.waiters + 1, queue := QueueUpdate(c0.config, e.queue, r, op.now), lastActivity := op.now);
      AdvanceInherits(e1);
      InheritsReleased(e1, Advance(e1), id);
      UpdateCause(g, c, op, key, id, e, e1, r);
    } else {
      RefusedEntries(g, c, key, op.now);
    }
  }

  lemma RefusedEntries(g: Global, c: Coalescer, key: Key, now: int)
    ensures Refuse(g, c, key, now).1.entries == c.entries
  {
  }

  lemma UpdateCause(g: Global, c: Coalescer, op: Op, key: Key, id: nat, e: Entry, e1: Entry, r: nat)
    requires op.OpUpdate? && op.key == key && EnqueueUpdate(g, c, key, op.now).2 == Some(r)
    requires (if key in c.entries then e == c.entries[key] else e.queue == [] && e.Inactive()) && !(key in c.entries && Released(e, id))
    requires e1 == e.(waiters := e.waiters + 1, queue := QueueUpdate(c.config, e.queue, r, op.now), lastActivity := op.now)
    requires var c1 := Apply(g, c, op).1; key in c1.entries && c1.entries[key] == Advance(e1)
    requires Released(e1, id)
    ensures Releases(g, c, op, key, id)
  {
    hide QueueUpdate, AdvanceEvents, EnqueueUpdate;
    var w :| w in e1.queue && w.BatchWork? && w.batch.id == id && w.batch.ready;
    QueuedUpdate(c.config, e.queue, r, op.now, w);
    LastReleased(e);
    assert w !in e.queue;
    AdvancedHas(e1, w);
    assert Has(Advance(e1), w.batch);
  }

  lemma LastReleased(e: Entry)
    ensures e.queue != [] && e.queue[|e.queue| - 1].BatchWork? && e.queue[|e.queue| - 1].batch.ready ==>
      Released(e, e.queue[|e.queue| - 1].batch.id)
  {
    if e.queue != [] {
      assert e.queue[|e.queue| - 1] in e.queue;
    }
  }

  lemma AdvancedHas(e: Entry, w: Work)
    requires w in e.queue && w.BatchWork?
    ensures Has(Advance(e), w.batch)
  {
  }

  lemma DrainReleases(g: Global, c: Coalescer, op: Op, key: Key, id: nat)
    requires op.OpEndIngress? || op.OpBeginDrain?
    requires var c1 := Apply(g, c, op).1;
      key in c1.entries && Released(c1.entries[key], id) && !(key in c.entries && Released(c.entries[key], id))
    ensures Releases(g, c, op, key, id)
  {
    hide Released, Advance, AdvanceEvents, ForceEntry;
    var c0 := if op.OpEndIngress? then c.(admissions := Minus(c.admissions, 1))
              else c.(state := Quiescing, drain := Some(DrainCycle(c.nextId, false)), nextId := c.nextId + 1);
    if (op.OpEndIngress? || c.state == Open) && c0.state == Quiescing && c0.drain.Some? && c0.admissions == 0 {
      var c2 := ReleaseQueues(c0);
      assert key in c2.entries && Released(c2.entries[key], id);
      ReleasedBusy(c2.entries[key], id);
    }
  }

  lemma ReleasedBusy(e: Entry, id: nat)
    requires Released(e, id)
    ensures e.Busy()
  {
  }

  /** A step that releases a batch is one of those. */
  lemma StepReleases(g: Global, c: Coalescer, op: Op, key: Key, id: nat)
    requires Inv(c)
    requires var c1 := Apply(g, c, op).1;
      key in c1.entries && Released(c1.entries[key], id) && !(key in c.entries && Released(c.entries[key], id))
    ensures Releases(g, c, op, key, id)
  {
    hide Inv, Releases, Released, Inherits, EnqueueUpdate, EnqueueBarrier, MarkBatchReady, FinishDispatch, LeaveWaiter, CancelBarrier,
      ReleaseBarrier, BeginDrain, EndIngress;
    match op
    case OpUpdate(_, _) => UpdateReleases(g, c, op, key, id);
    case OpStop(_, _) => StopReleases(g, c, op, key, id);
    case OpTimer(_, _, _, _) => TimerReleases(g, c, op, key, id);
    case OpEndIngress => DrainReleases(g, c, op, key, id);
    case OpBeginDrain => DrainReleases(g, c, op, key, id);
    case _ =>
      SteadyStep(g, c, op);
      InheritsReleased(c.entries[key], Apply(g, c, op).1.entries[key], id);
      assert false;
  }

  lemma SteadyStep(g: Global, c: Coalescer, op: Op)
    requires Inv(c)
    requires !op.OpUpdate? && !op.OpStop? && !op.OpTimer? && !op.OpEndIngress? && !op.OpBeginDrain?
    ensures Steady(c, Apply(g, c, op).1)
  {
    hide Inv, Steady, FinishDispatch, LeaveWaiter, CancelBarrier, ReleaseBarrier;
    match op
    case OpFinish(key, entryId, batchId, failed, now) => FinishSteady(g, c, key, entryId, batchId, failed, now);
    case OpLeave(key, entryId, r, now) => LeaveSteady(g, c, key, entryId, r, now);
    case OpCancelBarrier(key, entryId, b, now) => CancelSteady(g, c, key, entryId, b, now);
    case OpReleaseBarrier(key, entryId, b, now) => ReleaseSteady(g, c, key, entryId, b, now);
    case _ => SteadySame(c, Apply(g, c, op).1);
  }

  // ---------- over runs ----------

  ghost predicate ReleasedAt(config: Config, turns: seq<Turn>, n: nat, key: Key, id: nat) {
    n < |turns| && Releases(turns[n].global, Run(config, turns[..n]), turns[n].op, key, id)
  }

  /**
   In every run, a batch that is being dispatched was released before, by the end of its
   quiet period, by a barrier behind it, or by a drain: no update is sent at once.
   */
  lemma {:induction false} DispatchedAfterQuiet(config: Config, turns: seq<Turn>, key: Key, id: nat)
    requires key in Run(config, turns).entries && Released(Run(config, turns).entries[key], id)
    ensures exists n: nat :: ReleasedAt(config, turns, n, key, id)
    decreases |turns|
  {
    hide Releases, Released, Apply;
    if turns != [] {
      var n := |turns| - 1;
      var before, t := turns[..n], turns[n];
      var c := Run(config, before);
      RunOk(config, before);
      assert Run(config, turns) == Apply(t.global, c, t.op).1;
      if key in c.entries && Released(c.entries[key], id) {
        DispatchedAfterQuiet(config, before, key, id);
        var m: nat :| ReleasedAt(config, before, m, key, id);
        assert before[..m] == turns[..m] && before[m] == turns[m];
        assert ReleasedAt(config, turns, m, key, id);
      } else {
        StepReleases(t.global, c, t.op, key, id);
        assert ReleasedAt(config, turns, n, key, id);
      }
    }
  }

  // ---------- arrivals ----------

  /** An update that was accepted for this key at this time. */
  ghost predicate AcceptedAt(config: Config, turns: seq<Turn>, key: Key, r: nat, now: int) {
    exists n: nat :: n < |turns| && AcceptedBy(turns[n].global, Run(config, turns[..n]), turns[n].op, key, r, now)
  }

  ghost predicate AcceptedBy(g: Global, c: Coalescer, op: Op, key: Key, r: nat, now: int) {
    op == OpUpdate(key, now) && EnqueueUpdate(g, c, key, now).2 == Some(r)
  }

  /** The first update of the batch arrived when the batch says, and so did the last. */
  ghost predicate ArrivedAsTold(config: Config, turns: seq<Turn>, key: Key, b: Batch) {
    && AcceptedAt(config, turns, key, b.Members()[0], b.firstArrival)
    && AcceptedAt(config, turns, key, b.request, b.lastArrival)
  }

  lemma AcceptedLater(config: Config, turns: seq<Turn>, t: Turn, key: Key, r: nat, now: int)
    requires AcceptedAt(config, turns, key, r, now)
    ensures AcceptedAt(config, turns + [t], key, r, now)
  {
    hide AcceptedBy;
    var n: nat :| n < |turns| && AcceptedBy(turns[n].global, Run(config, turns[..n]), turns[n].op, key, r, now);
    assert (turns + [t])[..n] == turns[..n] && (turns + [t])[n] == turns[n];
  }

  /** A batch after a step was there before, or is the one that the accepted update is in. */
  ghost predicate FromBefore(g: Global, c: Coalescer, op: Op, key: Key, b1: Batch) {
    || (exists b :: key in c.entries && Has(c.entries[key], b) && Alike(b, b1))
    || (AcceptedBy(g, c, op, key, b1.request, b1.lastArrival)
        && ((b1.superseded == [] && b1.firstArrival == b1.lastArrival)
            || exists b :: key in c.entries && Has(c.entries[key], b)
                           && b1.superseded == b.superseded + [b.request] && b1.firstArrival == b.firstArrival))
  }

  lemma InheritsHas(e: Entry, e1: Entry, b1: Batch)
    requires Inherits(e, e1) && Has(e1, b1)
    ensures exists b :: Has(e, b) && Alike(b, b1)
  {
    if BatchWork(b1) in e1.queue {
      var w := BatchWork(b1);
      var v :| v in e.queue && v.BatchWork? && Alike(v.batch, w.batch) && (w.batch.ready ==> v.batch.ready);
      assert Has(e, v.batch);
    } else if e.activeBatch.Some? && Alike(e.activeBatch.value, b1) {
      assert Has(e, e.activeBatch.value);
    } else {
      var v :| v in e.queue && v.BatchWork? && Alike(v.batch, b1) && v.batch.ready;
      assert Has(e, v.batch);
    }
  }

  /** The same but for readiness: for steps that release. */
  ghost predicate Keeps(e: Entry, e1: Entry) {
    forall b1 :: Has(e1, b1) ==> exists b :: Has(e, b) && Alike(b, b1)
  }

  lemma AdvanceKeeps(e: Entry, e1: Entry)
    requires Keeps(e, e1)
    ensures Keeps(e, Advance(e1))
  {
    hide Alike;
    AdvancedFrom(e1);
    forall b1 | Has(Advance(e1), b1) ensures Has(e1, b1) {
    }
  }

  lemma ForcedKeeps(e: Entry)
    ensures Keeps(e, ForceEntry(e))
  {
    forall b1 | Has(ForceEntry(e), b1) ensures exists b :: Has(e, b) && Alike(b, b1) {
      if BatchWork(b1) in ForceQueue(e.queue) {
        ForcedMember(e.queue, BatchWork(b1));
        var v :| v in e.queue && BatchWork(b1) == ForceWork(v);
        assert Has(e, v.batch) && Alike(v.batch, b1);
      } else {
        assert Has(e, b1) && Alike(b1, b1);
      }
    }
  }

  lemma MarkedKeeps(e: Entry, batchId: nat, generation: nat)
    ensures Keeps(e, e.(queue := MarkReady(e.queue, batchId, generation)))
  {
    MarkedMembers(e.queue, batchId, generation);
    forall b1 | Has(e.(queue := MarkReady(e.queue, batchId, generation)), b1) ensures exists b :: Has(e, b) && Alike(b, b1) {
      if Has(e, b1) {
        assert Alike(b1, b1);
      } else {
        var w := BatchWork(b1);
        var v :| v in e.queue && v.BatchWork? && v.batch.id == batchId && !v.batch.ready
                 && v.batch.timerGeneration == generation && w.batch == v.batch.(ready := true, timer := None);
        assert Has(e, v.batch) && Alike(v.batch, b1);
      }
    }
  }

  lemma BarrierKeeps(e: Entry, b: nat, e1: Entry)
    requires e1.queue == QueueBarrier(e.queue, b) && e1.activeBatch == e.activeBatch
    ensures Keeps(e, e1)
  {
    ForcedKeeps(e);
    forall b1 | Has(e1, b1) ensures exists x :: Has(e, x) && Alike(x, b1) {
      assert Has(ForceEntry(e), b1);
    }
  }

  lemma KeptBefore(g: Global, c: Coalescer, op: Op, key: Key, e1: Entry, b1: Batch)
    requires key in c.entries && Keeps(c.entries[key], e1) && Has(e1, b1)
    ensures FromBefore(g, c, op, key, b1)
  {
    hide Alike, Has;
    var b :| Has(c.entries[key], b) && Alike(b, b1);
  }

  lemma SameKeeps(e: Entry)
    ensures Keeps(e, e)
  {
    forall b1 | Has(e, b1) ensures exists b :: Has(e, b) && Alike(b, b1) {
      assert Alike(b1, b1);
    }
  }

  lemma StepFrom(g: Global, c: Coalescer, op: Op, key: Key, b1: Batch)
    requires Inv(c)
    requires var c1 := Apply(g, c, op).1; key in c1.entries && Has(c1.entries[key], b1)
    ensures FromBefore(g, c, op, key, b1)
  {
    hide Inv, Has, Alike, Inherits, FromBefore, EnqueueUpdate, EnqueueBarrier, MarkBatchReady, FinishDispatch, LeaveWaiter, CancelBarrier,
      ReleaseBarrier, BeginDrain, EndIngress, Keeps;
    match op
    case OpUpdate(_, _) => UpdateFrom(g, c, op, key, b1);
    case OpStop(_, _) => StopFrom(g, c, op, key, b1);
    case OpTimer(_, _, _, _) => TimerFrom(g, c, op, key, b1);
    case OpEndIngress => DrainFrom(g, c, op, key, b1);
    case OpBeginDrain => DrainFrom(g, c, op, key, b1);
    case _ =>
      SteadyStep(g, c, op);
      SteadyFrom(g, c, op, key, b1);
  }

  lemma SteadyFrom(g: Global, c: Coalescer, op: Op, key: Key, b1: Batch)
    requires var c1 := Apply(g, c, op).1; Steady(c, c1) && key in c1.entries && Has(c1.entries[key], b1)
    ensures FromBefore(g, c, op, key, b1)
  {
    hide Has, Alike, Inherits, Apply;
    InheritsHas(c.entries[key], Apply(g, c, op).1.entries[key], b1);
  }

  lemma TimerFrom(g: Global, c: Coalescer, op: Op, key: Key, b1: Batch)
    requires op.OpTimer?
    requires var c1 := Apply(g, c, op).1; key in c1.entries && Has(c1.entries[key], b1)
    ensures FromBefore(g, c, op, key, b1)
  {
    hide Has, Alike, Keeps, Advance, AdvanceEvents, FromBefore;
    var e := c.entries[key];
    SameKeeps(e);
    MarkedKeeps(e, op.batchId, op.generation);
    AdvanceKeeps(e, e.(queue := MarkReady(e.queue, op.batchId, op.generation)));
    KeptBefore(g, c, op, key, Apply(g, c, op).1.entries[key], b1);
  }

  lemma StopFrom(g: Global, c: Coalescer, op: Op, key: Key, b1: Batch)
    requires op.OpStop?
    requires var c1 := Apply(g, c, op).1; key in c1.entries && Has(c1.entries[key], b1)
    ensures FromBefore(g, c, op, key, b1)
  {
    hide Alike, Keeps, Advance, AdvanceEvents, FromBefore, WithEntry, QueueBarrier, Has;
    if op.key != key {
      OtherEntry(g, c, op, key);
      SameKeeps(c.entries[key]);
      KeptBefore(g, c, op, key, c.entries[key], b1);
    } else if Fits(g, c, key, op.now) {
      NewEntryHas(g, c, key, op.now);
      var c0 := WithEntry(g, c, key, op.now).1;
      var e, b := c0.entries[key], c0.nextId;
      var e1 := e.(waiters := e.waiters + 1, queue := QueueBarrier(e.queue, b), lastActivity := op.now);
      BarrierKeeps(e, b, e1);
      AdvanceKeeps(e, e1);
      EmptyHas(e);
      KeepsHas(e, Advance(e1), b1);
      KeptBefore(g, c, op, key, Advance(e1), b1);
    } else {
      RefusedEntries(g, c, key, op.now);
      SameKeeps(c.entries[key]);
      KeptBefore(g, c, op, key, c.entries[key], b1);
    }
  }

  lemma EmptyHas(e: Entry)
    ensures e.queue == [] && e.Inactive() ==> forall b :: !Has(e, b)
  {
  }

  lemma KeepsHas(e: Entry, e1: Entry, b1: Batch)
    requires Keeps(e, e1) && Has(e1, b1)
    ensures exists b :: Has(e, b)
  {
    hide Has, Alike;
  }

  lemma DrainFrom(g: Global, c: Coalescer, op: Op, key: Key, b1: Batch)
    requires op.OpEndIngress? || op.OpBeginDrain?
    requires var c1 := Apply(g, c, op).1; key in c1.entries && Has(c1.entries[key], b1)
    ensures FromBefore(g, c, op, key, b1)
  {
    hide Has, Alike, Keeps, Advance, AdvanceEvents, ForceEntry, FromBefore;
    var e := c.entries[key];
    SameKeeps(e);
    ForcedKeeps(e);
    AdvanceKeeps(e, ForceEntry(e));
    KeptBefore(g, c, op, key, Apply(g, c, op).1.entries[key], b1);
  }

  /** The batch that an accepted update is in. */
  lemma QueuedFrom(config: Config, queue: seq<Work>, r: nat, now: int)
    ensures var out := QueueUpdate(config, queue, r, now); var last := out[|out| - 1];
      && last.BatchWork? && last.batch.request == r && last.batch.lastArrival == now
      && (if queue != [] && queue[|queue| - 1].BatchWork? then
            last.batch.superseded == queue[|queue| - 1].batch.superseded + [queue[|queue| - 1].batch.request]
            && last.batch.firstArrival == queue[|queue| - 1].batch.firstArrival
          else last.batch.superseded == [] && last.batch.firstArrival == now)
  {
  }

  lemma UpdateFrom(g: Global, c: Coalescer, op: Op, key: Key, b1: Batch)
    requires op.OpUpdate?
    requires var c1 := Apply(g, c, op).1; key in c1.entries && Has(c1.entries[key], b1)
    ensures FromBefore(g, c, op, key, b1)
  {
    hide Alike, Keeps, Advance, AdvanceEvents, FromBefore, WithEntry, QueueUpdate, Has;
    if op.key != key {
      OtherEntry(g, c, op, key);
      SameKeeps(c.entries[key]);
      KeptBefore(g, c, op, key, c.entries[key], b1);
    } else if Fits(g, c, key, op.now) {
      NewEntryHas(g, c, key, op.now);
      var c0 := WithEntry(g, c, key, op.now).1;
      var e, r := c0.entries[key], c0.nextId;
      var e1 := e.(waiters := e.waiters + 1, queue := QueueUpdate(c0.config, e.queue, r, op.now), lastActivity := op.now);
      AdvancedHad(e1, b1);
      UpdatedFrom(g, c, op, key, e, e1, r, b1);
    } else {
      RefusedEntries(g, c, key, op.now);
      SameKeeps(c.entries[key]);
      KeptBefore(g, c, op, key, c.entries[key], b1);
    }
  }

  lemma AdvancedHad(e: Entry, b: Batch)
    requires Has(Advance(e), b)
    ensures Has(e, b)
  {
  }

  lemma UpdatedFrom(g: Global, c: Coalescer, op: Op, key: Key, e: Entry, e1: Entry, r: nat, b1: Batch)
    requires op.OpUpdate? && op.key == key && EnqueueUpdate(g, c, key, op.now).2 == Some(r) && Has(e1, b1)
    requires if key in c.entries then e == c.entries[key] else e.queue == [] && e.Inactive()
    requires e1 == e.(waiters := e.waiters + 1, queue := QueueUpdate(c.config, e.queue, r, op.now), lastActivity := op.now)
    ensures FromBefore(g, c, op, key, b1)
  {
    hide QueueUpdate, EnqueueUpdate;
    QueuedFrom(c.config, e.queue, r, op.now);
    if BatchWork(b1) in e1.queue {
      QueuedUpdate(c.config, e.queue, r, op.now, BatchWork(b1));
    }
    if Has(e, b1) {
      assert Alike(b1, b1);
    } else if e.queue != [] && e.queue[|e.queue| - 1].BatchWork? {
      assert e.queue[|e.queue| - 1] in e.queue;
      assert Has(e, e.queue[|e.queue| - 1].batch);
    }
  }

  /** In every run, the arrivals of a batch are the times at which its first and its last update were accepted. */
  lemma {:induction false} ArrivalsExact(config: Config, turns: seq<Turn>, key: Key, b: Batch)
    requires key in Run(config, turns).entries && Has(Run(config, turns).entries[key], b)
    ensures ArrivedAsTold(config, turns, key, b)
    decreases |turns|
  {
    hide Has, Apply, AcceptedAt, Alike;
    if turns != [] {
      var n := |turns| - 1;
      var before, t := turns[..n], turns[n];
      var c := Run(config, before);
      RunOk(config, before);
      assert Run(config, turns) == Apply(t.global, c, t.op).1 && turns == before + [t];
      StepFrom(t.global, c, t.op, key, b);
      if exists x :: key in c.entries && Has(c.entries[key], x) && Alike(x, b) {
        var x :| key in c.entries && Has(c.entries[key], x) && Alike(x, b);
        ArrivalsExact(config, before, key, x);
        AlikeFields(x, b);
        AcceptedLater(config, before, t, key, b.Members()[0], b.firstArrival);
        AcceptedLater(config, before, t, key, b.request, b.lastArrival);
      } else {
        AcceptedNow(config, before, t, key, b.request, b.lastArrival);
        if !(b.superseded == [] && b.firstArrival == b.lastArrival) {
          var x :| key in c.entries && Has(c.entries[key], x)
                   && b.superseded == x.superseded + [x.request] && b.firstArrival == x.firstArrival;
          ArrivalsExact(config, before, key, x);
          assert b.Members()[0] == x.Members()[0];
          AcceptedLater(config, before, t, key, b.Members()[0], b.firstArrival);
        }
      }
    }
  }

  lemma AlikeFields(x: Batch, b: Batch)
    requires Alike(x, b)
    ensures b.Members()[0] == x.Members()[0] && b.firstArrival == x.firstArrival && b.request == x.request
    ensures b.lastArrival == x.lastArrival
  {
  }

  lemma AcceptedNow(config: Config, turns: seq<Turn>, t: Turn, key: Key, r: nat, now: int)
    requires AcceptedBy(t.global, Run(config, turns), t.op, key, r, now)
    ensures AcceptedAt(config, turns + [t], key, r, now)
  {
    hide AcceptedBy;
    var n := |turns|;
    assert (turns + [t])[..n] == turns && (turns + [t])[n] == t;
  }

  // ---------- what an accepted update joins ----------

  /** An update is accepted exactly while the site takes any, within the limits on keys and waiters of site and process. */
  lemma AcceptedExactly(g: Global, c: Coalescer, key: Key, now: int)
    ensures var takes := (c.state == Open || c.state == Quiescing)
        && (key in c.entries || (0 < c.config.maxSiteKeys && |c.entries| < c.config.maxSiteKeys
                                 && 0 < g.maxActiveKeys && g.activeKeys < g.maxActiveKeys))
        && 0 < c.config.maxWaitersPerKey && (if key in c.entries then c.entries[key].waiters else 0) < c.config.maxWaitersPerKey
        && 0 < g.maxWaiters && g.waiters < g.maxWaiters;
      && (EnqueueUpdate(g, c, key, now).2.Some? <==> takes)
      && (EnqueueBarrier(g, c, key, now).2.Some? <==> takes)
  {
    hide QueueUpdate, QueueBarrier, Store;
  }

  /** What was accepted is one waiter more of its key and of the process; what was refused changes no key and no counter. */
  lemma AcceptedCounts(g: Global, c: Coalescer, key: Key, now: int)
    ensures var (g1, c1, r) := EnqueueUpdate(g, c, key, now);
      && (r.None? ==> c1.entries == c.entries && g1 == g)
      && (r.Some? ==>
            && key in c1.entries && c1.entries[key].waiters == 1 + (if key in c.entries then c.entries[key].waiters else 0)
            && g1.waiters == g.waiters + 1 && g1.activeKeys == g.activeKeys + (if key in c.entries then 0 else 1)
            && forall k :: k != key ==> (k in c1.entries <==> k in c.entries) && (k in c.entries ==> c1.entries[k] == c.entries[k]))
  {
    hide QueueUpdate;
  }

  /**
   An update accepted for a key that only waits joins the batch that waits: it is the
   request that will be sent, the batch keeps its first arrival, and it is due at the end
   of the quiet period that begins now, no later than the longest delay after the first
   arrival; if that is over, it is dispatched at once.
   */
  lemma JoinsWaiting(g: Global, c: Coalescer, key: Key, now: int, r: nat, b: Batch)
    requires Inv(c) && key in c.entries && c.entries[key].Inactive() && EnqueueUpdate(g, c, key, now).2 == Some(r)
    requires BatchWork(b) in c.entries[key].queue
    ensures var c1 := EnqueueUpdate(g, c, key, now).1;
      && key in c1.entries
      && var e := c1.entries[key];
      var due := if now + c.config.debounce < b.firstArrival + c.config.maxDispatchDelay then now + c.config.debounce
                 else b.firstArrival + c.config.maxDispatchDelay;
      if now < due then
        && e.Inactive() && |e.queue| == 1 && e.queue[0].BatchWork?
        && var b1 := e.queue[0].batch;
        && b1.Members() == b.Members() + [r] && b1.request == r && b1.waiters == b.waiters + {r}
        && b1.id == b.id && !b1.ready && b1.timer == Some(due) && b1.timerGeneration > b.timerGeneration
        && b1.firstArrival == b.firstArrival && b1.lastArrival == now
      else
        && e.activeBatch.Some? && e.queue == []
        && var b1 := e.activeBatch.value;
        && b1.Members() == b.Members() + [r] && b1.request == r && b1.waiters == b.waiters + {r} && b1.id == b.id
  {
    hide Inv, Store, EnqueueUpdate;
    NeverStalls(c, key, 0);
    UpdateStores(g, c, key, now, r);
    var e := c.entries[key];
    assert e.queue == [BatchWork(b)];
    assert e.queue[..0] == [];
    var due := Min(now + c.config.debounce, b.firstArrival + c.config.maxDispatchDelay);
    var b0 := b.(superseded := b.superseded + [b.request], request := r, lastArrival := now, waiters := b.waiters + {r});
    var b1 := if due <= now then b0.(ready := true, timer := None)
              else b0.(timerGeneration := b.timerGeneration + 1, timer := Some(due));
    assert QueueUpdate(c.config, e.queue, r, now) == [BatchWork(b1)];
    StoredAlone(WithEntry(g, c, key, now).1.(nextId := r + 1), key, e.(waiters := e.waiters + 1, queue := [BatchWork(b1)], lastActivity := now), [Accept(r)]);
  }

  lemma UpdateStores(g: Global, c: Coalescer, key: Key, now: int, r: nat)
    requires EnqueueUpdate(g, c, key, now).2 == Some(r)
    ensures var c0 := WithEntry(g, c, key, now).1;
      && key in c0.entries && r == c0.nextId && c0.config == c.config
      && EnqueueUpdate(g, c, key, now).1
         == Store(c0.(nextId := r + 1), key,
                  c0.entries[key].(waiters := c0.entries[key].waiters + 1,
                                   queue := QueueUpdate(c.config, c0.entries[key].queue, r, now), lastActivity := now),
                  [Accept(r)])
      && key in EnqueueUpdate(g, c, key, now).1.entries
  {
    hide QueueUpdate, Advance, AdvanceEvents;
  }

  lemma StoredAlone(c: Coalescer, key: Key, e: Entry, es: seq<Event>)
    requires e.Inactive() && |e.queue| == 1 && e.queue[0].BatchWork?
    ensures var e1 := Store(c, key, e, es).entries[key];
      if e.queue[0].batch.ready then e1.activeBatch == Some(e.queue[0].batch) && e1.queue == []
      else e1 == e
  {
  }

  /** An update for a key with nothing to do begins a batch of its own, which waits unless there is nothing to wait for. */
  lemma BeginsBatch(g: Global, c: Coalescer, key: Key, now: int, r: nat)
    requires (key in c.entries ==> !c.entries[key].Busy()) && EnqueueUpdate(g, c, key, now).2 == Some(r)
    ensures var c1 := EnqueueUpdate(g, c, key, now).1;
      && key in c1.entries
      && var e := c1.entries[key];
      var wait := if c.config.debounce < c.config.maxDispatchDelay then c.config.debounce else c.config.maxDispatchDelay;
      if 0 < wait then
        && e.Inactive() && |e.queue| == 1 && e.queue[0].BatchWork?
        && var b1 := e.queue[0].batch;
        && b1.Members() == [r] && b1.waiters == {r} && !b1.ready && b1.timer == Some(now + wait)
        && b1.firstArrival == now && b1.lastArrival == now
      else
        e.activeBatch.Some? && e.queue == [] && e.activeBatch.value.Members() == [r] && e.activeBatch.value.waiters == {r}
  {
    hide Store, WithEntry, EnqueueUpdate;
    NewEntryHas(g, c, key, now);
    UpdateStores(g, c, key, now, r);
    var c0 := WithEntry(g, c, key, now).1;
    var e := c0.entries[key];
    assert e.queue == [] && e.Inactive();
    var due := Min(now + c.config.debounce, now + c.config.maxDispatchDelay);
    var b0 := Batch(r, [], r, {r}, now, now, false, None, 0);
    var b1 := if due <= now then b0.(ready := true) else b0.(timerGeneration := 1, timer := Some(due));
    assert {} + {r} == {r};
    assert QueueUpdate(c.config, e.queue, r, now) == [BatchWork(b1)];
    StoredAlone(c0.(nextId := r + 1), key, e.(waiters := e.waiters + 1, queue := [BatchWork(b1)], lastActivity := now), [Accept(r)]);
  }
}
