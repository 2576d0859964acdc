/** The progress coalescer with its mutable state; every method is one critical section. */
module Progress {
  import opened Wrappers
  import opened ProgressFifo
  import opened ProgressSpec
  import opened ProgressLanes
  import opened ProgressRuns

  /** The process-wide admission counters. */
  class GlobalRuntime {
    var activeKeys: nat
    var waiters: nat
    const maxActiveKeys: int
    const maxWaiters: int

    constructor (maxActiveKeys: int, maxWaiters: int)
      ensures View() == Global(0, 0, maxActiveKeys, maxWaiters)
    {
      activeKeys, waiters := 0, 0;
      this.maxActiveKeys, this.maxWaiters := maxActiveKeys, maxWaiters;
    }

    ghost function View(): Global
      reads this
    {
      Global(activeKeys, waiters, maxActiveKeys, maxWaiters)
    }

    method ReserveKey() returns (ok: bool)
      modifies this`activeKeys
      ensures ok == KeyAvailable(old(View()))
      ensures activeKeys == old(activeKeys) + if ok then 1 else 0
    {
      if maxActiveKeys <= 0 || activeKeys >= maxActiveKeys {
        return false;
      }
      activeKeys := activeKeys + 1;
      return true;
    }

    method ReleaseKey()
      modifies this`activeKeys
      ensures activeKeys == Minus(old(activeKeys), 1)
    {
      if activeKeys > 0 {
        activeKeys := activeKeys - 1;
      }
    }

    method ReserveWaiter() returns (ok: bool)
      modifies this`waiters
      ensures ok == WaiterAvailable(old(View()))
      ensures waiters == old(waiters) + if ok then 1 else 0
    {
      if maxWaiters <= 0 || waiters >= maxWaiters {
        return false;
      }
      waiters := waiters + 1;
      return true;
    }

    method ReleaseWaiter()
      modifies this`waiters
      ensures waiters == Minus(old(waiters), 1)
    {
      if waiters > 0 {
        waiters := waiters - 1;
      }
    }
  }

  class ProgressCoalescer {
    const global: GlobalRuntime
    const config: Config
    var entries: map<Key, Entry>
    var state: Phase
    var drain: Option<DrainCycle>
    var admissions: nat
    var nextId: nat
    ghost var logs: map<Key, seq<Event>>

    constructor (global: GlobalRuntime, config: Config)
      ensures this.global == global && View() == Start0(config) && Valid()
    {
      this.global, this.config := global, config;
      entries, state, drain, admissions, nextId, logs := map[], Open, None, 0, 0, map[];
    }

    ghost function View(): Coalescer
      reads this
    {
      Coalescer(config, entries, state, drain, admissions, nextId, logs)
    }

    ghost predicate Valid()
      reads this
    {
      Inv(View())
    }

    // ---------- helpers that run under the lock ----------

    method ForceQueuedBatches(entry: Entry) returns (forced: Entry)
      ensures forced == ForceEntry(entry)
    {
      var queue := entry.queue;
      var i := 0;
      while i < |queue|
        invariant 0 <= i <= |queue| == |entry.queue|
        invariant forall j :: 0 <= j < |queue| ==> queue[j] == if j < i then ForceWork(entry.queue[j]) else entry.queue[j]
      {
        if queue[i].BatchWork? {
          var batch := queue[i].batch;
          queue := queue[i := BatchWork(batch.(ready := true, timerGeneration := batch.timerGeneration + 1, timer := None))];
        }
        i := i + 1;
      }
      assert queue == ForceQueue(entry.queue);
      forced := entry.(queue := queue);
    }

    /** Writes the entry of key back and starts the head of its queue if nothing is active. */
    method AdvanceEntry(key: Key, entry: Entry, ghost es: seq<Event>)
      requires key in entries && key in logs
      modifies this`entries, this`logs
      ensures View() == Store(old(View()), key, entry, es)
    {
      logs := logs[key := logs[key] + es + AdvanceEvents(entry)];
      if entry.activeBatch.Some? || entry.activeBarrier.Some? || |entry.queue| == 0 {
        entries := entries[key := entry];
        return;
      }
      var work := entry.queue[0];
      if work.BatchWork? && !work.batch.ready {
        entries := entries[key := entry];
        return;
      }
      if work.BatchWork? {
        entries := entries[key := entry.(queue := entry.queue[1..], activeBatch := Some(work.batch))];
      } else {
        entries := entries[key := entry.(queue := entry.queue[1..], activeBarrier := Some(work.barrier))];
      }
    }

    method ReleaseWaiter(entry: Entry) returns (released: Entry)
      modifies global`waiters
      ensures (global.View(), released) == ReleaseWaiters(old(global.View()), entry, 1)
    {
      released := entry;
      if entry.waiters > 0 {
        released := entry.(waiters := entry.waiters - 1);
        global.ReleaseWaiter();
      }
    }

    method CompleteDrain()
      modifies this`drain, this`state
      ensures View() == ProgressSpec.CompleteDrain(old(View()))
    {
      if state != Draining || drain.None? || admissions != 0 {
        return;
      }
      var rest := entries.Keys;
      while rest != {}
        invariant rest <= entries.Keys
        invariant forall key :: key in entries && key !in rest ==> !entries[key].Busy()
      {
        var key :| key in rest;
        if entries[key].activeBatch.Some? || entries[key].activeBarrier.Some? || |entries[key].queue| != 0 {
          assert entries[key].Busy();
          return;
        }
        rest := rest - {key};
      }
      state := if drain.value.failed then Open else Drained;
      drain := None;
    }

    method ReleaseQueue(key: Key)
      requires key in entries && key in logs
      modifies this`entries, this`logs
      ensures entries == old(entries)[key := Advance(ForceEntry(old(entries)[key]))]
      ensures logs == old(logs)[key := old(logs)[key] + AdvanceEvents(ForceEntry(old(entries)[key]))]
    {
      hide Advance, AdvanceEvents, ForceEntry;
      var entry := ForceQueuedBatches(entries[key]);
      AdvanceEntry(key, entry, []);
      assert old(logs)[key] + [] == old(logs)[key];
    }

    method ReleaseQueues()
      requires Covered()
      modifies this`entries, this`logs, this`state
      ensures View() == ProgressSpec.ReleaseQueues(old(View()))
    {
      hide Advance, AdvanceEvents, ForceEntry;
      state := Draining;
      ReleaseEveryQueue();
      ghost var want := ProgressSpec.ReleaseQueues(old(View()));
      forall key | key in logs && key !in entries ensures logs[key] == want.logs[key] {
        assert logs[key] + [] == logs[key];
      }
      assert entries == want.entries && logs == want.logs;
    }

    method ReleaseEveryQueue()
      requires Covered()
      modifies this`entries, this`logs
      ensures entries == map key | key in old(entries) :: Advance(ForceEntry(old(entries)[key]))
      ensures logs == map key | key in old(logs) ::
                        if key in old(entries) then old(logs)[key] + AdvanceEvents(ForceEntry(old(entries)[key])) else old(logs)[key]
    {
      hide Advance, AdvanceEvents, ForceEntry;
      var rest := entries.Keys;
      while rest != {}
        invariant rest <= old(entries).Keys && entries.Keys == old(entries).Keys && logs.Keys == old(logs).Keys
        invariant forall key :: key in entries ==>
                    entries[key] == if key in rest then old(entries)[key] else Advance(ForceEntry(old(entries)[key]))
        invariant forall key :: key in logs ==>
                    logs[key] == if key in rest || key !in entries then old(logs)[key]
                                 else old(logs)[key] + AdvanceEvents(ForceEntry(old(entries)[key]))
      {
        var key :| key in rest;
        ReleaseQueue(key);
        rest := rest - {key};
      }
    }

    method AdvanceDrain()
      requires Covered()
      modifies this`entries, this`logs, this`drain, this`state
      ensures View() == ProgressSpec.AdvanceDrain(old(View()))
    {
      hide ProgressSpec.ReleaseQueues, ProgressSpec.CompleteDrain;
      if state != Quiescing || drain.None? || admissions != 0 {
        return;
      }
      ReleaseQueues();
      CompleteDrain();
    }

    method GetOrCreateEntry(key: Key, now: int) returns (ok: bool, created: bool)
      requires entries.Keys <= logs.Keys
      modifies this`entries, this`logs, this`nextId, global`activeKeys
      ensures ok == KeyFits(old(global.View()), old(View()), key)
      ensures created == (ok && key !in old(entries))
      ensures if ok then (global.View(), View()) == WithEntry(old(global.View()), old(View()), key, now)
              else global.View() == old(global.View()) && View() == old(View())
    {
      if key in entries {
        return true, false;
      }
      if config.maxSiteKeys <= 0 || |entries| >= config.maxSiteKeys {
        return false, false;
      }
      var reserved := global.ReserveKey();
      if !reserved {
        return false, false;
      }
      entries := entries[key := Entry(nextId, [], None, None, 0, now)];
      logs := logs[key := View().Log(key)];
      nextId := nextId + 1;
      return true, true;
    }

    method ReserveWaiter(entry: Entry) returns (ok: bool, reserved: Entry)
      modifies global`waiters
      ensures ok == WaiterFits(old(global.View()), View(), entry)
      ensures reserved == if ok then entry.(waiters := entry.waiters + 1) else entry
      ensures global.View() == old(global.View()).(waiters := old(global.waiters) + if ok then 1 else 0)
    {
      reserved := entry;
      if config.maxWaitersPerKey <= 0 || entry.waiters >= config.maxWaitersPerKey {
        return false, entry;
      }
      ok := global.ReserveWaiter();
      if ok {
        reserved := entry.(waiters := entry.waiters + 1);
      }
    }

    /** Finds or makes the entry of key and reserves a waiter in it, or changes nothing that lasts. */
    method Admit(key: Key, now: int) returns (ok: bool, entry: Entry)
      requires Covered()
      modifies this`entries, this`logs, this`nextId, global
      ensures ok == Fits(old(global.View()), old(View()), key, now)
      ensures ok ==>
                var (g1, c1) := WithEntry(old(global.View()), old(View()), key, now);
                && (global.View(), View()) == (g1.(waiters := g1.waiters + 1), c1)
                && entry == c1.entries[key].(waiters := c1.entries[key].waiters + 1)
      ensures !ok ==> (global.View(), View()) == Refuse(old(global.View()), old(View()), key, now)
    {
      entry := Entry(0, [], None, None, 0, now);
      if state != Open && state != Quiescing {
        return false, entry;
      }
      var found, created := GetOrCreateEntry(key, now);
      if !found {
        return false, entry;
      }
      ok, entry := ReserveWaiter(entries[key]);
      if !ok && created {
        entries := entries - {key};
        assert entries == old(entries);
        global.ReleaseKey();
      }
    }

    ghost predicate Covered()
      reads this
    {
      entries.Keys <= logs.Keys
    }

    lemma LogsCover()
      requires Valid()
      ensures Covered()
    {
    }

    // ---------- critical sections ----------

    method BeginProgressIngress() returns (ok: bool)
      requires Valid()
      modifies this`admissions
      ensures (View(), ok) == BeginIngress(old(View())) && Valid()
    {
      hide Inv;
      if state != Open {
        return false;
      }
      admissions := admissions + 1;
      assert Valid() by { ApplyOk(global.View(), old(View()), OpBeginIngress); }
      return true;
    }

    method EndProgressIngress()
      requires Valid()
      modifies this
      ensures View() == EndIngress(old(View())) && Valid()
    {
      hide Inv, ProgressSpec.AdvanceDrain;
      LogsCover();
      if admissions > 0 {
        admissions := admissions - 1;
      }
      AdvanceDrain();
      assert Valid() by { ApplyOk(global.View(), old(View()), OpEndIngress); }
    }

    method CleanupIdle(now: int)
      requires Valid()
      modifies this, global
      ensures (global.View(), View()) == ProgressSpec.CleanupIdle(old(global.View()), old(View()), now) && Valid()
    {
      hide Inv;
      if config.idleExpiry <= 0 {
        return;
      }
      ghost var gone := set key | key in entries && ProgressSpec.Idle(View(), entries[key], now);
      RemoveEntries(gone, now);
      assert Valid() by { ApplyOk(old(global.View()), old(View()), OpCleanup(now)); }
    }

    predicate OldEnough(entry: Entry, now: int) {
      !entry.Busy() && entry.waiters == 0 && now - entry.lastActivity >= config.idleExpiry
    }

    method RemoveIfOld(key: Key, now: int) returns (old_: bool)
      requires key in entries
      modifies this`entries, global`activeKeys
      ensures old_ == OldEnough(old(entries)[key], now)
      ensures entries == if old_ then old(entries) - {key} else old(entries)
      ensures global.activeKeys == Minus(old(global.activeKeys), if old_ then 1 else 0)
    {
      var entry := entries[key];
      if entry.activeBatch.Some? || entry.activeBarrier.Some? || |entry.queue| != 0 || entry.waiters != 0 {
        return false;
      }
      if now - entry.lastActivity < config.idleExpiry {
        return false;
      }
      entries := entries - {key};
      global.ReleaseKey();
      return true;
    }

    lemma OneVisited(m: map<Key, Entry>, gone: set<Key>, rest: set<Key>, key: Key)
      requires key in rest
      ensures key in gone ==> m - (gone - rest) - {key} == m - (gone - (rest - {key}))
      ensures key in gone ==> |gone - (rest - {key})| == |gone - rest| + 1
      ensures key !in gone ==> gone - (rest - {key}) == gone - rest
    {
      if key in gone {
        assert gone - (rest - {key}) == (gone - rest) + {key};
      }
    }

    method RemoveEntries(ghost gone: set<Key>, now: int)
      requires forall key :: key in gone <==> key in entries && OldEnough(entries[key], now)
      modifies this`entries, global`activeKeys
      ensures entries == old(entries) - gone
      ensures global.activeKeys == Minus(old(global.activeKeys), |gone|)
    {
      hide OldEnough;
      var rest := entries.Keys;
      while rest != {}
        invariant rest <= old(entries).Keys && entries == old(entries) - (gone - rest)
        invariant global.activeKeys == Minus(old(global.activeKeys), |gone - rest|)
      {
        var key :| key in rest;
        OneVisited(old(entries), gone, rest, key);
        var old_ := RemoveIfOld(key, now);
        rest := rest - {key};
      }
      assert gone - rest == gone;
    }

    /** The update joins the batch at the end of the queue, or a new one behind a barrier. */
    method PutInLastBatch(queue: seq<Work>, r: nat, now: int) returns (result: seq<Work>)
      ensures result == QueueUpdate(config, queue, r, now)
    {
      if |queue| > 0 && queue[|queue| - 1].BatchWork? {
        var batch := queue[|queue| - 1].batch;
        batch := batch.(superseded := batch.superseded + [batch.request], request := r, lastArrival := now);
        batch := ScheduleBatch(config, batch.(waiters := batch.waiters + {r}), now);
        result := queue[..|queue| - 1] + [BatchWork(batch)];
      } else {
        var batch := Batch(r, [], r, {}, now, now, false, None, 0);
        batch := ScheduleBatch(config, batch.(waiters := batch.waiters + {r}), now);
        result := queue + [BatchWork(batch)];
      }
    }

    method EnqueueUpdate(key: Key, now: int) returns (waiter: Option<nat>)
      requires Valid()
      modifies this, global
      ensures (global.View(), View(), waiter) == ProgressSpec.EnqueueUpdate(old(global.View()), old(View()), key, now) && Valid()
    {
      hide Inv, Store, QueueUpdate, Fits, Refuse;
      LogsCover();
      var ok, entry := Admit(key, now);
      waiter := None;
      if ok {
        var r := nextId;
        nextId := nextId + 1;
        var queue := PutInLastBatch(entry.queue, r, now);
        AdvanceEntry(key, entry.(queue := queue, lastActivity := now), [Accept(r)]);
        waiter := Some(r);
      }
      assert Valid() by { ApplyOk(old(global.View()), old(View()), OpUpdate(key, now)); }
    }

    method EnqueueBarrier(key: Key, now: int) returns (barrier: Option<nat>)
      requires Valid()
      modifies this, global
      ensures (global.View(), View(), barrier) == ProgressSpec.EnqueueBarrier(old(global.View()), old(View()), key, now) && Valid()
    {
      hide Inv, Store, ForceQueue, Fits, Refuse;
      LogsCover();
      var ok, entry := Admit(key, now);
      barrier := None;
      if ok {
        var b := nextId;
        nextId := nextId + 1;
        entry := ForceQueuedBatches(entry);
        AdvanceEntry(key, entry.(queue := entry.queue + [BarrierWork(b)], lastActivity := now), [Stop(b)]);
        barrier := Some(b);
      }
      assert Valid() by { ApplyOk(old(global.View()), old(View()), OpStop(key, now)); }
    }

    /** Finds the batch a timer belongs to and makes it ready, unless the timer is stale. */
    method MarkQueued(queue: seq<Work>, batchId: nat, generation: nat) returns (marked: seq<Work>)
      ensures marked == MarkReady(queue, batchId, generation)
    {
      var i := 0;
      while i < |queue| && !(queue[i].BatchWork? && queue[i].batch.id == batchId)
        invariant 0 <= i <= |queue|
        invariant MarkReady(queue, batchId, generation) == queue[..i] + MarkReady(queue[i..], batchId, generation)
      {
        assert queue[i..][1..] == queue[i + 1..];
        i := i + 1;
      }
      if i == |queue| || queue[i].batch.timerGeneration != generation || queue[i].batch.ready {
        assert queue[..i] + queue[i..] == queue;
        return queue;
      }
      marked := queue[i := BatchWork(queue[i].batch.(ready := true, timer := None))];
      assert marked == queue[..i] + ([BatchWork(queue[i].batch.(ready := true, timer := None))] + queue[i..][1..]);
    }

    /** The callback of a batch timer. */
    method MarkBatchReady(key: Key, entryId: nat, batchId: nat, generation: nat)
      requires Valid()
      modifies this
      ensures View() == ProgressSpec.MarkBatchReady(old(View()), key, entryId, batchId, generation) && Valid()
    {
      hide Inv, Store, MarkReady;
      LogsCover();
      if key !in entries || entries[key].id != entryId || state == Closed {
        return;
      }
      var queue := MarkQueued(entries[key].queue, batchId, generation);
      if queue != entries[key].queue {
        AdvanceEntry(key, entries[key].(queue := queue), []);
      }
      assert Valid() by { ApplyOk(global.View(), old(View()), OpTimer(key, entryId, batchId, generation)); }
    }

    /** Every client of the batch that still waits is told, and stops counting as a waiter. */
    method TellWaiters(entry: Entry, batch: Batch) returns (told: Entry)
      modifies global`waiters
      ensures (global.View(), told) == ReleaseWaiters(old(global.View()), entry, |batch.waiters|)
    {
      told := entry;
      ghost var n := 0;
      var rest := batch.waiters;
      while rest != {}
        invariant rest <= batch.waiters && n + |rest| == |batch.waiters|
        invariant (global.View(), told) == ReleaseWaiters(old(global.View()), entry, n)
      {
        var waiter :| waiter in rest;
        told := ReleaseWaiter(told);
        rest := rest - {waiter};
        n := n + 1;
      }
    }

    /** The end of a dispatch, successful or not. */
    method FinishDispatch(key: Key, entryId: nat, batchId: nat, failed: bool, now: int)
      requires Valid()
      modifies this, global
      ensures (global.View(), View()) == ProgressSpec.FinishDispatch(old(global.View()), old(View()), key, entryId, batchId, failed, now) && Valid()
    {
      hide Inv, Store, ForceQueue, ReleaseWaiters, ProgressSpec.CompleteDrain;
      LogsCover();
      if key !in entries || entries[key].id != entryId || entries[key].activeBatch.None? || entries[key].activeBatch.value.id != batchId {
        return;
      }
      var batch := entries[key].activeBatch.value;
      if failed && drain.Some? && (state == Quiescing || state == Draining) {
        drain := Some(drain.value.(failed := true));
      }
      var entry := TellWaiters(entries[key].(activeBatch := None, lastActivity := now), batch);
      if state == Draining {
        entry := ForceQueuedBatches(entry);
      }
      AdvanceEntry(key, entry, [Finish(batch.Members(), batch.waiters)]);
      CompleteDrain();
      assert Valid() by { ApplyOk(old(global.View()), old(View()), OpFinish(key, entryId, batchId, failed, now)); }
    }

    /** The client of update r stops waiting while its waiter is active. */
    method LeaveWaiter(key: Key, entryId: nat, r: nat, now: int)
      requires Valid()
      modifies this, global
      ensures (global.View(), View()) == ProgressSpec.LeaveWaiter(old(global.View()), old(View()), key, entryId, r, now) && Valid()
    {
      hide Inv, DropWaiter, ReleaseWaiters;
      LogsCover();
      if key !in entries || entries[key].id != entryId || !(ActiveWaits(entries[key], r) || QueueWaits(entries[key].queue, r)) {
        return;
      }
      var entry := ReleaseWaiter(DropWaiter(entries[key], r));
      entries := entries[key := entry.(lastActivity := now)];
      logs := logs[key := logs[key] + [Leave(r)]];
      assert Valid() by { ApplyOk(old(global.View()), old(View()), OpLeave(key, entryId, r, now)); }
    }

    method RemoveQueuedBarrier(queue: seq<Work>, barrier: nat) returns (rest: seq<Work>, found: bool)
      ensures found == (BarrierWork(barrier) in queue)
      ensures rest == RemoveBarrier(queue, barrier)
    {
      var i := 0;
      while i < |queue| && queue[i] != BarrierWork(barrier)
        invariant 0 <= i <= |queue|
        invariant BarrierWork(barrier) !in queue[..i]
        invariant RemoveBarrier(queue, barrier) == queue[..i] + RemoveBarrier(queue[i..], barrier)
      {
        assert queue[i..][1..] == queue[i + 1..];
        i := i + 1;
      }
      if i == |queue| {
        assert queue[..i] == queue;
        return queue, false;
      }
      assert queue[i..][1..] == queue[i + 1..];
      return queue[..i] + queue[i + 1..], true;
    }

    /** The client of a barrier stops waiting; true when the barrier was granted first. */
    method CancelBarrier(key: Key, entryId: nat, barrier: nat, now: int) returns (granted: bool)
      requires Valid()
      modifies this, global
      ensures (global.View(), View(), granted) == ProgressSpec.CancelBarrier(old(global.View()), old(View()), key, entryId, barrier, now) && Valid()
    {
      hide Inv, Store, RemoveBarrier, ReleaseWaiters, ProgressSpec.CompleteDrain;
      LogsCover();
      if key !in entries || entries[key].id != entryId {
        return false;
      }
      if entries[key].activeBarrier == Some(barrier) {
        return true;
      }
      var queue, found := RemoveQueuedBarrier(entries[key].queue, barrier);
      if found {
        var entry := ReleaseWaiter(entries[key].(queue := queue));
        AdvanceEntry(key, entry.(lastActivity := now), [Withdraw(barrier)]);
        CompleteDrain();
        assert Valid() by { ApplyOk(old(global.View()), old(View()), OpCancelBarrier(key, entryId, barrier, now)); }
      }
      return false;
    }

    method ReleaseBarrier(key: Key, entryId: nat, barrier: nat, now: int)
      requires Valid()
      modifies this, global
      ensures (global.View(), View()) == ProgressSpec.ReleaseBarrier(old(global.View()), old(View()), key, entryId, barrier, now) && Valid()
    {
      hide Inv, Store, ForceQueue, ReleaseWaiters, ProgressSpec.CompleteDrain;
      LogsCover();
      if key !in entries || entries[key].id != entryId || entries[key].activeBarrier != Some(barrier) {
        return;
      }
      var entry := ReleaseWaiter(entries[key].(activeBarrier := None));
      entry := entry.(lastActivity := now);
      if state == Draining {
        entry := ForceQueuedBatches(entry);
      }
      AdvanceEntry(key, entry, [Release(barrier)]);
      CompleteDrain();
      assert Valid() by { ApplyOk(old(global.View()), old(View()), OpReleaseBarrier(key, entryId, barrier, now)); }
    }

    method BeginDrain()
      requires Valid()
      modifies this
      ensures View() == ProgressSpec.BeginDrain(old(View())) && Valid()
    {
      hide Inv, ProgressSpec.AdvanceDrain;
      if state != Open {
        return;
      }
      LogsCover();
      drain := Some(DrainCycle(nextId, false));
      nextId := nextId + 1;
      state := Quiescing;
      AdvanceDrain();
      assert Valid() by { ApplyOk(global.View(), old(View()), OpBeginDrain); }
    }

    method AbandonDrain(cycle: nat)
      requires Valid()
      modifies this
      ensures View() == ProgressSpec.AbandonDrain(old(View()), cycle) && Valid()
    {
      hide Inv;
      if (state == Quiescing || state == Draining) && drain.Some? && drain.value.id == cycle {
        state := Open;
        drain := None;
      }
      assert Valid() by { ApplyOk(global.View(), old(View()), OpAbandonDrain(cycle)); }
    }

    method Close()
      requires Valid()
      modifies this, global
      ensures (global.View(), View()) == ProgressSpec.Close(old(global.View()), old(View())) && Valid()
    {
      hide Inv;
      if state == Closed {
        return;
      }
      state := Closed;
      RemoveAllEntries();
      assert Valid() by { ApplyOk(old(global.View()), old(View()), OpClose); }
    }

    method RemoveAllEntries()
      modifies this`entries, global`activeKeys
      ensures View() == old(View()).(entries := map[])
      ensures global.View() == ReleaseKeys(old(global.View()), |old(entries)|)
    {
      ghost var released := 0;
      while entries.Keys != {}
        invariant released + |entries| == |old(entries)|
        invariant global.View() == ReleaseKeys(old(global.View()), released)
        decreases |entries|
      {
        var key :| key in entries.Keys;
        assert |entries.Keys - {key}| == |entries.Keys| - 1;
        assert (entries - {key}).Keys == entries.Keys - {key};
        entries := entries - {key};
        global.ReleaseKey();
        released := released + 1;
      }
      assert entries == map[];
    }
  }
}
