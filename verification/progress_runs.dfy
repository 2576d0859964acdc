/** What holds of the coalescer of one site in every run. */
module ProgressRuns {
  import opened Wrappers
  import opened ProgressFifo
  import opened ProgressSpec
  import opened ProgressLanes

  // ---------- the invariant ----------

  ghost predicate Quiet(f: Fifo) {
    f.pending == [] && f.serving.Idle?
  }

  /** The log of a key follows the discipline and describes the key's live entry, if it has one. */
  ghost predicate KeyOk(config: Config, nextId: nat, closed: bool, entry: Option<Entry>, log: seq<Event>) {
    && Follows(log)
    && State(log).next <= nextId
    && (entry.Some? ==> LaneOk(config, entry.value, State(log)))
    && (entry.None? && !closed ==> Quiet(State(log)))
  }

  function EntryOf(c: Coalescer, key: Key): Option<Entry> {
    if key in c.entries then Some(c.entries[key]) else None
  }

  ghost predicate KeysOk(c: Coalescer) {
    && c.entries.Keys <= c.logs.Keys
    && forall key :: key in c.logs ==> KeyOk(c.config, c.nextId, c.state == Closed, EntryOf(c, key), c.logs[key])
  }

  ghost predicate AllQuiet(c: Coalescer) {
    forall key :: key in c.entries ==> !c.entries[key].Busy()
  }

  ghost predicate AllForced(c: Coalescer) {
    forall key :: key in c.entries ==> AllReady(c.entries[key].queue)
  }

  /** The phases, up to a drain that is due to end. */
  ghost predicate PhaseAlmost(c: Coalescer) {
    match c.state
    case Open => c.drain.None?
    case Quiescing => c.drain.Some? && c.admissions > 0
    case Draining => c.drain.Some? && c.admissions == 0 && AllForced(c)
    case Drained => c.drain.None? && c.admissions == 0 && AllQuiet(c)
    case Closed => c.entries == map[]
  }

  ghost predicate Inv(c: Coalescer) {
    && KeysOk(c)
    && PhaseAlmost(c)
    && (c.state == Draining ==> !AllQuiet(c))
  }

  lemma CompleteDrainOk(c: Coalescer)
    requires KeysOk(c) && PhaseAlmost(c)
    ensures Inv(CompleteDrain(c))
  {
  }

  // ---------- every critical section keeps it ----------

  /** The live entry of a key is described by the state its log leads to. */
  lemma Lane(c: Coalescer, key: Key)
    requires KeysOk(c) && key in c.entries
    ensures var f := State(c.logs[key]);
            Follows(c.logs[key]) && c.Log(key) == c.logs[key] && LaneOk(c.config, c.entries[key], f) && Ordered(f) && f.next <= c.nextId
  {
    assert KeyOk(c.config, c.nextId, c.state == Closed, EntryOf(c, key), c.logs[key]);
    StateOrdered(c.logs[key]);
  }

  /** Replacing one entry, with events its discipline allows, keeps every key in order. */
  lemma ReplaceOk(c: Coalescer, key: Key, e: Entry, es: seq<Event>)
    requires KeysOk(c) && key in c.entries && c.state != Closed
    requires AllowedAll(State(c.logs[key]), es) && LaneOk(c.config, e, AfterAll(State(c.logs[key]), es))
    requires AfterAll(State(c.logs[key]), es).next <= c.nextId
    ensures KeysOk(c.(entries := c.entries[key := e], logs := c.logs[key := c.Log(key) + es]))
  {
    ExtendAll(c.logs[key], es);
    var c1 := c.(entries := c.entries[key := e], logs := c.logs[key := c.Log(key) + es]);
    forall k | k in c1.logs ensures KeyOk(c1.config, c1.nextId, false, EntryOf(c1, k), c1.logs[k]) {
      if k != key {
        assert EntryOf(c1, k) == EntryOf(c, k) && c1.logs[k] == c.logs[k];
        assert KeyOk(c.config, c.nextId, c.state == Closed, EntryOf(c, k), c.logs[k]);
      }
    }
  }

  lemma AdvanceNext(f: Fifo, e: Entry)
    requires AllowedAll(f, AdvanceEvents(e))
    ensures AfterAll(f, AdvanceEvents(e)).next == f.next && AfterAll(f, AdvanceEvents(e)).left == f.left
  {
  }

  /** Store after event x of the lane. */
  lemma StoreOk(c: Coalescer, key: Key, e: Entry, x: Event)
    requires KeysOk(c) && key in c.entries && c.state != Closed
    requires var f := State(c.logs[key]);
             Allowed(f, x) && LaneAlmost(c.config, e, After(f, x)) && After(f, x).next <= c.nextId
    ensures KeysOk(Store(c, key, e, [x]))
    ensures AllReady(e.queue) ==> AllReady(Advance(e).queue)
  {
    var f := State(c.logs[key]);
    StepOk(c.config, f, x, e);
    AdvanceOk(c.config, e, After(f, x));
    ThenAll(f, x, AdvanceEvents(e));
    AdvanceNext(After(f, x), e);
    ReplaceOk(c, key, Advance(e), [x] + AdvanceEvents(e));
    assert c.Log(key) + ([x] + AdvanceEvents(e)) == c.Log(key) + [x] + AdvanceEvents(e);
  }

  lemma StoreNothingOk(c: Coalescer, key: Key, e: Entry)
    requires KeysOk(c) && key in c.entries && c.state != Closed
    requires LaneAlmost(c.config, e, State(c.logs[key]))
    ensures KeysOk(Store(c, key, e, []))
  {
    Lane(c, key);
    var f := State(c.logs[key]);
    AdvanceOk(c.config, e, f);
    AdvanceNext(f, e);
    ReplaceOk(c, key, Advance(e), AdvanceEvents(e));
    assert c.Log(key) + [] + AdvanceEvents(e) == c.Log(key) + AdvanceEvents(e);
  }

  lemma ReleaseQueuesOk(c: Coalescer)
    requires KeysOk(c) && c.state == Quiescing
    ensures KeysOk(ReleaseQueues(c)) && AllForced(ReleaseQueues(c))
  {
    var c1 := ReleaseQueues(c);
    forall key | key in c1.logs ensures KeyOk(c1.config, c1.nextId, false, EntryOf(c1, key), c1.logs[key]) {
      assert KeyOk(c.config, c.nextId, false, EntryOf(c, key), c.logs[key]);
      if key in c.entries {
        ForcedEntryOk(c, key);
      } else {
        assert c1.logs[key] == c.logs[key];
      }
    }
    forall key | key in c1.entries ensures AllReady(c1.entries[key].queue) {
      ForcedEntryOk(c, key);
    }
  }

  lemma ForcedEntryOk(c: Coalescer, key: Key)
    requires KeysOk(c) && key in c.entries
    ensures var e := ForceEntry(c.entries[key]);
            && AllReady(Advance(e).queue)
            && KeyOk(c.config, c.nextId, false, Some(Advance(e)), c.Log(key) + AdvanceEvents(e))
  {
    Lane(c, key);
    var f, e := State(c.logs[key]), ForceEntry(c.entries[key]);
    ForcedLane(c.config, c.entries[key], f);
    AdvanceOk(c.config, e, f);
    AdvanceNext(f, e);
    ExtendAll(c.logs[key], AdvanceEvents(e));
  }

  lemma AdvanceDrainOk(c: Coalescer)
    requires KeysOk(c) && ((c.state == Quiescing && c.drain.Some?) || Inv(c))
    ensures Inv(AdvanceDrain(c))
  {
    if c.state == Quiescing && c.admissions == 0 && c.drain.Some? {
      ReleaseQueuesOk(c);
      CompleteDrainOk(ReleaseQueues(c));
    }
  }

  /** Keys are not affected by a change of phase among the open phases, nor by counters growing. */
  lemma SameKeys(c: Coalescer, c1: Coalescer)
    requires KeysOk(c) && c.state != Closed && c1.state != Closed
    requires c1.config == c.config && c1.entries == c.entries && c1.logs == c.logs && c.nextId <= c1.nextId
    ensures KeysOk(c1)
  {
    forall key | key in c1.logs ensures KeyOk(c1.config, c1.nextId, false, EntryOf(c1, key), c1.logs[key]) {
      assert KeyOk(c.config, c.nextId, false, EntryOf(c, key), c.logs[key]);
    }
  }

  lemma NewLogOk(c: Coalescer, key: Key)
    requires KeysOk(c) && c.state != Closed
    ensures KeysOk(c.(logs := c.logs[key := c.Log(key)], nextId := c.nextId + 1))
  {
    var c1 := c.(logs := c.logs[key := c.Log(key)], nextId := c.nextId + 1);
    forall k | k in c1.logs ensures KeyOk(c1.config, c1.nextId, false, EntryOf(c1, k), c1.logs[k]) {
      if k in c.logs {
        assert c1.logs[k] == c.logs[k] && EntryOf(c1, k) == EntryOf(c, k);
        assert KeyOk(c.config, c.nextId, false, EntryOf(c, k), c.logs[k]);
      } else {
        assert c1.logs[k] == [];
      }
    }
  }

  lemma NewEntryOk(c: Coalescer, key: Key, id: nat, now: int)
    requires KeysOk(c) && c.state != Closed && key in c.logs && key !in c.entries
    ensures KeysOk(c.(entries := c.entries[key := Entry(id, [], None, None, 0, now)]))
  {
    var c1 := c.(entries := c.entries[key := Entry(id, [], None, None, 0, now)]);
    forall k | k in c1.logs ensures KeyOk(c1.config, c1.nextId, false, EntryOf(c1, k), c1.logs[k]) {
      assert KeyOk(c.config, c.nextId, false, EntryOf(c, k), c.logs[k]);
    }
  }

  lemma WithEntryOk(g: Global, c: Coalescer, key: Key, now: int)
    requires Inv(c) && Admits(c)
    ensures var c1 := WithEntry(g, c, key, now).1;
            Inv(c1) && key in c1.entries && Inv(c1.(entries := c.entries)) && c1.state == c.state && c1.config == c.config
  {
    hide KeyOk;
    if key !in c.entries {
      NewLogOk(c, key);
      NewEntryOk(c.(logs := c.logs[key := c.Log(key)], nextId := c.nextId + 1), key, c.nextId, now);
    }
  }

  lemma RefuseOk(g: Global, c: Coalescer, key: Key, now: int)
    requires Inv(c)
    ensures Inv(Refuse(g, c, key, now).1)
  {
    hide Inv;
    if Admits(c) {
      WithEntryOk(g, c, key, now);
    }
  }

  /** An accepted request that takes the next number is put into the entry of its key. */
  lemma StoreAcceptedOk(c: Coalescer, key: Key, e: Entry, x: Event)
    requires Inv(c) && Admits(c) && key in c.entries && Arrival(x) && ArrivalId(x) == c.nextId
    requires var f := State(c.logs[key]);
             Allowed(f, x) && LaneAlmost(c.config, e, After(f, x)) && After(f, x).next == c.nextId + 1
    ensures Inv(Store(c.(nextId := c.nextId + 1), key, e, [x]))
  {
    hide Ordered, Follows, State, LaneOk, LaneAlmost, Allowed, After, KeyOk, Advance, AdvanceEvents;
    SameKeys(c, c.(nextId := c.nextId + 1));
    StoreOk(c.(nextId := c.nextId + 1), key, e, x);
  }

  lemma LaneOf(c: Coalescer, key: Key)
    requires Inv(c) && key in c.entries
    ensures key in c.logs && Follows(c.logs[key]) && Ordered(State(c.logs[key])) && State(c.logs[key]).next <= c.nextId
    ensures LaneOk(c.config, c.entries[key], State(c.logs[key]))
  {
    Lane(c, key);
  }

  lemma UpdateOk(g: Global, c: Coalescer, key: Key, now: int)
    requires Inv(c)
    ensures Inv(EnqueueUpdate(g, c, key, now).1)
  {
    RefuseOk(g, c, key, now);
    if Fits(g, c, key, now) {
      WithEntryOk(g, c, key, now);
      var c1 := WithEntry(g, c, key, now).1;
      var e, r := c1.entries[key], c1.nextId;
      Lane(c1, key);
      hide QueueUpdate, Ordered, Follows, State, LaneOk, LaneAlmost, Allowed, After, Store, Inv, WithEntry;
      AcceptOk(c.config, e, State(c1.logs[key]), r, now);
      var e1 := e.(waiters := e.waiters + 1, queue := QueueUpdate(c.config, e.queue, r, now), lastActivity := now);
      StoreAcceptedOk(c1, key, e1, Accept(r));
    }
  }

  lemma BarrierOk(g: Global, c: Coalescer, key: Key, now: int)
    requires Inv(c)
    ensures Inv(EnqueueBarrier(g, c, key, now).1)
  {
    hide QueueBarrier, Ordered, Follows, State, LaneOk, LaneAlmost, Allowed, After, Store, Inv, WithEntry, Refuse;
    RefuseOk(g, c, key, now);
    if Fits(g, c, key, now) {
      WithEntryOk(g, c, key, now);
      var c1 := WithEntry(g, c, key, now).1;
      var e, b := c1.entries[key], c1.nextId;
      LaneOf(c1, key);
      StopOk(c.config, e, State(c1.logs[key]), b, now);
      var e1 := e.(waiters := e.waiters + 1, queue := QueueBarrier(e.queue, b), lastActivity := now);
      StoreAcceptedOk(c1, key, e1, Stop(b));
    }
  }

  lemma NotClosed(c: Coalescer, key: Key)
    requires Inv(c) && key in c.entries
    ensures c.state != Closed
  {
  }

  lemma TimerOk(c: Coalescer, key: Key, entryId: nat, batchId: nat, generation: nat)
    requires Inv(c)
    ensures Inv(MarkBatchReady(c, key, entryId, batchId, generation))
  {
    if c.Holds(key, entryId) && c.state != Closed {
      Lane(c, key);
      var e, f := c.entries[key], State(c.logs[key]);
      MarkReadySame(c.config, e.queue, batchId, generation, f.left);
      var queue := MarkReady(e.queue, batchId, generation);
      if queue != e.queue {
        StoreNothingOk(c, key, e.(queue := queue));
      }
    }
  }

  /** A lane that ends its work keeps the phase, whether or not that ends the drain. */
  lemma CompletionOk(c: Coalescer, c1: Coalescer, key: Key, e: Entry, x: Event)
    requires Inv(c) && key in c.entries && c.state != Drained
    requires c1 == c || (c.drain.Some? && c1 == c.(drain := c1.drain) && c1.drain.Some?)
    requires var f := State(c.logs[key]);
             Allowed(f, x) && LaneAlmost(c.config, e, After(f, x)) && After(f, x).next <= c.nextId
    requires c.state == Draining ==> AllReady(e.queue)
    ensures Inv(CompleteDrain(Store(c1, key, e, [x])))
  {
    SameKeys(c, c1);
    StoreOk(c1, key, e, x);
    CompleteDrainOk(Store(c1, key, e, [x]));
  }

  lemma FinishDispatchOk(g: Global, c: Coalescer, key: Key, entryId: nat, batchId: nat, failed: bool, now: int)
    requires Inv(c)
    ensures Inv(FinishDispatch(g, c, key, entryId, batchId, failed, now).1)
  {
    hide LaneOk, LaneAlmost, Allowed, After, KeyOk, Advance, AdvanceEvents;
    if c.Holds(key, entryId) && c.entries[key].activeBatch.Some? && c.entries[key].activeBatch.value.id == batchId {
      Lane(c, key);
      NotClosed(c, key);
      var e, f := c.entries[key], State(c.logs[key]);
      var batch := e.activeBatch.value;
      FinishOk(c.config, e, f, c.state == Draining, now);
      var e1 := e.(activeBatch := None, lastActivity := now, waiters := e.waiters - |batch.waiters|);
      var e2 := if c.state == Draining then ForceEntry(e1) else e1;
      ForcedLane(c.config, e, f);
      var c1 := if failed && c.drain.Some? && (c.state == Quiescing || c.state == Draining)
                then c.(drain := Some(c.drain.value.(failed := true))) else c;
      assert c.entries[key].Busy();
      CompletionOk(c, c1, key, e2, Finish(batch.Members(), batch.waiters));
    }
  }

  lemma ReleaseBarrierOk(g: Global, c: Coalescer, key: Key, entryId: nat, b: nat, now: int)
    requires Inv(c)
    ensures Inv(ReleaseBarrier(g, c, key, entryId, b, now).1)
  {
    hide LaneOk, LaneAlmost, Allowed, After, KeyOk, Advance, AdvanceEvents;
    if c.Holds(key, entryId) && c.entries[key].activeBarrier == Some(b) {
      Lane(c, key);
      NotClosed(c, key);
      var e, f := c.entries[key], State(c.logs[key]);
      ReleaseOk(c.config, e, f, c.state == Draining, now);
      var e1 := e.(activeBarrier := None, lastActivity := now, waiters := e.waiters - 1);
      var e2 := if c.state == Draining then ForceEntry(e1) else e1;
      ForcedLane(c.config, e, f);
      assert c.entries[key].Busy();
      CompletionOk(c, c, key, e2, Release(b));
    }
  }

  lemma CancelBarrierOk(g: Global, c: Coalescer, key: Key, entryId: nat, b: nat, now: int)
    requires Inv(c)
    ensures Inv(CancelBarrier(g, c, key, entryId, b, now).1)
  {
    hide LaneOk, LaneAlmost, Allowed, After, KeyOk, Advance, AdvanceEvents;
    if c.Holds(key, entryId) && c.entries[key].activeBarrier != Some(b) && BarrierWork(b) in c.entries[key].queue {
      Lane(c, key);
      NotClosed(c, key);
      var e, f := c.entries[key], State(c.logs[key]);
      WithdrawOk(c.config, e, f, b, now);
      var e1 := e.(queue := RemoveBarrier(e.queue, b), waiters := e.waiters - 1, lastActivity := now);
      assert c.entries[key].Busy();
      CompletionOk(c, c, key, e1, Withdraw(b));
    }
  }

  lemma LeaveWaiterOk(g: Global, c: Coalescer, key: Key, entryId: nat, r: nat, now: int)
    requires Inv(c)
    ensures Inv(LeaveWaiter(g, c, key, entryId, r, now).1)
  {
    hide LaneOk, LaneAlmost, Allowed, After, KeyOk, Advance, AdvanceEvents;
    if c.Holds(key, entryId) && (ActiveWaits(c.entries[key], r) || QueueWaits(c.entries[key].queue, r)) {
      Lane(c, key);
      NotClosed(c, key);
      var e, f := c.entries[key], State(c.logs[key]);
      LeaveOk(c.config, e, f, r, now);
      var e1 := DropWaiter(e, r).(waiters := e.waiters - 1, lastActivity := now);
      ThenAll(f, Leave(r), []);
      assert [Leave(r)] + [] == [Leave(r)];
      ReplaceOk(c, key, e1, [Leave(r)]);
      assert e.Busy() && e1.Busy();
      var c1 := LeaveWaiter(g, c, key, entryId, r, now).1;
      assert c1.entries == c.entries[key := e1];
      assert KeysOk(c1) && PhaseAlmost(c1);
      assert c.state == Draining ==> c1.entries[key].Busy();
    }
  }

  lemma CleanupOk(g: Global, c: Coalescer, now: int)
    requires Inv(c)
    ensures Inv(CleanupIdle(g, c, now).1)
  {
    var c1 := CleanupIdle(g, c, now).1;
    forall key | key in c1.logs ensures KeyOk(c1.config, c1.nextId, c1.state == Closed, EntryOf(c1, key), c1.logs[key]) {
      assert KeyOk(c.config, c.nextId, c.state == Closed, EntryOf(c, key), c.logs[key]);
    }
    if c.state == Draining {
      var key :| key in c.entries && c.entries[key].Busy();
      assert key in c1.entries && c1.entries[key].Busy();
    }
  }

  lemma CloseOk(g: Global, c: Coalescer)
    requires Inv(c)
    ensures Inv(Close(g, c).1)
  {
    var c1 := Close(g, c).1;
    forall key | key in c1.logs ensures KeyOk(c1.config, c1.nextId, true, EntryOf(c1, key), c1.logs[key]) {
      assert KeyOk(c.config, c.nextId, c.state == Closed, EntryOf(c, key), c.logs[key]);
    }
  }

  /** Whatever the process-wide counters say, every critical section keeps the invariant. */
  lemma ApplyOk(g: Global, c: Coalescer, op: Op)
    requires Inv(c)
    ensures Inv(Apply(g, c, op).1)
  {
    hide KeyOk;
    match op
    case OpBeginIngress => if c.state == Open { SameKeys(c, BeginIngress(c).0); }
    case OpEndIngress =>
      var c1 := c.(admissions := Minus(c.admissions, 1));
      if c.state != Closed { SameKeys(c, c1); }
      AdvanceDrainOk(c1);
    case OpCleanup(now) => CleanupOk(g, c, now);
    case OpUpdate(key, now) => UpdateOk(g, c, key, now);
    case OpStop(key, now) => BarrierOk(g, c, key, now);
    case OpTimer(key, entryId, batchId, generation) => TimerOk(c, key, entryId, batchId, generation);
    case OpFinish(key, entryId, batchId, failed, now) => FinishDispatchOk(g, c, key, entryId, batchId, failed, now);
    case OpLeave(key, entryId, r, now) => LeaveWaiterOk(g, c, key, entryId, r, now);
    case OpCancelBarrier(key, entryId, b, now) => CancelBarrierOk(g, c, key, entryId, b, now);
    case OpReleaseBarrier(key, entryId, b, now) => ReleaseBarrierOk(g, c, key, entryId, b, now);
    case OpBeginDrain =>
      if c.state == Open {
        var c1 := c.(state := Quiescing, drain := Some(DrainCycle(c.nextId, false)), nextId := c.nextId + 1);
        SameKeys(c, c1);
        AdvanceDrainOk(c1);
      }
    case OpAbandonDrain(cycle) => if c.state != Closed { SameKeys(c, AbandonDrain(c, cycle)); }
    case OpClose => CloseOk(g, c);
  }

  // ---------- runs ----------

  /** A step together with the process-wide counters it meets: the other sites act in between as they like. */
  datatype Turn = Turn(global: Global, op: Op)

  ghost function Run(config: Config, turns: seq<Turn>): Coalescer
    decreases |turns|
  {
    if turns == [] then Start0(config)
    else
      var t := turns[|turns| - 1];
      Apply(t.global, Run(config, turns[..|turns| - 1]), t.op).1
  }

  lemma {:induction false} RunOk(config: Config, turns: seq<Turn>)
    ensures Inv(Run(config, turns))
    decreases |turns|
  {
    if turns != [] {
      RunOk(config, turns[..|turns| - 1]);
      ApplyOk(turns[|turns| - 1].global, Run(config, turns[..|turns| - 1]), turns[|turns| - 1].op);
    }
  }

  /** In every run the events of every key follow the service discipline. */
  lemma LogFollows(config: Config, turns: seq<Turn>, key: Key)
    ensures Follows(Run(config, turns).Log(key))
  {
    RunOk(config, turns);
    var c := Run(config, turns);
    if key in c.logs {
      assert KeyOk(c.config, c.nextId, c.state == Closed, EntryOf(c, key), c.logs[key]);
    }
  }

  /** A granted barrier comes after the end of the dispatch of every update accepted before it. */
  lemma BarrierWaitsForEarlierUpdates(config: Config, turns: seq<Turn>, key: Key, i: nat, j: nat, k: nat)
    requires var log := Run(config, turns).Log(key);
             i < j < k < |log| && log[i].Accept? && log[j].Stop? && log[k] == Grant(log[j].b)
    ensures var log := Run(config, turns).Log(key);
            FinishedWithin(log, log[i].r, i, k)
  {
    LogFollows(config, turns, key);
    GrantAfterEarlierUpdates(Run(config, turns).Log(key), i, j, k);
  }

  /** An update accepted after a barrier is not dispatched before the barrier is released or withdrawn. */
  lemma BarrierHoldsLaterUpdates(config: Config, turns: seq<Turn>, key: Key, j: nat, i: nat, k: nat)
    requires var log := Run(config, turns).Log(key);
             j < i < k < |log| && log[j].Stop? && log[i].Accept? && log[k].Start? && log[i].r in log[k].ms
    ensures var log := Run(config, turns).Log(key);
            EndedWithin(log, log[j].b, j, k)
  {
    LogFollows(config, turns, key);
    LaterUpdatesAfterBarrier(Run(config, turns).Log(key), j, i, k);
  }

  /** Between the beginnings of two services of a key the first one ended. */
  lemma OneServiceAtATime(config: Config, turns: seq<Turn>, key: Key, i: nat, j: nat)
    requires var log := Run(config, turns).Log(key);
             i < j < |log| && Begins(log[i]) && Begins(log[j])
    ensures var log := Run(config, turns).Log(key);
            exists k :: i < k < j && Ends(log[i], log[k])
  {
    LogFollows(config, turns, key);
    OneAtATime(Run(config, turns).Log(key), i, j);
  }

  /** The updates of the queued batches of an entry, in order. */
  ghost function QueuedMembers(queue: seq<Work>): seq<nat> {
    if queue == [] then []
    else (if queue[0].BatchWork? then queue[0].batch.Members() else []) + QueuedMembers(queue[1..])
  }

  lemma {:induction false} QueuedFlat(queue: seq<Work>)
    ensures Queued(Flat(queue)) == QueuedMembers(queue)
  {
    if queue != [] {
      QueuedFlat(queue[1..]);
      QueuedConcat(Items(queue[0]), Flat(queue[1..]));
      if queue[0].BatchWork? {
        QueuedUpdates(queue[0].batch.Members());
      } else {
        assert Items(queue[0])[1..] == [];
      }
    }
  }

  /**
   Until the site closes, the accepted updates of a key are, in order, those of its
   dispatched batches followed by those of its queued batches.
   */
  lemma NoUpdateLost(config: Config, turns: seq<Turn>, key: Key)
    requires Run(config, turns).state != Closed
    ensures var c := Run(config, turns);
            Accepted(c.Log(key)) == Dispatched(c.Log(key)) + (if key in c.entries then QueuedMembers(c.entries[key].queue) else [])
  {
    RunOk(config, turns);
    var c := Run(config, turns);
    if key in c.logs {
      assert KeyOk(c.config, c.nextId, c.state == Closed, EntryOf(c, key), c.logs[key]);
      NothingLost(c.logs[key]);
      if key in c.entries {
        QueuedFlat(c.entries[key].queue);
      }
    }
  }

  /**
   Every client of a batch that still waits when its dispatch ends is told then, no
   other client is, and no client is told twice.
   */
  lemma OutcomesExact(config: Config, turns: seq<Turn>, key: Key, i: nat, j: nat)
    requires var log := Run(config, turns).Log(key); i < j < |log| && log[i].Finish? && log[j].Finish?
    ensures var log := Run(config, turns).Log(key);
            && log[i].told !! log[j].told
            && (forall r :: r in log[i].told <==> r in log[i].ms && !LeftWithin(log, r, i))
            && (forall r :: r in log[j].told <==> r in log[j].ms && !LeftWithin(log, r, j))
  {
    var log := Run(config, turns).Log(key);
    LogFollows(config, turns, key);
    ToldAtMostOnce(log, i, j);
    ToldExactlyWaiters(log, i);
    ToldExactlyWaiters(log, j);
  }

  // ---------- no stall ----------

  /**
   A key with queued work and nothing active has exactly one piece of work: an unready
   batch whose timer is armed no later than its first arrival plus the longest delay,
   however many updates joined since. That timer, and no stale one, starts the dispatch.
   */
  lemma NeverStalls(c: Coalescer, key: Key, generation: nat)
    requires Inv(c) && key in c.entries && c.entries[key].Inactive() && c.entries[key].queue != []
    ensures var e := c.entries[key];
            && |e.queue| == 1 && e.queue[0].BatchWork? && !e.queue[0].batch.ready
            && (var b := e.queue[0].batch;
                && b.timer.Some?
                && b.timer.value <= b.firstArrival + c.config.maxDispatchDelay
                && b.timer.value <= b.lastArrival + c.config.debounce
                && (var c1 := MarkBatchReady(c, key, e.id, b.id, generation);
                    if generation == b.timerGeneration
                    then key in c1.entries && c1.entries[key].activeBatch == Some(b.(ready := true, timer := None))
                    else c1 == c))
  {
    Lane(c, key);
    var e := c.entries[key];
    assert QueueOk(c.config, e.queue, State(c.logs[key]).left);
    OnlyTheArmedTimer(c, key, generation);
  }

  lemma OnlyTheArmedTimer(c: Coalescer, key: Key, generation: nat)
    requires key in c.entries && c.entries[key].Inactive() && c.state != Closed
    requires var q := c.entries[key].queue; |q| == 1 && q[0].BatchWork? && !q[0].batch.ready
    ensures var e := c.entries[key];
            var b := e.queue[0].batch;
            var c1 := MarkBatchReady(c, key, e.id, b.id, generation);
            if generation == b.timerGeneration
            then key in c1.entries && c1.entries[key].activeBatch == Some(b.(ready := true, timer := None))
            else c1 == c
  {
    var e := c.entries[key];
    var b := e.queue[0].batch;
    if generation == b.timerGeneration {
      var marked := [BatchWork(b.(ready := true, timer := None))] + e.queue[1..];
      assert MarkReady(e.queue, b.id, generation) == marked;
      assert marked[0] != e.queue[0];
    }
  }

  /** While a site drains, no batch waits for a timer: whatever is queued stands behind active work. */
  lemma DrainingNeverWaits(c: Coalescer, key: Key)
    requires Inv(c) && c.state == Draining && key in c.entries && c.entries[key].queue != []
    ensures !c.entries[key].Inactive()
  {
    Lane(c, key);
  }
}
