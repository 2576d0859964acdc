/** Draining, and the exactness of the counters that bound the coalescers of all sites. */
module ProgressAccounting {
  import opened Wrappers
  import opened ProgressFifo
  import opened ProgressSpec
  import opened ProgressLanes
  import opened ProgressRuns
  import opened MapSums

  // ---------- drained is final ----------

  /** After Drained nothing is accepted, dispatched or granted. */
  lemma DrainedStep(g: Global, c: Coalescer, op: Op)
    requires Inv(c) && (c.state == Drained || c.state == Closed)
    ensures var c1 := Apply(g, c, op).1;
            (c1.state == Drained || c1.state == Closed) && c1.logs == c.logs
  {
    if c.state == Drained {
      forall key | key in c.entries ensures c.entries[key].Inactive() && c.entries[key].queue == [] {
        assert !c.entries[key].Busy();
      }
    }
  }

  lemma {:induction false} DrainedIsFinal(config: Config, turns: seq<Turn>, more: seq<Turn>)
    requires Run(config, turns).state == Drained
    ensures var c, c1 := Run(config, turns), Run(config, turns + more);
            (c1.state == Drained || c1.state == Closed) && c1.logs == c.logs
    decreases |more|
  {
    hide Inv, Apply;
    if more == [] {
      assert turns + more == turns;
    } else {
      var fewer, t := more[..|more| - 1], more[|more| - 1];
      DrainedIsFinal(config, turns, fewer);
      var all := turns + more;
      assert all[..|all| - 1] == turns + fewer && all[|all| - 1] == t;
      RunOk(config, turns + fewer);
      DrainedStep(t.global, Run(config, turns + fewer), t.op);
    }
  }

  /** In every run, Drained means: no admission, no queued or active work, no waiting client. */
  lemma DrainedIsEmpty(config: Config, turns: seq<Turn>, key: Key)
    requires Run(config, turns).state == Drained
    ensures var c := Run(config, turns);
            && c.admissions == 0
            && (key in c.entries ==> !c.entries[key].Busy() && c.entries[key].waiters == 0)
  {
    RunOk(config, turns);
    var c := Run(config, turns);
    if key in c.entries {
      Lane(c, key);
      assert !c.entries[key].Busy();
    }
  }

  // ---------- a drain makes progress ----------

  function LaneWork(e: Entry): nat {
    2 * |e.queue| + if e.Inactive() then 0 else 1
  }

  function Works(c: Coalescer): map<Key, nat> {
    map key | key in c.entries :: LaneWork(c.entries[key])
  }

  ghost function DrainWork(c: Coalescer): nat {
    Sum(Works(c))
  }

  lemma StoredWork(c: Coalescer, key: Key, e: Entry, c1: Coalescer)
    requires key in c.entries && c1.entries == c.entries[key := e]
    ensures DrainWork(c1) == DrainWork(c) - LaneWork(c.entries[key]) + LaneWork(e)
  {
    assert Works(c1) == Works(c)[key := LaneWork(e)];
    SumStore(Works(c), key, LaneWork(e));
  }

  lemma {:induction false} RemoveBarrierShorter(queue: seq<Work>, b: nat)
    requires BarrierWork(b) in queue
    ensures |RemoveBarrier(queue, b)| == |queue| - 1
  {
    if queue[0] != BarrierWork(b) {
      RemoveBarrierShorter(queue[1..], b);
    }
  }

  lemma {:induction false} RemoveWaiterLength(queue: seq<Work>, r: nat)
    ensures |RemoveWaiter(queue, r)| == |queue|
  {
    if queue != [] {
      RemoveWaiterLength(queue[1..], r);
    }
  }

  lemma CompletionWork(c: Coalescer, key: Key, e: Entry, c1: Coalescer)
    requires key in c.entries && c1.entries == c.entries[key := Advance(e)]
    requires LaneWork(e) < LaneWork(c.entries[key])
    ensures DrainWork(c1) < DrainWork(c)
  {
    StoredWork(c, key, Advance(e), c1);
  }

  ghost predicate IsCompletion(op: Op) {
    op.OpFinish? || op.OpReleaseBarrier? || op.OpCancelBarrier?
  }

  /** While a site drains, nothing raises the work that is left, and every completion lowers it. */
  lemma DrainFalls(g: Global, c: Coalescer, op: Op)
    requires Inv(c) && c.state == Draining
    ensures var c1 := Apply(g, c, op).1;
            && (!op.OpClose? ==> DrainWork(c1) <= DrainWork(c))
            && (IsCompletion(op) && c1 != c ==> DrainWork(c1) < DrainWork(c))
            && (!IsCompletion(op) && !op.OpLeave? ==> c1.logs == c.logs)
  {
    hide LaneOk, LaneAlmost, KeyOk, Advance, AdvanceEvents, Sum, LaneWork, AllReady, ForceQueue;
    match op
    case OpCleanup(now) => CleanupWork(g, c, now);
    case OpTimer(key, entryId, batchId, generation) => TimerIdle(c, key, entryId, batchId, generation);
    case OpFinish(key, entryId, batchId, failed, now) => FinishWork(g, c, key, entryId, batchId, failed, now);
    case OpLeave(key, entryId, r, now) => LeaveWork(g, c, key, entryId, r, now);
    case OpCancelBarrier(key, entryId, b, now) => CancelWork(g, c, key, entryId, b, now);
    case OpReleaseBarrier(key, entryId, b, now) => ReleaseWork(g, c, key, entryId, b, now);
    case _ =>
  }

  lemma CleanupWork(g: Global, c: Coalescer, now: int)
    ensures DrainWork(CleanupIdle(g, c, now).1) == DrainWork(c)
  {
    var c1 := CleanupIdle(g, c, now).1;
    if c.config.idleExpiry > 0 {
      var gone := set key | key in c.entries && ProgressSpec.Idle(c, c.entries[key], now);
      assert Works(c1) == Works(c) - gone;
      SumWithout(Works(c), gone);
    }
  }

  lemma TimerIdle(c: Coalescer, key: Key, entryId: nat, batchId: nat, generation: nat)
    requires Inv(c) && c.state == Draining
    ensures MarkBatchReady(c, key, entryId, batchId, generation) == c
  {
    if key in c.entries {
      Lane(c, key);
      MarkReadySame(c.config, c.entries[key].queue, batchId, generation, State(c.logs[key]).left);
    }
  }

  lemma FinishWork(g: Global, c: Coalescer, key: Key, entryId: nat, batchId: nat, failed: bool, now: int)
    requires Inv(c)
    ensures var c1 := FinishDispatch(g, c, key, entryId, batchId, failed, now).1;
            c1 == c || DrainWork(c1) < DrainWork(c)
  {
    hide LaneAlmost, KeyOk, Advance, AdvanceEvents, Sum;
    if c.Holds(key, entryId) && c.entries[key].activeBatch.Some? && c.entries[key].activeBatch.value.id == batchId {
      Lane(c, key);
      BothNever(c, key);
      var batch := c.entries[key].activeBatch.value;
      var e1 := ReleaseWaiters(g, c.entries[key].(activeBatch := None, lastActivity := now), |batch.waiters|).1;
      var e2 := if c.state == Draining then ForceEntry(e1) else e1;
      CompletionWork(c, key, e2, FinishDispatch(g, c, key, entryId, batchId, failed, now).1);
    }
  }

  lemma BothNever(c: Coalescer, key: Key)
    requires KeysOk(c) && key in c.entries
    ensures c.entries[key].activeBatch.None? || c.entries[key].activeBarrier.None?
  {
    Lane(c, key);
  }

  lemma ReleaseWork(g: Global, c: Coalescer, key: Key, entryId: nat, b: nat, now: int)
    requires Inv(c)
    ensures var c1 := ReleaseBarrier(g, c, key, entryId, b, now).1;
            c1 == c || DrainWork(c1) < DrainWork(c)
  {
    hide LaneAlmost, KeyOk, Advance, AdvanceEvents, Sum;
    if c.Holds(key, entryId) && c.entries[key].activeBarrier == Some(b) {
      BothNever(c, key);
      var e1 := ReleaseWaiters(g, c.entries[key].(activeBarrier := None), 1).1.(lastActivity := now);
      var e2 := if c.state == Draining then ForceEntry(e1) else e1;
      CompletionWork(c, key, e2, ReleaseBarrier(g, c, key, entryId, b, now).1);
    }
  }

  lemma CancelWork(g: Global, c: Coalescer, key: Key, entryId: nat, b: nat, now: int)
    requires Inv(c)
    ensures var c1 := CancelBarrier(g, c, key, entryId, b, now).1;
            c1 == c || DrainWork(c1) < DrainWork(c)
  {
    hide LaneAlmost, KeyOk, Advance, AdvanceEvents, Sum;
    if c.Holds(key, entryId) && c.entries[key].activeBarrier != Some(b) && BarrierWork(b) in c.entries[key].queue {
      var e := c.entries[key];
      RemoveBarrierShorter(e.queue, b);
      var e1 := ReleaseWaiters(g, e.(queue := RemoveBarrier(e.queue, b)), 1).1.(lastActivity := now);
      CompletionWork(c, key, e1, CancelBarrier(g, c, key, entryId, b, now).1);
    }
  }

  lemma LeaveWork(g: Global, c: Coalescer, key: Key, entryId: nat, r: nat, now: int)
    ensures DrainWork(LeaveWaiter(g, c, key, entryId, r, now).1) == DrainWork(c)
  {
    if c.Holds(key, entryId) && (ActiveWaits(c.entries[key], r) || QueueWaits(c.entries[key].queue, r)) {
      RemoveWaiterLength(c.entries[key].queue, r);
      var e1 := ReleaseWaiters(g, DropWaiter(c.entries[key], r), 1).1.(lastActivity := now);
      StoredWork(c, key, e1, LeaveWaiter(g, c, key, entryId, r, now).1);
    }
  }

  /** A drain that is not over has active work, whose completion lowers the work that is left. */
  lemma DrainHasActiveWork(c: Coalescer) returns (key: Key)
    requires Inv(c) && c.state == Draining
    ensures key in c.entries && !c.entries[key].Inactive() && 0 < DrainWork(c)
  {
    key :| key in c.entries && c.entries[key].Busy();
    if c.entries[key].queue != [] {
      DrainingNeverWaits(c, key);
    }
    SumAtLeast(Works(c), key);
  }

  // ---------- counters ----------

  function WaitersOf(c: Coalescer): map<Key, nat> {
    map key | key in c.entries :: c.entries[key].waiters
  }

  /** The clients of one site that wait for an answer. */
  ghost function SiteWaiters(c: Coalescer): nat {
    Sum(WaitersOf(c))
  }

  function Max0(limit: int): nat {
    if limit < 0 then 0 else limit
  }

  ghost predicate SiteCaps(c: Coalescer) {
    && |c.entries| <= Max0(c.config.maxSiteKeys)
    && forall key :: key in c.entries ==> c.entries[key].waiters <= Max0(c.config.maxWaitersPerKey)
  }

  /** The process-wide counters cover this site, with the given rest for the other sites. */
  ghost predicate Accounts(g: Global, c: Coalescer, otherKeys: nat, otherWaiters: nat) {
    && g.activeKeys == |c.entries| + otherKeys
    && g.waiters == SiteWaiters(c) + otherWaiters
    && g.activeKeys <= Max0(g.maxActiveKeys)
    && g.waiters <= Max0(g.maxWaiters)
    && SiteCaps(c)
  }

  lemma StoredWaiters(c: Coalescer, key: Key, e: Entry, c1: Coalescer)
    requires c1.entries == c.entries[key := e]
    ensures SiteWaiters(c1) == SiteWaiters(c) - (if key in c.entries then c.entries[key].waiters else 0) + e.waiters
    ensures |c1.entries| == |c.entries| + if key in c.entries then 0 else 1
  {
    assert WaitersOf(c1) == WaitersOf(c)[key := e.waiters];
    SumStore(WaitersOf(c), key, e.waiters);
  }

  /** One entry changes its number of waiters by what the process-wide counter changes. */
  lemma StoreAccounts(g: Global, c: Coalescer, otherKeys: nat, otherWaiters: nat, key: Key, e: Entry, g1: Global, c1: Coalescer)
    requires Accounts(g, c, otherKeys, otherWaiters) && key in c.entries
    requires c1.entries == c.entries[key := e] && c1.config == c.config
    requires g1 == g.(waiters := g1.waiters) && g1.waiters - g.waiters == e.waiters - c.entries[key].waiters
    requires e.waiters <= Max0(c.config.maxWaitersPerKey) && g1.waiters <= Max0(g.maxWaiters)
    ensures Accounts(g1, c1, otherKeys, otherWaiters)
  {
    StoredWaiters(c, key, e, c1);
  }

  lemma EntryCovered(g: Global, c: Coalescer, otherKeys: nat, otherWaiters: nat, key: Key)
    requires Accounts(g, c, otherKeys, otherWaiters) && key in c.entries
    ensures c.entries[key].waiters <= g.waiters
  {
    SumAtLeast(WaitersOf(c), key);
  }

  lemma WithEntryAccounts(g: Global, c: Coalescer, otherKeys: nat, otherWaiters: nat, key: Key, now: int)
    requires Accounts(g, c, otherKeys, otherWaiters) && KeyFits(g, c, key)
    ensures var (g1, c1) := WithEntry(g, c, key, now);
            Accounts(g1, c1, otherKeys, otherWaiters)
  {
    if key !in c.entries {
      var (g1, c1) := WithEntry(g, c, key, now);
      StoredWaiters(c, key, c1.entries[key], c1);
    }
  }

  lemma SameEntries(g: Global, c: Coalescer, otherKeys: nat, otherWaiters: nat, c1: Coalescer)
    requires Accounts(g, c, otherKeys, otherWaiters) && c1.entries == c.entries && c1.config == c.config
    ensures Accounts(g, c1, otherKeys, otherWaiters)
  {
    assert WaitersOf(c1) == WaitersOf(c);
  }

  lemma AdvanceWaiters(e: Entry)
    ensures Advance(e).waiters == e.waiters
  {
  }

  lemma RefuseAccounts(g: Global, c: Coalescer, otherKeys: nat, otherWaiters: nat, key: Key, now: int)
    requires Accounts(g, c, otherKeys, otherWaiters)
    ensures var (g1, c1) := Refuse(g, c, key, now);
            Accounts(g1, c1, otherKeys, otherWaiters)
  {
    SameEntries(g, c, otherKeys, otherWaiters, Refuse(g, c, key, now).1);
  }

  lemma EnqueueAccounts(g: Global, c: Coalescer, otherKeys: nat, otherWaiters: nat, key: Key, now: int, stop: bool)
    requires Accounts(g, c, otherKeys, otherWaiters)
    ensures var r := if stop then EnqueueBarrier(g, c, key, now) else EnqueueUpdate(g, c, key, now);
            Accounts(r.0, r.1, otherKeys, otherWaiters)
  {
    hide Advance, AdvanceEvents, Sum, QueueUpdate, QueueBarrier, Accounts;
    RefuseAccounts(g, c, otherKeys, otherWaiters, key, now);
    if Fits(g, c, key, now) {
      WithEntryAccounts(g, c, otherKeys, otherWaiters, key, now);
      var (g1, c1) := WithEntry(g, c, key, now);
      var e, n := c1.entries[key], c1.nextId;
      var r := if stop then EnqueueBarrier(g, c, key, now) else EnqueueUpdate(g, c, key, now);
      var queue := if stop then QueueBarrier(e.queue, n) else QueueUpdate(c.config, e.queue, n, now);
      var e1 := e.(waiters := e.waiters + 1, queue := queue, lastActivity := now);
      AdvanceWaiters(e1);
      assert r.1.entries == c1.entries[key := Advance(e1)];
      StoreAccounts(g1, c1, otherKeys, otherWaiters, key, Advance(e1), r.0, r.1);
    }
  }

  /** Releasing n waiters of an entry that has them is exact: neither clamp at zero fires. */
  lemma ReleaseExact(g: Global, c: Coalescer, otherKeys: nat, otherWaiters: nat, key: Key, e: Entry, n: nat)
    requires Accounts(g, c, otherKeys, otherWaiters) && key in c.entries
    requires e.waiters == c.entries[key].waiters && n <= e.waiters
    ensures n <= g.waiters && ReleaseWaiters(g, e, n) == (g.(waiters := g.waiters - n), e.(waiters := e.waiters - n))
  {
    EntryCovered(g, c, otherKeys, otherWaiters, key);
  }

  lemma ReleasedAccounts(g: Global, c: Coalescer, otherKeys: nat, otherWaiters: nat, key: Key, e: Entry, n: nat, g1: Global, c1: Coalescer)
    requires Accounts(g, c, otherKeys, otherWaiters) && key in c.entries
    requires e.waiters == c.entries[key].waiters && n <= e.waiters
    requires g1 == ReleaseWaiters(g, e, n).0 && c1.config == c.config
    requires c1.entries.Keys == c.entries.Keys && c1.entries == c.entries[key := c1.entries[key]]
    requires c1.entries[key].waiters == ReleaseWaiters(g, e, n).1.waiters
    ensures Accounts(g1, c1, otherKeys, otherWaiters)
  {
    ReleaseExact(g, c, otherKeys, otherWaiters, key, e, n);
    StoreAccounts(g, c, otherKeys, otherWaiters, key, c1.entries[key], g1, c1);
  }

  lemma FinishAccounts(g: Global, c: Coalescer, otherKeys: nat, otherWaiters: nat, key: Key, entryId: nat, batchId: nat, failed: bool, now: int)
    requires Inv(c) && Accounts(g, c, otherKeys, otherWaiters)
    ensures var (g1, c1) := FinishDispatch(g, c, key, entryId, batchId, failed, now);
            Accounts(g1, c1, otherKeys, otherWaiters)
  {
    if c.Holds(key, entryId) && c.entries[key].activeBatch.Some? && c.entries[key].activeBatch.value.id == batchId {
      Lane(c, key);
      FinishOk(c.config, c.entries[key], State(c.logs[key]), false, now);
      FinishReleases(g, c, otherKeys, otherWaiters, key, entryId, batchId, failed, now);
    }
  }

  lemma FinishReleases(g: Global, c: Coalescer, otherKeys: nat, otherWaiters: nat, key: Key, entryId: nat, batchId: nat, failed: bool, now: int)
    requires Accounts(g, c, otherKeys, otherWaiters)
    requires c.Holds(key, entryId) && c.entries[key].activeBatch.Some? && c.entries[key].activeBatch.value.id == batchId
    requires |c.entries[key].activeBatch.value.waiters| <= c.entries[key].waiters
    ensures var (g1, c1) := FinishDispatch(g, c, key, entryId, batchId, failed, now);
            Accounts(g1, c1, otherKeys, otherWaiters)
  {
    hide Advance, AdvanceEvents, Sum, Accounts, ForceQueue;
    var (g1, c1) := FinishDispatch(g, c, key, entryId, batchId, failed, now);
    var batch := c.entries[key].activeBatch.value;
    var e := c.entries[key].(activeBatch := None, lastActivity := now);
    var e1 := ReleaseWaiters(g, e, |batch.waiters|).1;
    var e2 := if c.state == Draining then ForceEntry(e1) else e1;
    AdvanceWaiters(e2);
    assert c1.entries == c.entries[key := Advance(e2)];
    ReleasedAccounts(g, c, otherKeys, otherWaiters, key, e, |batch.waiters|, g1, c1);
  }

  lemma ReleaseAccounts(g: Global, c: Coalescer, otherKeys: nat, otherWaiters: nat, key: Key, entryId: nat, b: nat, now: int)
    requires Inv(c) && Accounts(g, c, otherKeys, otherWaiters)
    ensures var (g1, c1) := ReleaseBarrier(g, c, key, entryId, b, now);
            Accounts(g1, c1, otherKeys, otherWaiters)
  {
    if c.Holds(key, entryId) && c.entries[key].activeBarrier == Some(b) {
      Lane(c, key);
      ReleaseOk(c.config, c.entries[key], State(c.logs[key]), false, now);
      hide LaneOk, LaneAlmost, KeyOk, Advance, AdvanceEvents, Sum, Inv, Accounts;
      var (g1, c1) := ReleaseBarrier(g, c, key, entryId, b, now);
      var e := c.entries[key].(activeBarrier := None);
      var e1 := ReleaseWaiters(g, e, 1).1.(lastActivity := now);
      var e2 := if c.state == Draining then ForceEntry(e1) else e1;
      AdvanceWaiters(e2);
      assert c1.entries == c.entries[key := Advance(e2)];
      ReleasedAccounts(g, c, otherKeys, otherWaiters, key, e, 1, g1, c1);
    }
  }

  lemma CancelAccounts(g: Global, c: Coalescer, otherKeys: nat, otherWaiters: nat, key: Key, entryId: nat, b: nat, now: int)
    requires Inv(c) && Accounts(g, c, otherKeys, otherWaiters)
    ensures var r := CancelBarrier(g, c, key, entryId, b, now);
            Accounts(r.0, r.1, otherKeys, otherWaiters)
  {
    if c.Holds(key, entryId) && c.entries[key].activeBarrier != Some(b) && BarrierWork(b) in c.entries[key].queue {
      Lane(c, key);
      WithdrawOk(c.config, c.entries[key], State(c.logs[key]), b, now);
      hide LaneOk, LaneAlmost, KeyOk, Advance, AdvanceEvents, Sum, Inv, Accounts, RemoveBarrier;
      var (g1, c1, _) := CancelBarrier(g, c, key, entryId, b, now);
      var e := c.entries[key].(queue := RemoveBarrier(c.entries[key].queue, b));
      var e1 := ReleaseWaiters(g, e, 1).1.(lastActivity := now);
      AdvanceWaiters(e1);
      assert c1.entries == c.entries[key := Advance(e1)];
      ReleasedAccounts(g, c, otherKeys, otherWaiters, key, e, 1, g1, c1);
    }
  }

  lemma LeaveAccounts(g: Global, c: Coalescer, otherKeys: nat, otherWaiters: nat, key: Key, entryId: nat, r: nat, now: int)
    requires Inv(c) && Accounts(g, c, otherKeys, otherWaiters)
    ensures var (g1, c1) := LeaveWaiter(g, c, key, entryId, r, now);
            Accounts(g1, c1, otherKeys, otherWaiters)
  {
    if c.Holds(key, entryId) && (ActiveWaits(c.entries[key], r) || QueueWaits(c.entries[key].queue, r)) {
      Lane(c, key);
      LeaveOk(c.config, c.entries[key], State(c.logs[key]), r, now);
      hide LaneOk, LaneAlmost, KeyOk, Sum, Inv, Accounts, RemoveWaiter;
      var (g1, c1) := LeaveWaiter(g, c, key, entryId, r, now);
      var e := DropWaiter(c.entries[key], r);
      assert c1.entries == c.entries[key := c1.entries[key]];
      ReleasedAccounts(g, c, otherKeys, otherWaiters, key, e, 1, g1, c1);
    }
  }

  lemma CleanupAccounts(g: Global, c: Coalescer, otherKeys: nat, otherWaiters: nat, now: int)
    requires Accounts(g, c, otherKeys, otherWaiters)
    ensures var (g1, c1) := CleanupIdle(g, c, now);
            Accounts(g1, c1, otherKeys, otherWaiters)
  {
    if c.config.idleExpiry > 0 {
      var (g1, c1) := CleanupIdle(g, c, now);
      var gone := set key | key in c.entries && ProgressSpec.Idle(c, c.entries[key], now);
      assert WaitersOf(c1) == WaitersOf(c) - gone;
      SumWithout(WaitersOf(c), gone);
      assert c1.entries.Keys == c.entries.Keys - gone;
      assert |c.entries.Keys - gone| == |c.entries.Keys| - |gone|;
    }
  }

  lemma DrainAccounts(g: Global, c: Coalescer, otherKeys: nat, otherWaiters: nat)
    requires Accounts(g, c, otherKeys, otherWaiters)
    ensures Accounts(g, AdvanceDrain(c), otherKeys, otherWaiters)
  {
    hide Advance, AdvanceEvents, ForceQueue, Sum;
    var c1 := AdvanceDrain(c);
    if c.state == Quiescing && c.drain.Some? && c.admissions == 0 {
      forall key | key in c.entries ensures c1.entries[key].waiters == c.entries[key].waiters {
        AdvanceWaiters(ForceEntry(c.entries[key]));
      }
      assert WaitersOf(c1) == WaitersOf(c);
      assert c1.entries.Keys == c.entries.Keys;
      assert |c1.entries.Keys| == |c.entries.Keys|;
    }
  }

  /**
   Close gives back the keys of a site but not its waiters: the process-wide counters
   stay exact if and only if no client was waiting.
   */
  lemma CloseAccounts(g: Global, c: Coalescer, otherKeys: nat, otherWaiters: nat)
    requires Inv(c) && c.state != Closed && Accounts(g, c, otherKeys, otherWaiters)
    ensures var (g1, c1) := Close(g, c);
            Accounts(g1, c1, otherKeys, otherWaiters) <==> SiteWaiters(c) == 0
    ensures Close(g, c).0.waiters == otherWaiters + SiteWaiters(c)
  {
    var (g1, c1) := Close(g, c);
    assert WaitersOf(c1) == map[];
  }

  ghost predicate CleanOp(c: Coalescer, op: Op) {
    op.OpClose? && c.state != Closed ==> SiteWaiters(c) == 0
  }

  /** Every critical section keeps the counters exact and within all limits, a close that strands clients excepted. */
  lemma ApplyAccounts(g: Global, c: Coalescer, otherKeys: nat, otherWaiters: nat, op: Op)
    requires Inv(c) && Accounts(g, c, otherKeys, otherWaiters) && CleanOp(c, op)
    ensures var (g1, c1) := Apply(g, c, op);
            Accounts(g1, c1, otherKeys, otherWaiters)
  {
    hide Inv, Accounts;
    match op
    case OpBeginIngress => SameEntries(g, c, otherKeys, otherWaiters, BeginIngress(c).0);
    case OpEndIngress =>
      SameEntries(g, c, otherKeys, otherWaiters, c.(admissions := Minus(c.admissions, 1)));
      DrainAccounts(g, c.(admissions := Minus(c.admissions, 1)), otherKeys, otherWaiters);
    case OpCleanup(now) => CleanupAccounts(g, c, otherKeys, otherWaiters, now);
    case OpUpdate(key, now) => EnqueueAccounts(g, c, otherKeys, otherWaiters, key, now, false);
    case OpStop(key, now) => EnqueueAccounts(g, c, otherKeys, otherWaiters, key, now, true);
    case OpTimer(key, entryId, batchId, generation) => TimerAccounts(g, c, otherKeys, otherWaiters, key, entryId, batchId, generation);
    case OpFinish(key, entryId, batchId, failed, now) => FinishAccounts(g, c, otherKeys, otherWaiters, key, entryId, batchId, failed, now);
    case OpLeave(key, entryId, r, now) => LeaveAccounts(g, c, otherKeys, otherWaiters, key, entryId, r, now);
    case OpCancelBarrier(key, entryId, b, now) => CancelAccounts(g, c, otherKeys, otherWaiters, key, entryId, b, now);
    case OpReleaseBarrier(key, entryId, b, now) => ReleaseAccounts(g, c, otherKeys, otherWaiters, key, entryId, b, now);
    case OpBeginDrain =>
      if c.state == Open {
        var c1 := c.(state := Quiescing, drain := Some(DrainCycle(c.nextId, false)), nextId := c.nextId + 1);
        SameEntries(g, c, otherKeys, otherWaiters, c1);
        DrainAccounts(g, c1, otherKeys, otherWaiters);
      }
    case OpAbandonDrain(cycle) => SameEntries(g, c, otherKeys, otherWaiters, AbandonDrain(c, cycle));
    case OpClose => if c.state != Closed { CloseAccounts(g, c, otherKeys, otherWaiters); }
  }

  lemma TimerAccounts(g: Global, c: Coalescer, otherKeys: nat, otherWaiters: nat, key: Key, entryId: nat, batchId: nat, generation: nat)
    requires Accounts(g, c, otherKeys, otherWaiters)
    ensures Accounts(g, MarkBatchReady(c, key, entryId, batchId, generation), otherKeys, otherWaiters)
  {
    hide Advance, AdvanceEvents, MarkReady, Sum;
    var c1 := MarkBatchReady(c, key, entryId, batchId, generation);
    if c.Holds(key, entryId) && c.state != Closed {
      var e := c.entries[key].(queue := MarkReady(c.entries[key].queue, batchId, generation));
      AdvanceWaiters(e);
      if c1 != c {
        assert c1.entries == c.entries[key := Advance(e)];
        StoreAccounts(g, c, otherKeys, otherWaiters, key, Advance(e), g, c1);
      }
    }
  }

  // ---------- all sites together ----------

  datatype System = System(global: Global, sites: seq<Coalescer>)

  /** Site i executes op. */
  datatype Move = Move(site: nat, op: Op)

  function Step(s: System, m: Move): System {
    if m.site >= |s.sites| then s
    else
      var (g, c) := Apply(s.global, s.sites[m.site], m.op);
      System(g, s.sites[m.site := c])
  }

  ghost function TotalKeys(sites: seq<Coalescer>): nat {
    if sites == [] then 0 else |sites[0].entries| + TotalKeys(sites[1..])
  }

  ghost function TotalWaiters(sites: seq<Coalescer>): nat {
    if sites == [] then 0 else SiteWaiters(sites[0]) + TotalWaiters(sites[1..])
  }

  lemma {:induction false} TotalsReplace(sites: seq<Coalescer>, i: nat, c: Coalescer)
    requires i < |sites|
    ensures |sites[i].entries| <= TotalKeys(sites) && SiteWaiters(sites[i]) <= TotalWaiters(sites)
    ensures TotalKeys(sites[i := c]) == TotalKeys(sites) - |sites[i].entries| + |c.entries|
    ensures TotalWaiters(sites[i := c]) == TotalWaiters(sites) - SiteWaiters(sites[i]) + SiteWaiters(c)
  {
    if i > 0 {
      TotalsReplace(sites[1..], i - 1, c);
      assert sites[i := c][1..] == sites[1..][i - 1 := c];
    } else {
      assert sites[i := c][1..] == sites[1..];
    }
  }

  ghost predicate SystemOk(s: System) {
    && s.global.activeKeys == TotalKeys(s.sites)
    && s.global.waiters == TotalWaiters(s.sites)
    && s.global.activeKeys <= Max0(s.global.maxActiveKeys)
    && s.global.waiters <= Max0(s.global.maxWaiters)
    && forall i :: 0 <= i < |s.sites| ==> Inv(s.sites[i]) && SiteCaps(s.sites[i])
  }

  lemma StepExact(s: System, m: Move)
    requires SystemOk(s) && (m.site < |s.sites| ==> CleanOp(s.sites[m.site], m.op))
    ensures SystemOk(Step(s, m))
  {
    hide Inv, Apply, CleanOp;
    if m.site < |s.sites| {
      var c := s.sites[m.site];
      var (g1, c1) := Apply(s.global, c, m.op);
      TotalsReplace(s.sites, m.site, c1);
      var otherKeys, otherWaiters := s.global.activeKeys - |c.entries|, s.global.waiters - SiteWaiters(c);
      ApplyOk(s.global, c, m.op);
      ApplyAccounts(s.global, c, otherKeys, otherWaiters, m.op);
      LimitsConstant(s.global, c, m.op);
    }
  }

  lemma LimitsConstant(g: Global, c: Coalescer, op: Op)
    ensures var g1 := Apply(g, c, op).0; g1.maxActiveKeys == g.maxActiveKeys && g1.maxWaiters == g.maxWaiters
  {
  }

  /** A run of all sites in which no close strands a client. */
  ghost predicate CleanRun(s: System, moves: seq<Move>)
    decreases |moves|
  {
    moves != [] ==>
      && (moves[0].site < |s.sites| ==> CleanOp(s.sites[moves[0].site], moves[0].op))
      && CleanRun(Step(s, moves[0]), moves[1..])
  }

  function RunSystem(s: System, moves: seq<Move>): System
    decreases |moves|
  {
    if moves == [] then s else RunSystem(Step(s, moves[0]), moves[1..])
  }

  /** In every interleaving of all sites the process-wide counters equal the sums over the sites and no limit is exceeded. */
  lemma {:induction false} CountersExact(s: System, moves: seq<Move>)
    requires SystemOk(s) && CleanRun(s, moves)
    ensures SystemOk(RunSystem(s, moves))
    decreases |moves|
  {
    if moves != [] {
      StepExact(s, moves[0]);
      CountersExact(Step(s, moves[0]), moves[1..]);
    }
  }

  /** Open sites without any entry, and counters at zero. */
  function FreshSystem(maxActiveKeys: int, maxWaiters: int, configs: seq<Config>): System {
    System(Global(0, 0, maxActiveKeys, maxWaiters), seq(|configs|, i requires 0 <= i < |configs| => Start0(configs[i])))
  }

  lemma {:induction false} NoTotals(sites: seq<Coalescer>)
    requires forall i :: 0 <= i < |sites| ==> sites[i].entries == map[]
    ensures TotalKeys(sites) == 0 && TotalWaiters(sites) == 0
    decreases |sites|
  {
    if sites != [] {
      SumZero(WaitersOf(sites[0]));
      NoTotals(sites[1..]);
    }
  }

  lemma FreshOk(maxActiveKeys: int, maxWaiters: int, configs: seq<Config>)
    ensures SystemOk(FreshSystem(maxActiveKeys, maxWaiters, configs))
  {
    hide Inv, WaitersOf;
    var s := FreshSystem(maxActiveKeys, maxWaiters, configs);
    NoTotals(s.sites);
    forall i | 0 <= i < |s.sites| ensures Inv(s.sites[i]) && SiteCaps(s.sites[i]) {
      RunOk(configs[i], []);
    }
  }

  /** From the start of the process on, the counters are exact and within their limits. */
  lemma CountersExactFromStart(maxActiveKeys: int, maxWaiters: int, configs: seq<Config>, moves: seq<Move>)
    requires CleanRun(FreshSystem(maxActiveKeys, maxWaiters, configs), moves)
    ensures SystemOk(RunSystem(FreshSystem(maxActiveKeys, maxWaiters, configs), moves))
  {
    hide SystemOk, CleanRun, RunSystem;
    FreshOk(maxActiveKeys, maxWaiters, configs);
    CountersExact(FreshSystem(maxActiveKeys, maxWaiters, configs), moves);
  }
}
