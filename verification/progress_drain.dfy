/** How a drain ends: the site opens again if a dispatch failed in the meantime, and is drained otherwise. */
module ProgressDrain {
  import opened Wrappers
  import opened ProgressFifo
  import opened ProgressSpec
  import opened ProgressLanes
  import opened ProgressRuns

  /** The end of a dispatch that failed. */
  predicate Failure(c: Coalescer, op: Op) {
    && op.OpFinish? && op.failed && op.key in c.entries && c.entries[op.key].id == op.entryId
    && c.entries[op.key].activeBatch.Some? && c.entries[op.key].activeBatch.value.id == op.batchId
  }

  /** What one step does to the drain and to the phase. */
  ghost predicate DrainStep(c: Coalescer, op: Op, c1: Coalescer) {
    && c.nextId <= c1.nextId
    && (c.drain.Some? && c1.drain.Some? ==>
          c1.drain.value == DrainCycle(c.drain.value.id, c.drain.value.failed || Failure(c, op)))
    && (c.drain.None? && c1.drain.Some? ==> op.OpBeginDrain? && c1.drain.value == DrainCycle(c.nextId, false) && c.nextId < c1.nextId)
    && (c.drain.Some? && c1.drain.None? && !op.OpAbandonDrain? ==>
          c1.state == if c.drain.value.failed || Failure(c, op) then Open else Drained)
    && (c.drain.Some? && c1.drain.None? && op.OpAbandonDrain? ==> c1.state == Open && op.cycle == c.drain.value.id)
  }

  lemma StoreDrain(c: Coalescer, key: Key, e: Entry, es: seq<Event>)
    ensures var q := Store(c, key, e, es); q.drain == c.drain && q.state == c.state && q.nextId == c.nextId && q.admissions == c.admissions
  {
    hide Advance, AdvanceEvents;
  }

  lemma CompleteOutcome(c: Coalescer)
    ensures var q := CompleteDrain(c);
      && q.nextId == c.nextId
      && (q == c || (c.drain.Some? && q.drain.None? && q.state == if c.drain.value.failed then Open else Drained))
  {
  }

  lemma FinishDrain(g: Global, c: Coalescer, op: Op)
    requires Inv(c) && op.OpFinish?
    ensures DrainStep(c, op, Apply(g, c, op).1)
  {
    hide Store, CompleteDrain, KeysOk, ForceEntry, ReleaseWaiters;
    if Failure(c, op) || (c.Holds(op.key, op.entryId) && c.entries[op.key].activeBatch.Some?
                          && c.entries[op.key].activeBatch.value.id == op.batchId) {
      var batch := c.entries[op.key].activeBatch.value;
      var c1 := if op.failed && c.drain.Some? && (c.state == Quiescing || c.state == Draining)
                then c.(drain := Some(c.drain.value.(failed := true))) else c;
      var e1 := ReleaseWaiters(g, c.entries[op.key].(activeBatch := None, lastActivity := op.now), |batch.waiters|).1;
      var e2 := if c.state == Draining then ForceEntry(e1) else e1;
      StoreDrain(c1, op.key, e2, [Finish(batch.Members(), batch.waiters)]);
      CompleteOutcome(Store(c1, op.key, e2, [Finish(batch.Members(), batch.waiters)]));
    }
  }

  lemma BarrierDrain(g: Global, c: Coalescer, op: Op)
    requires Inv(c) && (op.OpCancelBarrier? || op.OpReleaseBarrier?)
    ensures DrainStep(c, op, Apply(g, c, op).1)
  {
    hide Store, CompleteDrain, KeysOk, ForceEntry, ReleaseWaiters, RemoveBarrier;
    if c.Holds(op.key, op.entryId) {
      var e := c.entries[op.key];
      if op.OpReleaseBarrier? {
        var e2 := ReleaseWaiters(g, e.(activeBarrier := None), 1).1.(lastActivity := op.now);
        var e3 := if c.state == Draining then ForceEntry(e2) else e2;
        StoreDrain(c, op.key, e3, [Release(op.b)]);
        CompleteOutcome(Store(c, op.key, e3, [Release(op.b)]));
      } else {
        var e1 := ReleaseWaiters(g, e.(queue := RemoveBarrier(e.queue, op.b)), 1).1.(lastActivity := op.now);
        StoreDrain(c, op.key, e1, [Withdraw(op.b)]);
        CompleteOutcome(Store(c, op.key, e1, [Withdraw(op.b)]));
      }
    }
  }

  lemma AdvanceOutcome(c: Coalescer)
    ensures var q := AdvanceDrain(c);
      && q.nextId == c.nextId
      && ((q.drain == c.drain) || (c.drain.Some? && q.drain.None? && q.state == if c.drain.value.failed then Open else Drained))
  {
    hide CompleteDrain, Advance, AdvanceEvents;
    CompleteOutcome(ReleaseQueues(c));
  }

  lemma StepDrain(g: Global, c: Coalescer, op: Op)
    requires Inv(c)
    ensures DrainStep(c, op, Apply(g, c, op).1)
  {
    hide Store, KeysOk, AdvanceDrain, QueueUpdate, QueueBarrier, MarkReady, Advance, AdvanceEvents, FinishDispatch, CancelBarrier,
      ReleaseBarrier;
    match op
    case OpFinish(_, _, _, _, _) => FinishDrain(g, c, op);
    case OpCancelBarrier(_, _, _, _) => BarrierDrain(g, c, op);
    case OpReleaseBarrier(_, _, _, _) => BarrierDrain(g, c, op);
    case OpEndIngress => AdvanceOutcome(c.(admissions := Minus(c.admissions, 1)));
    case OpBeginDrain =>
      AdvanceOutcome(c.(state := Quiescing, drain := Some(DrainCycle(c.nextId, false)), nextId := c.nextId + 1));
    case OpUpdate(key, now) =>
      if Fits(g, c, key, now) {
        UpdateDrain(g, c, key, now);
      }
    case OpStop(key, now) =>
      if Fits(g, c, key, now) {
        UpdateDrain(g, c, key, now);
      }
    case OpTimer(key, entryId, batchId, generation) =>
      if c.Holds(key, entryId) {
        StoreDrain(c, key, c.entries[key].(queue := MarkReady(c.entries[key].queue, batchId, generation)), []);
      }
    case _ =>
  }

  lemma UpdateDrain(g: Global, c: Coalescer, key: Key, now: int)
    requires Fits(g, c, key, now)
    ensures EnqueueUpdate(g, c, key, now).1.drain == c.drain && c.nextId <= EnqueueUpdate(g, c, key, now).1.nextId
    ensures EnqueueBarrier(g, c, key, now).1.drain == c.drain && c.nextId <= EnqueueBarrier(g, c, key, now).1.nextId
  {
    hide QueueUpdate, QueueBarrier, Advance, AdvanceEvents;
  }

  // ---------- over runs ----------

  /** In this run, a dispatch failed while this drain went on. */
  ghost predicate FailedDuring(config: Config, turns: seq<Turn>, cycle: nat) {
    exists m: nat :: FailedAt(config, turns, m, cycle)
  }

  ghost predicate FailedAt(config: Config, turns: seq<Turn>, m: nat, cycle: nat) {
    && m < |turns| && Failure(Run(config, turns[..m]), turns[m].op)
    && Run(config, turns[..m]).drain.Some? && Run(config, turns[..m]).drain.value.id == cycle
  }

  lemma FailedMore(config: Config, turns: seq<Turn>, t: Turn, cycle: nat)
    ensures FailedDuring(config, turns + [t], cycle) <==>
      FailedDuring(config, turns, cycle)
      || (Failure(Run(config, turns), t.op) && Run(config, turns).drain.Some? && Run(config, turns).drain.value.id == cycle)
  {
    hide Failure, Apply;
    var all, n := turns + [t], |turns|;
    assert all[..n] == turns && all[n] == t;
    forall m: nat | m < n ensures FailedAt(config, all, m, cycle) <==> FailedAt(config, turns, m, cycle) {
      assert all[..m] == turns[..m] && all[m] == turns[m];
    }
    if FailedDuring(config, all, cycle) {
      var m: nat :| FailedAt(config, all, m, cycle);
      assert m == n || FailedAt(config, turns, m, cycle);
    }
    if FailedDuring(config, turns, cycle) {
      var m: nat :| FailedAt(config, turns, m, cycle);
      assert FailedAt(config, all, m, cycle);
    }
    if Failure(Run(config, turns), t.op) && Run(config, turns).drain.Some? && Run(config, turns).drain.value.id == cycle {
      assert FailedAt(config, all, n, cycle);
    }
  }

  lemma RunStep(config: Config, turns: seq<Turn>)
    requires turns != []
    ensures var before, t := turns[..|turns| - 1], turns[|turns| - 1];
      && turns == before + [t] && Run(config, turns) == Apply(t.global, Run(config, before), t.op).1
      && DrainStep(Run(config, before), t.op, Run(config, turns))
  {
    hide Apply, DrainStep;
    var before, t := turns[..|turns| - 1], turns[|turns| - 1];
    RunOk(config, before);
    StepDrain(t.global, Run(config, before), t.op);
  }

  /** Drains have numbers of their own. */
  lemma {:induction false} NumbersBelow(config: Config, turns: seq<Turn>, cycle: nat)
    ensures Run(config, turns).drain.Some? ==> Run(config, turns).drain.value.id < Run(config, turns).nextId
    ensures FailedDuring(config, turns, cycle) ==> cycle < Run(config, turns).nextId
    decreases |turns|
  {
    hide Apply, Failure;
    if turns != [] {
      var before, t := turns[..|turns| - 1], turns[|turns| - 1];
      RunStep(config, turns);
      NumbersBelow(config, before, cycle);
      FailedMore(config, before, t, cycle);
    }
  }

  /** While a drain goes on, it is marked as failed exactly if a dispatch failed since it began. */
  lemma {:induction false} FailedExactly(config: Config, turns: seq<Turn>)
    requires Run(config, turns).drain.Some?
    ensures var d := Run(config, turns).drain.value; d.failed <==> FailedDuring(config, turns, d.id)
    decreases |turns|
  {
    hide Apply, Failure, FailedDuring;
    if turns != [] {
      var before, t := turns[..|turns| - 1], turns[|turns| - 1];
      var c, d := Run(config, before), Run(config, turns).drain.value;
      RunStep(config, turns);
      FailedMore(config, before, t, d.id);
      if c.drain.Some? {
        FailedExactly(config, before);
      } else {
        NumbersBelow(config, before, d.id);
      }
    }
  }

  /**
   How a drain ends, in every run: unless its caller gives it up, the site is open again
   if and only if a dispatch failed while it went on, and drained otherwise.
   */
  lemma DrainOutcome(config: Config, turns: seq<Turn>, t: Turn)
    requires var c, c1 := Run(config, turns), Run(config, turns + [t]); c.drain.Some? && c1.drain.None? && !t.op.OpAbandonDrain?
    ensures Run(config, turns + [t]).state
         == if FailedDuring(config, turns + [t], Run(config, turns).drain.value.id) then Open else Drained
  {
    hide Apply, Failure, FailedDuring, Run;
    assert (turns + [t])[..|turns|] == turns && (turns + [t])[|turns|] == t;
    RunStep(config, turns + [t]);
    FailedExactly(config, turns);
    FailedMore(config, turns, t, Run(config, turns).drain.value.id);
  }

  /** A drain that its caller gives up leaves the site open. */
  lemma DrainGivenUp(config: Config, turns: seq<Turn>, t: Turn)
    requires Run(config, turns).drain.Some? && t.op == OpAbandonDrain(Run(config, turns).drain.value.id)
    requires Run(config, turns).state != Closed
    ensures Run(config, turns + [t]).drain.None? && Run(config, turns + [t]).state == Open
    ensures Run(config, turns + [t]).entries == Run(config, turns).entries
  {
    hide KeysOk;
    assert (turns + [t])[..|turns|] == turns && (turns + [t])[|turns|] == t;
    RunOk(config, turns);
  }
}
