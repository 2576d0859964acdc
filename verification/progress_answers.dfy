/** What the coalescer answers at its edges: who may come in, which keys are forgotten, who withdrew in time. */
module ProgressAnswers {
  import opened Wrappers
  import opened ProgressFifo
  import opened ProgressSpec

  /** A request is let in exactly while the site is open, and is counted until it leaves. */
  lemma IngressExactly(c: Coalescer)
    ensures var (q, ok) := BeginIngress(c);
      (ok <==> c.state.Open?) && q == c.(admissions := if ok then c.admissions + 1 else c.admissions)
  {
  }

  /** A key with no work, no barrier and no client for as long as the configuration says, if it says so. */
  predicate Forgotten(c: Coalescer, key: Key, now: int) {
    && key in c.entries && c.config.idleExpiry > 0
    && var e := c.entries[key];
    && e.queue == [] && e.activeBatch.None? && e.activeBarrier.None? && e.waiters == 0
    && now >= e.lastActivity + c.config.idleExpiry
  }

  /** Exactly the forgotten keys go; each gives its place in the process back, and nothing else changes. */
  lemma CleanupExactly(g: Global, c: Coalescer, now: int)
    ensures var (h, q) := CleanupIdle(g, c, now);
      && (forall key :: key in q.entries <==> key in c.entries && !Forgotten(c, key, now))
      && (forall key :: key in q.entries ==> q.entries[key] == c.entries[key])
      && q == c.(entries := q.entries) && |q.entries| <= |c.entries|
      && h == g.(activeKeys := h.activeKeys)
      && (|c.entries| - |q.entries| <= g.activeKeys ==> h.activeKeys == g.activeKeys - (|c.entries| - |q.entries|))
  {
    var gone := set key | key in c.entries && ProgressSpec.Idle(c, c.entries[key], now);
    if c.config.idleExpiry > 0 {
      FewerKeys(c.entries, gone);
    }
  }

  lemma FewerKeys(entries: map<Key, Entry>, gone: set<Key>)
    requires gone <= entries.Keys
    ensures |entries - gone| == |entries| - |gone|
  {
    assert (entries - gone).Keys == entries.Keys - gone;
    assert |entries.Keys| == |entries| && |(entries - gone).Keys| == |entries - gone|;
  }

  predicate Live(c: Coalescer, key: Key, entryId: nat) {
    key in c.entries && c.entries[key].id == entryId
  }

  /**
   A client that gives its barrier up is told that it came too late exactly if the barrier is
   the one being served; one that is still queued is withdrawn, and gives its place back.
   */
  lemma CancelExactly(g: Global, c: Coalescer, key: Key, entryId: nat, b: nat, now: int)
    ensures var (h, q, late) := CancelBarrier(g, c, key, entryId, b, now);
      && (late <==> Live(c, key, entryId) && c.entries[key].activeBarrier == Some(b))
      && (late || !Live(c, key, entryId) || BarrierWork(b) !in c.entries[key].queue ==> h == g && q == c)
      && (!late && Live(c, key, entryId) && BarrierWork(b) in c.entries[key].queue ==>
            && key in q.entries && q.Log(key) != [] && c.Log(key) + [Withdraw(b)] <= q.Log(key)
            && (c.entries[key].waiters > 0 ==>
                  q.entries[key].waiters == c.entries[key].waiters - 1 && h.waiters == Minus(g.waiters, 1)))
  {
    hide RemoveBarrier;
  }
}
