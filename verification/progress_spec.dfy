/**
 The progress coalescer as a state machine: one function per critical section under
 the coalescer's lock. Pointers of the implementation (entries, batches, waiters,
 barriers, drain cycles) are numbers drawn from nextId; the waiter of an update and
 the update itself share one number. Fields logs and Batch.superseded are history:
 no function reads them to decide anything.
 */
module ProgressSpec {
  import opened Wrappers
  import opened ProgressFifo

  datatype Identity = Identity(sessionId: string, playSessionId: string, itemId: string)

  datatype Key = Key(identity: Identity, credential: string)

  datatype Config = Config(debounce: int, maxDispatchDelay: int, idleExpiry: int, maxSiteKeys: int, maxWaitersPerKey: int)

  /** The process-wide counters shared by the coalescers of all sites. */
  datatype Global = Global(activeKeys: nat, waiters: nat, maxActiveKeys: int, maxWaiters: int)

  datatype Batch = Batch(
    id: nat,
    superseded: seq<nat>,       // accepted updates whose request was replaced by a later one
    request: nat,               // the newest update: the request that will be sent
    waiters: set<nat>,          // updates of this batch whose client still waits
    firstArrival: int,
    lastArrival: int,
    ready: bool,
    timer: Option<int>,         // deadline of the armed timer
    timerGeneration: nat)
  {
    function Members(): seq<nat> { superseded + [request] }
  }

  datatype Work = BatchWork(batch: Batch) | BarrierWork(barrier: nat)

  datatype Entry = Entry(
    id: nat,
    queue: seq<Work>,
    activeBatch: Option<Batch>,
    activeBarrier: Option<nat>,
    waiters: nat,
    lastActivity: int)
  {
    predicate Inactive() { activeBatch.None? && activeBarrier.None? }
    predicate Busy() { !Inactive() || queue != [] }
  }

  datatype Phase = Open | Quiescing | Draining | Drained | Closed

  datatype DrainCycle = DrainCycle(id: nat, failed: bool)

  datatype Coalescer = Coalescer(
    config: Config,
    entries: map<Key, Entry>,
    state: Phase,
    drain: Option<DrainCycle>,
    admissions: nat,
    nextId: nat,
    logs: map<Key, seq<Event>>)
  {
    function Log(key: Key): seq<Event> { if key in logs then logs[key] else [] }

    /** entry is the live object behind key: the pointer comparison of every critical section. */
    predicate Holds(key: Key, entryId: nat) { key in entries && entries[key].id == entryId }
  }

  // ---------- process-wide counters ----------

  predicate KeyAvailable(g: Global) {
    g.maxActiveKeys > 0 && g.activeKeys < g.maxActiveKeys
  }

  predicate WaiterAvailable(g: Global) {
    g.maxWaiters > 0 && g.waiters < g.maxWaiters
  }

  function Minus(a: nat, b: nat): nat {
    if a < b then 0 else a - b
  }

  function Min(a: int, b: int): int {
    if a < b then a else b
  }

  function ReleaseKeys(g: Global, n: nat): Global {
    g.(activeKeys := Minus(g.activeKeys, n))
  }

  // ---------- one entry ----------

  function ScheduleBatch(config: Config, batch: Batch, now: int): Batch {
    var deadline := Min(now + config.debounce, batch.firstArrival + config.maxDispatchDelay);
    if batch.ready then batch
    else if deadline <= now then batch.(ready := true, timer := None)
    else batch.(timerGeneration := batch.timerGeneration + 1, timer := Some(deadline))
  }

  function ForceWork(w: Work): Work {
    if w.BatchWork? then BatchWork(w.batch.(ready := true, timerGeneration := w.batch.timerGeneration + 1, timer := None)) else w
  }

  function ForceQueue(queue: seq<Work>): (forced: seq<Work>)
    ensures |forced| == |queue|
  {
    seq(|queue|, i requires 0 <= i < |queue| => ForceWork(queue[i]))
  }

  predicate CanAdvance(e: Entry) {
    e.Inactive() && e.queue != [] && (e.queue[0].BatchWork? ==> e.queue[0].batch.ready)
  }

  function Advance(e: Entry): Entry {
    if !CanAdvance(e) then e
    else if e.queue[0].BatchWork? then e.(queue := e.queue[1..], activeBatch := Some(e.queue[0].batch))
    else e.(queue := e.queue[1..], activeBarrier := Some(e.queue[0].barrier))
  }

  function AdvanceEvents(e: Entry): seq<Event> {
    if !CanAdvance(e) then []
    else if e.queue[0].BatchWork? then [Start(e.queue[0].batch.Members())]
    else [Grant(e.queue[0].barrier)]
  }

  /** releaseWaiterLocked, n times. */
  function ReleaseWaiters(g: Global, e: Entry, n: nat): (Global, Entry) {
    var k := Min(n, e.waiters);
    (g.(waiters := Minus(g.waiters, k)), e.(waiters := e.waiters - k))
  }

  function NewBatch(r: nat, now: int): Batch {
    Batch(r, [], r, {}, now, now, false, None, 0)
  }

  function Supersede(batch: Batch, r: nat, now: int): Batch {
    batch.(superseded := batch.superseded + [batch.request], request := r, lastArrival := now)
  }

  function TakeWaiter(config: Config, batch: Batch, r: nat, now: int): Batch {
    ScheduleBatch(config, batch.(waiters := batch.waiters + {r}), now)
  }

  function QueueUpdate(config: Config, queue: seq<Work>, r: nat, now: int): seq<Work> {
    var merge := queue != [] && queue[|queue| - 1].BatchWork?;
    var batch := if merge then Supersede(queue[|queue| - 1].batch, r, now) else NewBatch(r, now);
    var kept := if merge then queue[..|queue| - 1] else queue;
    kept + [BatchWork(TakeWaiter(config, batch, r, now))]
  }

  function QueueBarrier(queue: seq<Work>, b: nat): seq<Work> {
    ForceQueue(queue) + [BarrierWork(b)]
  }

  function RemoveBarrier(queue: seq<Work>, b: nat): seq<Work> {
    if queue == [] then []
    else if queue[0] == BarrierWork(b) then queue[1..]
    else [queue[0]] + RemoveBarrier(queue[1..], b)
  }

  function RemoveWaiter(queue: seq<Work>, r: nat): seq<Work> {
    if queue == [] then []
    else if queue[0].BatchWork? && r in queue[0].batch.waiters then
      [BatchWork(queue[0].batch.(waiters := queue[0].batch.waiters - {r}))] + queue[1..]
    else [queue[0]] + RemoveWaiter(queue[1..], r)
  }

  predicate QueueWaits(queue: seq<Work>, r: nat) {
    exists i :: 0 <= i < |queue| && queue[i].BatchWork? && r in queue[i].batch.waiters
  }

  predicate ActiveWaits(e: Entry, r: nat) {
    e.activeBatch.Some? && r in e.activeBatch.value.waiters
  }

  function DropWaiter(e: Entry, r: nat): Entry {
    if ActiveWaits(e, r) then e.(activeBatch := Some(e.activeBatch.value.(waiters := e.activeBatch.value.waiters - {r})))
    else e.(queue := RemoveWaiter(e.queue, r))
  }

  function MarkReady(queue: seq<Work>, batchId: nat, generation: nat): seq<Work> {
    if queue == [] then []
    else if queue[0].BatchWork? && queue[0].batch.id == batchId then
      (if queue[0].batch.timerGeneration == generation && !queue[0].batch.ready
       then [BatchWork(queue[0].batch.(ready := true, timer := None))] + queue[1..] else queue)
    else [queue[0]] + MarkReady(queue[1..], batchId, generation)
  }

  // ---------- the coalescer ----------

  /** Stores the new entry of key, having let its queue move on; es records what happened before that. */
  function Store(c: Coalescer, key: Key, e: Entry, es: seq<Event>): Coalescer {
    c.(entries := c.entries[key := Advance(e)], logs := c.logs[key := c.Log(key) + es + AdvanceEvents(e)])
  }

  function CompleteDrain(c: Coalescer): Coalescer {
    if c.state != Draining || c.drain.None? || c.admissions != 0 then c
    else if exists key :: key in c.entries && c.entries[key].Busy() then c
    else c.(drain := None, state := if c.drain.value.failed then Open else Drained)
  }

  function ForceEntry(e: Entry): Entry {
    e.(queue := ForceQueue(e.queue))
  }

  /** Every queued batch becomes ready and every idle key starts on its queue. */
  function ReleaseQueues(c: Coalescer): Coalescer {
    c.(state := Draining,
       entries := map key | key in c.entries :: Advance(ForceEntry(c.entries[key])),
       logs := map key | key in c.logs :: c.Log(key) + if key in c.entries then AdvanceEvents(ForceEntry(c.entries[key])) else [])
  }

  function AdvanceDrain(c: Coalescer): Coalescer {
    if c.state != Quiescing || c.drain.None? || c.admissions != 0 then c
    else CompleteDrain(ReleaseQueues(c))
  }

  function BeginIngress(c: Coalescer): (Coalescer, bool) {
    if c.state != Open then (c, false) else (c.(admissions := c.admissions + 1), true)
  }

  function EndIngress(c: Coalescer): Coalescer {
    AdvanceDrain(c.(admissions := Minus(c.admissions, 1)))
  }

  predicate Idle(c: Coalescer, e: Entry, now: int) {
    !e.Busy() && e.waiters == 0 && now - e.lastActivity >= c.config.idleExpiry
  }

  function CleanupIdle(g: Global, c: Coalescer, now: int): (Global, Coalescer) {
    if c.config.idleExpiry <= 0 then (g, c)
    else
      var gone := set key | key in c.entries && Idle(c, c.entries[key], now);
      (ReleaseKeys(g, |gone|), c.(entries := c.entries - gone))
  }

  predicate Admits(c: Coalescer) {
    c.state == Open || c.state == Quiescing
  }

  predicate KeyFits(g: Global, c: Coalescer, key: Key) {
    key in c.entries || (c.config.maxSiteKeys > 0 && |c.entries| < c.config.maxSiteKeys && KeyAvailable(g))
  }

  /** getOrCreateEntryLocked, where the key fits. */
  function WithEntry(g: Global, c: Coalescer, key: Key, now: int): (Global, Coalescer) {
    if key in c.entries then (g, c)
    else (g.(activeKeys := g.activeKeys + 1),
          c.(entries := c.entries[key := Entry(c.nextId, [], None, None, 0, now)],
             logs := c.logs[key := c.Log(key)],
             nextId := c.nextId + 1))
  }

  predicate WaiterFits(g: Global, c: Coalescer, e: Entry) {
    c.config.maxWaitersPerKey > 0 && e.waiters < c.config.maxWaitersPerKey && WaiterAvailable(g)
  }

  /** Whether a new request for key passes the admission limits. */
  predicate Fits(g: Global, c: Coalescer, key: Key, now: int) {
    Admits(c) && KeyFits(g, c, key) &&
    var (g1, c1) := WithEntry(g, c, key, now);
    WaiterFits(g1, c1, c1.entries[key])
  }

  /** A refused request leaves no entry behind that it created. */
  function Refuse(g: Global, c: Coalescer, key: Key, now: int): (Global, Coalescer) {
    if !Admits(c) || !KeyFits(g, c, key) || key in c.entries then (g, c)
    else
      var (g1, c1) := WithEntry(g, c, key, now);
      (ReleaseKeys(g1, 1), c1.(entries := c.entries))
  }

  function EnqueueUpdate(g: Global, c: Coalescer, key: Key, now: int): (Global, Coalescer, Option<nat>) {
    if !Fits(g, c, key, now) then
      var (g1, c1) := Refuse(g, c, key, now);
      (g1, c1, None)
    else
      var (g1, c1) := WithEntry(g, c, key, now);
      var e, r := c1.entries[key], c1.nextId;
      var e1 := e.(waiters := e.waiters + 1, queue := QueueUpdate(c.config, e.queue, r, now), lastActivity := now);
      (g1.(waiters := g1.waiters + 1), Store(c1.(nextId := r + 1), key, e1, [Accept(r)]), Some(r))
  }

  function EnqueueBarrier(g: Global, c: Coalescer, key: Key, now: int): (Global, Coalescer, Option<nat>) {
    if !Fits(g, c, key, now) then
      var (g1, c1) := Refuse(g, c, key, now);
      (g1, c1, None)
    else
      var (g1, c1) := WithEntry(g, c, key, now);
      var e, b := c1.entries[key], c1.nextId;
      var e1 := e.(waiters := e.waiters + 1, queue := QueueBarrier(e.queue, b), lastActivity := now);
      (g1.(waiters := g1.waiters + 1), Store(c1.(nextId := b + 1), key, e1, [Stop(b)]), Some(b))
  }

  /** A timer callback: stale generations and replaced entries change nothing. */
  function MarkBatchReady(c: Coalescer, key: Key, entryId: nat, batchId: nat, generation: nat): Coalescer {
    if !c.Holds(key, entryId) || c.state == Closed then c
    else
      var e := c.entries[key];
      var queue := MarkReady(e.queue, batchId, generation);
      if queue == e.queue then c else Store(c, key, e.(queue := queue), [])
  }

  function FinishDispatch(g: Global, c: Coalescer, key: Key, entryId: nat, batchId: nat, failed: bool, now: int): (Global, Coalescer) {
    if !c.Holds(key, entryId) || c.entries[key].activeBatch.None? || c.entries[key].activeBatch.value.id != batchId then (g, c)
    else
      var batch := c.entries[key].activeBatch.value;
      var c1 := if failed && c.drain.Some? && (c.state == Quiescing || c.state == Draining)
                then c.(drain := Some(c.drain.value.(failed := true))) else c;
      var (g1, e1) := ReleaseWaiters(g, c.entries[key].(activeBatch := None, lastActivity := now), |batch.waiters|);
      var e2 := if c.state == Draining then ForceEntry(e1) else e1;
      (g1, CompleteDrain(Store(c1, key, e2, [Finish(batch.Members(), batch.waiters)])))
  }

  /** The client of update r gives up. */
  function LeaveWaiter(g: Global, c: Coalescer, key: Key, entryId: nat, r: nat, now: int): (Global, Coalescer) {
    if !c.Holds(key, entryId) || !(ActiveWaits(c.entries[key], r) || QueueWaits(c.entries[key].queue, r)) then (g, c)
    else
      var (g1, e1) := ReleaseWaiters(g, DropWaiter(c.entries[key], r), 1);
      (g1, c.(entries := c.entries[key := e1.(lastActivity := now)], logs := c.logs[key := c.Log(key) + [Leave(r)]]))
  }

  /** The client of barrier b gives up; the flag says that the barrier was granted first. */
  function CancelBarrier(g: Global, c: Coalescer, key: Key, entryId: nat, b: nat, now: int): (Global, Coalescer, bool) {
    if !c.Holds(key, entryId) then (g, c, false)
    else if c.entries[key].activeBarrier == Some(b) then (g, c, true)
    else if BarrierWork(b) !in c.entries[key].queue then (g, c, false)
    else
      var e := c.entries[key];
      var (g1, e1) := ReleaseWaiters(g, e.(queue := RemoveBarrier(e.queue, b)), 1);
      (g1, CompleteDrain(Store(c, key, e1.(lastActivity := now), [Withdraw(b)])), false)
  }

  function ReleaseBarrier(g: Global, c: Coalescer, key: Key, entryId: nat, b: nat, now: int): (Global, Coalescer) {
    if !c.Holds(key, entryId) || c.entries[key].activeBarrier != Some(b) then (g, c)
    else
      var (g1, e1) := ReleaseWaiters(g, c.entries[key].(activeBarrier := None), 1);
      var e2 := e1.(lastActivity := now);
      var e3 := if c.state == Draining then ForceEntry(e2) else e2;
      (g1, CompleteDrain(Store(c, key, e3, [Release(b)])))
  }

  /** Starts a drain cycle; in any phase but Open there is nothing to start. */
  function BeginDrain(c: Coalescer): Coalescer {
    if c.state != Open then c
    else AdvanceDrain(c.(state := Quiescing, drain := Some(DrainCycle(c.nextId, false)), nextId := c.nextId + 1))
  }

  /** The caller of Drain gives up waiting for its cycle. */
  function AbandonDrain(c: Coalescer, cycle: nat): Coalescer {
    if (c.state == Quiescing || c.state == Draining) && c.drain.Some? && c.drain.value.id == cycle
    then c.(state := Open, drain := None) else c
  }

  function Close(g: Global, c: Coalescer): (Global, Coalescer) {
    if c.state == Closed then (g, c)
    else (ReleaseKeys(g, |c.entries|), c.(state := Closed, entries := map[]))
  }

  // ---------- steps ----------

  datatype Op =
    | OpBeginIngress
    | OpEndIngress
    | OpCleanup(now: int)
    | OpUpdate(key: Key, now: int)
    | OpStop(key: Key, now: int)
    | OpTimer(key: Key, entryId: nat, batchId: nat, generation: nat)
    | OpFinish(key: Key, entryId: nat, batchId: nat, failed: bool, now: int)
    | OpLeave(key: Key, entryId: nat, r: nat, now: int)
    | OpCancelBarrier(key: Key, entryId: nat, b: nat, now: int)
    | OpReleaseBarrier(key: Key, entryId: nat, b: nat, now: int)
    | OpBeginDrain
    | OpAbandonDrain(cycle: nat)
    | OpClose

  function Apply(g: Global, c: Coalescer, op: Op): (Global, Coalescer) {
    match op
    case OpBeginIngress => (g, BeginIngress(c).0)
    case OpEndIngress => (g, EndIngress(c))
    case OpCleanup(now) => CleanupIdle(g, c, now)
    case OpUpdate(key, now) => var r := EnqueueUpdate(g, c, key, now); (r.0, r.1)
    case OpStop(key, now) => var r := EnqueueBarrier(g, c, key, now); (r.0, r.1)
    case OpTimer(key, entryId, batchId, generation) => (g, MarkBatchReady(c, key, entryId, batchId, generation))
    case OpFinish(key, entryId, batchId, failed, now) => FinishDispatch(g, c, key, entryId, batchId, failed, now)
    case OpLeave(key, entryId, r, now) => LeaveWaiter(g, c, key, entryId, r, now)
    case OpCancelBarrier(key, entryId, b, now) => var r := CancelBarrier(g, c, key, entryId, b, now); (r.0, r.1)
    case OpReleaseBarrier(key, entryId, b, now) => ReleaseBarrier(g, c, key, entryId, b, now)
    case OpBeginDrain => (g, BeginDrain(c))
    case OpAbandonDrain(cycle) => (g, AbandonDrain(c, cycle))
    case OpClose => Close(g, c)
  }

  function Start0(config: Config): Coalescer {
    Coalescer(config, map[], Open, None, 0, 0, map[])
  }
}
