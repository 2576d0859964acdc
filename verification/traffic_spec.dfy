/**
 The traffic of one site, counted twice: as totals and by the minute. Every atomic
 update and every critical section is one step; a flush holds the traffic lock from
 its first step to its last, and what it has taken is in its flight.
 */
module TrafficSpec {
  import opened Wrappers
  import opened MapSums

  /** Bytes in both directions and requests, of a minute or of a whole view. */
  datatype Amount = Amount(bytesIn: nat, bytesOut: nat, requests: nat)

  function Zero(): Amount {
    Amount(0, 0, 0)
  }

  function Plus(a: Amount, b: Amount): Amount {
    Amount(a.bytesIn + b.bytesIn, a.bytesOut + b.bytesOut, a.requests + b.requests)
  }

  type Minutes = map<int, Amount>

  function Added(minutes: Minutes, minute: int, amount: Amount): Minutes {
    minutes[minute := Plus(if minute in minutes then minutes[minute] else Zero(), amount)]
  }

  /** Every minute of b added to a. */
  function Merged(a: Minutes, b: Minutes): Minutes {
    map m | m in a.Keys + b.Keys :: Plus(if m in a then a[m] else Zero(), if m in b then b[m] else Zero())
  }

  ghost function Ins<K(!new)>(amounts: map<K, Amount>): map<K, nat> {
    map k | k in amounts :: amounts[k].bytesIn
  }

  ghost function Outs<K(!new)>(amounts: map<K, Amount>): map<K, nat> {
    map k | k in amounts :: amounts[k].bytesOut
  }

  ghost function Counts<K(!new)>(amounts: map<K, Amount>): map<K, nat> {
    map k | k in amounts :: amounts[k].requests
  }

  ghost function Total<K(!new)>(amounts: map<K, Amount>): Amount {
    Amount(Sum(Ins(amounts)), Sum(Outs(amounts)), Sum(Counts(amounts)))
  }

  /** Rest: a local add whose outgoing bytes are still to be counted; Counting: a finish that is not counted yet. */
  datatype Doing = Idle | Rest(bytesOut: nat) | Counting | Over

  /** local holds what a meter has counted in the totals and not yet given to a minute. */
  datatype Meter = Meter(started: int, local: Amount, streaming: bool, doing: Doing)

  /** Bytes and requests that are not stored yet, as totals and by the minute. */
  datatype Pending = Pending(bytesIn: nat, bytesOut: nat, requests: nat, minutes: Minutes)

  /** What the database holds, and the totals that the instance shows as persisted. */
  datatype Saved = Saved(bytesIn: nat, bytesOut: nat, minutes: Minutes, baseIn: nat, baseOut: nat)

  /** What a flush does next: take the rest, store, move the baseline, or put everything back. */
  datatype Stage = NoFlush | TakeOut | TakeRequests | TakeBuckets | Store | Settle(bytesIn: nat, bytesOut: nat)
                 | GiveOut | GiveRequests | GiveBuckets

  /** half: how many finishes were half done when the flush took the pending requests. */
  datatype Flush = Flush(stage: Stage, held: Pending, half: nat)

  /** Finishes that are in their minute, and those that are counted too. */
  datatype Finishes = Finishes(bucketed: nat, counted: nat)

  datatype Ledger = Ledger(pending: Pending, flush: Flush, saved: Saved, meters: map<nat, Meter>, finishes: Finishes)

  function Nothing(): Pending {
    Pending(0, 0, 0, map[])
  }

  function NoFlight(): Flush {
    Flush(NoFlush, Nothing(), 0)
  }

  function Empty(): Ledger {
    Ledger(Nothing(), NoFlight(), Saved(0, 0, map[], 0, 0), map[], Finishes(0, 0))
  }

  // ---------- meters ----------

  datatype MeterMove =
    | NewMeter(started: int)
    | AddLocal(bytesIn: nat, bytesOut: nat)
    | AddRest
    | Promote
    | AddStreaming(bytesIn: nat, bytesOut: nat, minute: int)
    | FinishBucket(minute: int)
    | FinishCount

  function WithMinute(p: Pending, minute: int, amount: Amount): Pending {
    p.(minutes := Added(p.minutes, minute, amount))
  }

  function WithBytes(p: Pending, bytesIn: nat, bytesOut: nat): Pending {
    p.(bytesIn := p.bytesIn + bytesIn, bytesOut := p.bytesOut + bytesOut)
  }

  /** The meter after its step; a step of a meter that is not there, or not at that point, is None. */
  function MeterAfter(meters: map<nat, Meter>, id: nat, move: MeterMove): Option<Meter> {
    if id !in meters then if move.NewMeter? then Some(Meter(move.started, Zero(), false, Idle)) else None
    else
      var m := meters[id];
      match move
      case NewMeter(_) => None
      case AddLocal(bytesIn, bytesOut) =>
        if !m.doing.Idle? || m.streaming then None
        else Some(m.(local := Plus(m.local, Amount(bytesIn, 0, 0)), doing := Rest(bytesOut)))
      case AddRest =>
        if !m.doing.Rest? then None
        else Some(m.(local := Plus(m.local, Amount(0, m.doing.bytesOut, 0)), doing := Idle))
      case Promote => if !m.doing.Idle? || m.streaming then None else Some(m.(local := Zero(), streaming := true))
      case AddStreaming(_, _, _) => if !m.doing.Idle? || !m.streaming then None else Some(m)
      case FinishBucket(_) => if !m.doing.Idle? then None else Some(m.(local := Zero(), doing := Counting))
      case FinishCount => if !m.doing.Counting? then None else Some(m.(doing := Over))
  }

  /** The pending counters after a meter's step; was is the meter before it. */
  function PendingAfter(p: Pending, was: Meter, move: MeterMove): Pending {
    match move
    case NewMeter(_) => p
    case AddLocal(bytesIn, _) => WithBytes(p, bytesIn, 0)
    case AddRest => if was.doing.Rest? then WithBytes(p, 0, was.doing.bytesOut) else p
    case Promote => if was.local == Zero() then p else WithMinute(p, was.started, was.local)
    case AddStreaming(bytesIn, bytesOut, minute) =>
      WithBytes(WithMinute(p, minute, Amount(bytesIn, bytesOut, 0)), bytesIn, bytesOut)
    case FinishBucket(minute) => WithMinute(p, minute, Plus(was.local, Amount(0, 0, 1)))
    case FinishCount => p.(requests := p.requests + 1)
  }

  /** Steps that need the traffic lock wait for a flush to end. */
  predicate NeedsLock(move: MeterMove) {
    move.NewMeter? || move.Promote? || move.AddStreaming? || move.FinishBucket?
  }

  function Was(meters: map<nat, Meter>, id: nat): Meter {
    if id in meters then meters[id] else Meter(0, Zero(), false, Over)
  }

  function FinishesAfter(f: Finishes, move: MeterMove): Finishes {
    if move.FinishBucket? then f.(bucketed := f.bucketed + 1)
    else if move.FinishCount? then f.(counted := f.counted + 1)
    else f
  }

  function MeterStep(l: Ledger, id: nat, move: MeterMove): Option<Ledger> {
    var m := MeterAfter(l.meters, id, move);
    if m.None? || (NeedsLock(move) && !l.flush.stage.NoFlush?) then None
    else
      Some(l.(pending := PendingAfter(l.pending, Was(l.meters, id), move), meters := l.meters[id := m.value],
              finishes := FinishesAfter(l.finishes, move)))
  }

  // ---------- flushes ----------

  datatype FlushMove = Start | NextTake(now: int) | Stored(ok: bool) | Settled | NextGive

  /** How many requests the buckets of a flush lack; they go to the current minute. */
  ghost function Missing(requests: nat, buckets: Minutes): nat {
    if requests > Total(buckets).requests then requests - Total(buckets).requests else 0
  }

  ghost function Completed(requests: nat, buckets: Minutes, now: int): Minutes {
    if Missing(requests, buckets) > 0 then Added(buckets, now, Amount(0, 0, Missing(requests, buckets))) else buckets
  }

  function TakenIn(l: Ledger): Ledger {
    l.(pending := l.pending.(bytesIn := 0), flush := Flush(TakeOut, Nothing().(bytesIn := l.pending.bytesIn), 0))
  }

  function TakenOut(l: Ledger): Ledger {
    l.(pending := l.pending.(bytesOut := 0),
       flush := l.flush.(held := l.flush.held.(bytesOut := l.pending.bytesOut), stage := TakeRequests))
  }

  function Half(f: Finishes): nat {
    if f.counted <= f.bucketed then f.bucketed - f.counted else 0
  }

  function TakenRequests(l: Ledger): Ledger {
    l.(pending := l.pending.(requests := 0),
       flush := Flush(TakeBuckets, l.flush.held.(requests := l.pending.requests), Half(l.finishes)))
  }

  ghost function TakenBuckets(l: Ledger, now: int): Ledger {
    var held := l.flush.held.(minutes := Completed(l.flush.held.requests, l.pending.minutes, now));
    l.(pending := l.pending.(minutes := map[]),
       flush := if held.bytesIn == 0 && held.bytesOut == 0 && held.requests == 0 && |held.minutes| == 0 then NoFlight()
                else l.flush.(held := held, stage := Store))
  }

  function StoredAll(l: Ledger): Ledger {
    var held := l.flush.held;
    l.(flush := NoFlight().(stage := Settle(held.bytesIn, held.bytesOut)),
       saved := l.saved.(bytesIn := l.saved.bytesIn + held.bytesIn, bytesOut := l.saved.bytesOut + held.bytesOut,
                         minutes := Merged(l.saved.minutes, held.minutes)))
  }

  function GivenIn(l: Ledger): Ledger {
    l.(pending := WithBytes(l.pending, l.flush.held.bytesIn, 0),
       flush := l.flush.(held := l.flush.held.(bytesIn := 0), stage := GiveOut))
  }

  function GivenOut(l: Ledger): Ledger {
    l.(pending := WithBytes(l.pending, 0, l.flush.held.bytesOut),
       flush := l.flush.(held := l.flush.held.(bytesOut := 0), stage := GiveRequests))
  }

  function GivenRequests(l: Ledger): Ledger {
    l.(pending := l.pending.(requests := l.pending.requests + l.flush.held.requests),
       flush := l.flush.(held := l.flush.held.(requests := 0), stage := GiveBuckets))
  }

  function GivenBuckets(l: Ledger): Ledger {
    l.(pending := l.pending.(minutes := Merged(l.pending.minutes, l.flush.held.minutes)), flush := NoFlight())
  }

  function BaseMoved(l: Ledger, bytesIn: nat, bytesOut: nat): Ledger {
    l.(saved := l.saved.(baseIn := l.saved.baseIn + bytesIn, baseOut := l.saved.baseOut + bytesOut), flush := NoFlight())
  }

  ghost function FlushStep(l: Ledger, move: FlushMove): Option<Ledger> {
    var stage := l.flush.stage;
    match move
    case Start => if stage.NoFlush? then Some(TakenIn(l)) else None
    case NextTake(now) =>
      if stage.TakeOut? then Some(TakenOut(l))
      else if stage.TakeRequests? then Some(TakenRequests(l))
      else if stage.TakeBuckets? then Some(TakenBuckets(l, now))
      else None
    case Stored(ok) => if !stage.Store? then None else if ok then Some(StoredAll(l)) else Some(GivenIn(l))
    case Settled => if stage.Settle? then Some(BaseMoved(l, stage.bytesIn, stage.bytesOut)) else None
    case NextGive =>
      if stage.GiveOut? then Some(GivenOut(l))
      else if stage.GiveRequests? then Some(GivenRequests(l))
      else if stage.GiveBuckets? then Some(GivenBuckets(l))
      else None
  }

  datatype Move = OfMeter(id: nat, meter: MeterMove) | OfFlush(flush: FlushMove)

  ghost function Apply(l: Ledger, move: Move): Option<Ledger> {
    match move
    case OfMeter(id, m) => MeterStep(l, id, m)
    case OfFlush(f) => FlushStep(l, f)
  }

  // ---------- the two views ----------

  ghost function Locals(meters: map<nat, Meter>): map<nat, Amount> {
    map id | id in meters :: meters[id].local
  }

  /** The totals: in the database, in a flush, and pending. */
  function TotalsOf(l: Ledger): Amount {
    Amount(l.saved.bytesIn + l.flush.held.bytesIn + l.pending.bytesIn,
           l.saved.bytesOut + l.flush.held.bytesOut + l.pending.bytesOut, l.flush.held.requests + l.pending.requests)
  }

  /** The minutes: in the database, in a flush, and pending, with what unfinished meters hold. */
  ghost function MinutesOf(l: Ledger): Amount {
    Plus(Plus(Total(l.saved.minutes), Total(l.flush.held.minutes)), Plus(Total(l.pending.minutes), Total(Locals(l.meters))))
  }

  // ---------- sums ----------

  lemma TotalStore<K(!new)>(amounts: map<K, Amount>, k: K, a: Amount)
    ensures Plus(Total(amounts[k := a]), if k in amounts then amounts[k] else Zero()) == Plus(Total(amounts), a)
  {
    Projected(amounts, k, a);
    hide Ins, Outs, Counts, Sum;
    SumStore(Ins(amounts), k, a.bytesIn);
    SumStore(Outs(amounts), k, a.bytesOut);
    SumStore(Counts(amounts), k, a.requests);
  }

  lemma Projected<K(!new)>(amounts: map<K, Amount>, k: K, a: Amount)
    ensures Ins(amounts[k := a]) == Ins(amounts)[k := a.bytesIn]
    ensures Outs(amounts[k := a]) == Outs(amounts)[k := a.bytesOut]
    ensures Counts(amounts[k := a]) == Counts(amounts)[k := a.requests]
    ensures (k in Ins(amounts) <==> k in amounts) && (k in amounts ==> Ins(amounts)[k] == amounts[k].bytesIn)
    ensures (k in Outs(amounts) <==> k in amounts) && (k in amounts ==> Outs(amounts)[k] == amounts[k].bytesOut)
    ensures (k in Counts(amounts) <==> k in amounts) && (k in amounts ==> Counts(amounts)[k] == amounts[k].requests)
  {
  }

  lemma TotalAdded(minutes: Minutes, minute: int, a: Amount)
    ensures Total(Added(minutes, minute, a)) == Plus(Total(minutes), a)
  {
    hide Total;
    TotalStore(minutes, minute, Plus(if minute in minutes then minutes[minute] else Zero(), a));
  }

  lemma TotalEmpty<K(!new)>(none: map<K, Amount>)
    requires none == map[]
    ensures Total(none) == Zero()
  {
    assert Ins(none) == map[] && Outs(none) == map[] && Counts(none) == map[];
  }

  lemma {:induction false} TotalMerged(a: Minutes, b: Minutes)
    ensures Total(Merged(a, b)) == Plus(Total(a), Total(b))
    decreases |b|
  {
    hide Total, Merged, Added;
    if b == map[] {
      MergedNone(a, b);
      TotalEmpty(b);
    } else {
      var k := SomeKey(b);
      TotalMerged(a, b - {k});
      MergedTotal(a, b, k);
    }
  }

  lemma MergedTotal(a: Minutes, b: Minutes, k: int)
    requires k in b && Total(Merged(a, b - {k})) == Plus(Total(a), Total(b - {k}))
    ensures Total(Merged(a, b)) == Plus(Total(a), Total(b))
  {
    hide Total, Merged, Added;
    var merged := Merged(a, b - {k});
    var less := b - {k};
    TotalAdded(merged, k, b[k]);
    TotalStore(less, k, b[k]);
    MergedOne(a, b, k);
  }

  lemma SomeKey<K(!new)>(b: map<K, Amount>) returns (k: K)
    requires b != map[]
    ensures k in b && |b - {k}| < |b|
  {
    assert |b| != 0;
    k :| k in b;
    assert (b - {k}).Keys == b.Keys - {k};
  }

  lemma MergedNone(a: Minutes, b: Minutes)
    requires b == map[]
    ensures Merged(a, b) == a
  {
    assert Merged(a, b).Keys == a.Keys;
    assert forall m :: m in a ==> Merged(a, b)[m] == a[m];
  }

  lemma MergedOne(a: Minutes, b: Minutes, k: int)
    requires k in b
    ensures Merged(a, b) == Added(Merged(a, b - {k}), k, b[k])
    ensures k !in b - {k} && (b - {k})[k := b[k]] == b
  {
    var less := Merged(a, b - {k});
    assert k in less <==> k in a;
    assert Added(less, k, b[k]).Keys == Merged(a, b).Keys;
  }
}
