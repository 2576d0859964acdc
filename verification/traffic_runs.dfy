/** Every interleaving of meters and flushes keeps the two views of the traffic together. */
module TrafficRuns {
  import opened Wrappers
  import opened MapSums
  import opened TrafficSpec

  // ---------- what every step keeps ----------

  ghost predicate BytesAgree(l: Ledger) {
    TotalsOf(l).bytesIn == MinutesOf(l).bytesIn && TotalsOf(l).bytesOut == MinutesOf(l).bytesOut
  }

  predicate MeterOk(m: Meter) {
    m.local.requests == 0 && (m.streaming || m.doing.Counting? || m.doing.Over? ==> m.local == Zero())
    && (m.streaming ==> !m.doing.Rest?)
  }

  ghost predicate MetersOk(meters: map<nat, Meter>) {
    forall id :: id in meters ==> MeterOk(meters[id])
  }

  ghost function HalfDone(meters: map<nat, Meter>): set<nat> {
    set id | id in meters && meters[id].doing.Counting?
  }

  /** The shown baseline is what is stored, up to the flush that is about to move it. */
  predicate BaseOk(l: Ledger) {
    var s := l.saved;
    if l.flush.stage.Settle? then s.baseIn + l.flush.stage.bytesIn == s.bytesIn && s.baseOut + l.flush.stage.bytesOut == s.bytesOut
    else s.baseIn == s.bytesIn && s.baseOut == s.bytesOut
  }

  /** What a flush has and has not taken at each of its stages, by totals. */
  ghost predicate StageOk(l: Ledger) {
    var stage := l.flush.stage;
    && (stage.NoFlush? || stage.Settle? ==> HoldsNothing(l.flush.held))
    && (stage.TakeOut? ==> l.flush.held.bytesOut == 0)
    && (stage.TakeOut? || stage.TakeRequests? ==> l.flush.held.requests == 0)
    && (stage.TakeOut? || stage.TakeRequests? || stage.TakeBuckets? ==> Total(l.flush.held.minutes) == Zero())
    && (stage.TakeBuckets? || stage.Store? ==> l.flush.half == l.pending.requests + Half(l.finishes))
    && (stage.Store? ==>
          Total(l.pending.minutes) == Zero() && l.flush.held.requests <= Total(l.flush.held.minutes).requests)
    && (stage.GiveOut? || stage.GiveRequests? || stage.GiveBuckets? ==> l.flush.held.bytesIn == 0)
    && (stage.GiveRequests? || stage.GiveBuckets? ==> l.flush.held.bytesOut == 0)
    && (stage.GiveBuckets? ==> l.flush.held.requests == 0)
  }

  ghost predicate HoldsNothing(p: Pending) {
    p.bytesIn == 0 && p.bytesOut == 0 && p.requests == 0 && Total(p.minutes) == Zero()
  }

  ghost function BucketRequests(l: Ledger): nat {
    Total(l.flush.held.minutes).requests + Total(l.pending.minutes).requests
  }

  /** A finish is in its minute before it is counted; no minute has fewer requests than were given to it. */
  ghost predicate RequestsOk(l: Ledger) {
    var f := l.finishes;
    && f.counted <= f.bucketed && |HalfDone(l.meters)| == f.bucketed - f.counted
    && f.bucketed <= Total(l.saved.minutes).requests + BucketRequests(l)
    && BucketRequests(l) <= l.flush.held.requests + l.pending.requests + f.bucketed - f.counted
  }

  ghost predicate Inv(l: Ledger) {
    BytesAgree(l) && MetersOk(l.meters) && BaseOk(l) && StageOk(l) && RequestsOk(l)
  }

  /** Requests in the database and pending, beyond those that were counted. */
  ghost function Excess(l: Ledger): int {
    Total(l.saved.minutes).requests + l.flush.held.requests + l.pending.requests - l.finishes.counted
  }

  // ---------- meters ----------

  lemma LocalsStore(meters: map<nat, Meter>, id: nat, m: Meter)
    ensures Plus(Total(Locals(meters[id := m])), if id in meters then meters[id].local else Zero())
         == Plus(Total(Locals(meters)), m.local)
  {
    hide Total;
    assert Locals(meters[id := m]) == Locals(meters)[id := m.local];
    TotalStore(Locals(meters), id, m.local);
  }

  /** What a meter's step puts into a minute. */
  function Gets(was: Meter, move: MeterMove): Amount {
    match move
    case Promote => was.local
    case AddStreaming(bytesIn, bytesOut, _) => Amount(bytesIn, bytesOut, 0)
    case FinishBucket(_) => Plus(was.local, Amount(0, 0, 1))
    case _ => Zero()
  }

  lemma MinuteGets(p: Pending, was: Meter, move: MeterMove)
    requires MeterOk(was)
    ensures Total(PendingAfter(p, was, move).minutes) == Plus(Total(p.minutes), Gets(was, move))
  {
    hide Total, Added;
    match move
    case Promote => TotalAdded(p.minutes, was.started, was.local);
    case AddStreaming(i, o, minute) => TotalAdded(p.minutes, minute, Amount(i, o, 0));
    case FinishBucket(minute) => TotalAdded(p.minutes, minute, Plus(was.local, Amount(0, 0, 1)));
    case _ =>
  }

  lemma WasOk(meters: map<nat, Meter>, id: nat)
    requires MetersOk(meters)
    ensures MeterOk(Was(meters, id))
    ensures Was(meters, id).local == if id in meters then meters[id].local else Zero()
  {
  }

  lemma MeterBytes(l: Ledger, id: nat, move: MeterMove)
    requires BytesAgree(l) && MetersOk(l.meters) && MeterStep(l, id, move).Some?
    ensures BytesAgree(MeterStep(l, id, move).value)
  {
    hide Total, MeterAfter, PendingAfter, MetersOk, Added, Was, Locals, MeterOk;
    var was := Was(l.meters, id);
    WasOk(l.meters, id);
    MinuteGets(l.pending, was, move);
    LocalsStore(l.meters, id, MeterAfter(l.meters, id, move).value);
    Given(l, id, move);
  }

  /** The bytes that a step adds to the totals are those that it adds to the minute or keeps. */
  lemma Given(l: Ledger, id: nat, move: MeterMove)
    requires MetersOk(l.meters) && MeterAfter(l.meters, id, move).Some?
    ensures var was := Was(l.meters, id); var m := MeterAfter(l.meters, id, move).value;
      var p := PendingAfter(l.pending, was, move); var gets := Gets(was, move);
      && p.bytesIn + was.local.bytesIn == l.pending.bytesIn + m.local.bytesIn + gets.bytesIn
      && p.bytesOut + was.local.bytesOut == l.pending.bytesOut + m.local.bytesOut + gets.bytesOut
      && p.requests == l.pending.requests + (if move.FinishCount? then 1 else 0)
      && gets.requests == (if move.FinishBucket? then 1 else 0)
      && MeterOk(m)
  {
    hide Added, MetersOk, Was;
    WasOk(l.meters, id);
    if id in l.meters {
      assert Was(l.meters, id) == l.meters[id] by { WasIs(l.meters, id); }
    }
    GivenBy(l.pending, Was(l.meters, id), l.meters, id, move);
  }

  lemma WasIs(meters: map<nat, Meter>, id: nat)
    requires id in meters
    ensures Was(meters, id) == meters[id]
  {
  }

  lemma GivenBy(p: Pending, was: Meter, meters: map<nat, Meter>, id: nat, move: MeterMove)
    requires MeterOk(was) && MeterAfter(meters, id, move).Some?
    requires if id in meters then was == meters[id] else was.local == Zero()
    ensures var m := MeterAfter(meters, id, move).value; var e := PendingAfter(p, was, move); var gets := Gets(was, move);
      && e.bytesIn + was.local.bytesIn == p.bytesIn + m.local.bytesIn + gets.bytesIn
      && e.bytesOut + was.local.bytesOut == p.bytesOut + m.local.bytesOut + gets.bytesOut
      && e.requests == p.requests + (if move.FinishCount? then 1 else 0)
      && gets.requests == (if move.FinishBucket? then 1 else 0)
      && MeterOk(m)
  {
    hide Added;
  }

  lemma HalvesAfter(meters: map<nat, Meter>, id: nat, move: MeterMove)
    requires MeterAfter(meters, id, move).Some?
    ensures var after := HalfDone(meters[id := MeterAfter(meters, id, move).value]);
      |after| == |HalfDone(meters)| + (if move.FinishBucket? then 1 else if move.FinishCount? then -1 else 0)
  {
    var after := HalfDone(meters[id := MeterAfter(meters, id, move).value]);
    if move.FinishBucket? {
      assert after == HalfDone(meters) + {id} && id !in HalfDone(meters);
    } else if move.FinishCount? {
      assert after == HalfDone(meters) - {id} && id in HalfDone(meters);
    } else {
      assert after == HalfDone(meters);
    }
  }

  lemma MeterRequests(l: Ledger, id: nat, move: MeterMove)
    requires Inv(l) && MeterStep(l, id, move).Some?
    ensures var e := MeterStep(l, id, move).value; RequestsOk(e) && Excess(e) == Excess(l) && MetersOk(e.meters)
  {
    hide Total, MeterAfter, PendingAfter, HalfDone, MeterOk, BytesAgree, StageOk, BaseOk, Was, MetersOk;
    var was := Was(l.meters, id);
    WasOk(l.meters, id);
    MinuteGets(l.pending, was, move);
    Given(l, id, move);
    HalvesAfter(l.meters, id, move);
    MetersStore(l.meters, id, MeterAfter(l.meters, id, move).value);
  }

  lemma MetersStore(meters: map<nat, Meter>, id: nat, m: Meter)
    requires MetersOk(meters) && MeterOk(m)
    ensures MetersOk(meters[id := m])
  {
    hide MeterOk;
  }

  lemma MeterStages(l: Ledger, id: nat, move: MeterMove)
    requires Inv(l) && MeterStep(l, id, move).Some?
    ensures var e := MeterStep(l, id, move).value; StageOk(e) && BaseOk(e)
  {
    hide Total, MeterAfter, PendingAfter, MeterOk, BytesAgree, Was, MetersOk, HalfDone, HoldsNothing, RequestsOk;
    var was := Was(l.meters, id);
    WasOk(l.meters, id);
    MinuteGets(l.pending, was, move);
    Given(l, id, move);
    HalfStays(l, id, move);
    if !NeedsLock(move) {
      SameMinutes(l.pending, was, move);
    }
  }

  lemma SameMinutes(p: Pending, was: Meter, move: MeterMove)
    requires !NeedsLock(move)
    ensures PendingAfter(p, was, move).minutes == p.minutes
  {
  }

  /** Pending requests and half-done finishes together grow only with a minute's request. */
  lemma HalfStays(l: Ledger, id: nat, move: MeterMove)
    requires Inv(l) && MeterStep(l, id, move).Some?
    ensures var e := MeterStep(l, id, move).value;
      !move.FinishBucket? ==> e.pending.requests + Half(e.finishes) == l.pending.requests + Half(l.finishes)
  {
    MeterRequests(l, id, move);
    Given(l, id, move);
    hide Total, MeterAfter, PendingAfter, MeterOk, BytesAgree, Was, MetersOk, HalfDone, HoldsNothing, StageOk, BaseOk,
         BucketRequests;
  }

  // ---------- flushes ----------

  lemma CompletedTotal(requests: nat, buckets: Minutes, now: int)
    ensures var t := Total(Completed(requests, buckets, now));
      t == Plus(Total(buckets), Amount(0, 0, Missing(requests, buckets))) && requests <= t.requests
  {
    hide Total;
    TotalAdded(buckets, now, Amount(0, 0, Missing(requests, buckets)));
  }

  /** Three places, each with totals and minutes, as one record of numbers. */
  datatype Figures = Figures(saved: Amount, held: Amount, pending: Amount, savedMinutes: Amount, heldMinutes: Amount,
                             pendingMinutes: Amount)

  ghost function FiguresOf(l: Ledger): Figures {
    Figures(Amount(l.saved.bytesIn, l.saved.bytesOut, 0),
            Amount(l.flush.held.bytesIn, l.flush.held.bytesOut, l.flush.held.requests),
            Amount(l.pending.bytesIn, l.pending.bytesOut, l.pending.requests),
            Total(l.saved.minutes), Total(l.flush.held.minutes), Total(l.pending.minutes))
  }

  lemma NoMinutes()
    ensures Total(Nothing().minutes) == Zero()
  {
    TotalEmpty(Nothing().minutes);
  }

  lemma FewKeys(minutes: Minutes)
    requires |minutes| == 0
    ensures Total(minutes) == Zero()
  {
    assert minutes == map[];
    TotalEmpty(minutes);
  }

  /** Taking the buckets moves all minutes into the flight, and completes them there. */
  lemma TakenFigures(l: Ledger, now: int)
    requires l.flush.stage.TakeBuckets? && Total(l.flush.held.minutes) == Zero()
    ensures var e := TakenBuckets(l, now); var a, b := FiguresOf(l), FiguresOf(e);
      var missing := if a.held.requests > a.pendingMinutes.requests then a.held.requests - a.pendingMinutes.requests else 0;
      && b == a.(held := b.held, heldMinutes := Plus(a.pendingMinutes, Amount(0, 0, missing)), pendingMinutes := Zero())
      && b.held == a.held && a.held.requests <= b.heldMinutes.requests
      && (if e.flush.stage.Store? then e.flush.half == l.flush.half
          else e.flush.stage.NoFlush? && b.held == Zero() && b.heldMinutes == Zero())
      && e.meters == l.meters && e.finishes == l.finishes && e.saved == l.saved
  {
    hide Total, Completed;
    CompletedTotal(l.flush.held.requests, l.pending.minutes, now);
    NoMinutes();
    TotalEmpty(TakenBuckets(l, now).pending.minutes);
    if |Completed(l.flush.held.requests, l.pending.minutes, now)| == 0 {
      FewKeys(Completed(l.flush.held.requests, l.pending.minutes, now));
    }
  }

  lemma StoredFigures(l: Ledger)
    ensures var e := StoredAll(l); var a, b := FiguresOf(l), FiguresOf(e);
      && b == Figures(Plus(a.saved, Amount(a.held.bytesIn, a.held.bytesOut, 0)), Zero(), a.pending,
                      Plus(a.savedMinutes, a.heldMinutes), Zero(), a.pendingMinutes)
      && e.meters == l.meters && e.finishes == l.finishes && e.flush.stage == Settle(a.held.bytesIn, a.held.bytesOut)
      && e.saved.baseIn == l.saved.baseIn && e.saved.baseOut == l.saved.baseOut
  {
    hide Total, Merged;
    TotalMerged(l.saved.minutes, l.flush.held.minutes);
    NoMinutes();
  }

  /** Pending and held figures only change places; nothing else changes. */
  ghost predicate OnlyMoved(l: Ledger, e: Ledger) {
    var a, b := FiguresOf(l), FiguresOf(e);
    && b.saved == a.saved && b.savedMinutes == a.savedMinutes
    && Plus(b.held, b.pending) == Plus(a.held, a.pending)
    && Plus(b.heldMinutes, b.pendingMinutes) == Plus(a.heldMinutes, a.pendingMinutes)
    && e.meters == l.meters && e.finishes == l.finishes
  }

  lemma TakingIn(l: Ledger)
    requires StageOk(l) && BaseOk(l) && l.flush.stage.NoFlush?
    ensures OnlyMoved(l, TakenIn(l)) && StageOk(TakenIn(l)) && BaseOk(TakenIn(l))
  {
    hide Total, Half;
    NoMinutes();
  }

  lemma TakingOut(l: Ledger)
    requires StageOk(l) && BaseOk(l) && l.flush.stage.TakeOut?
    ensures OnlyMoved(l, TakenOut(l)) && StageOk(TakenOut(l)) && BaseOk(TakenOut(l))
  {
    hide Total, Half;
  }

  lemma TakingRequests(l: Ledger)
    requires StageOk(l) && BaseOk(l) && l.flush.stage.TakeRequests?
    ensures OnlyMoved(l, TakenRequests(l)) && StageOk(TakenRequests(l)) && BaseOk(TakenRequests(l))
  {
    hide Total, Half;
  }

  lemma GivingIn(l: Ledger)
    requires StageOk(l) && BaseOk(l) && l.flush.stage.Store?
    ensures OnlyMoved(l, GivenIn(l)) && StageOk(GivenIn(l)) && BaseOk(GivenIn(l))
  {
    hide Total, Half;
  }

  lemma GivingOut(l: Ledger)
    requires StageOk(l) && BaseOk(l) && l.flush.stage.GiveOut?
    ensures OnlyMoved(l, GivenOut(l)) && StageOk(GivenOut(l)) && BaseOk(GivenOut(l))
  {
    hide Total, Half;
  }

  lemma GivingRequests(l: Ledger)
    requires StageOk(l) && BaseOk(l) && l.flush.stage.GiveRequests?
    ensures OnlyMoved(l, GivenRequests(l)) && StageOk(GivenRequests(l)) && BaseOk(GivenRequests(l))
  {
    hide Total, Half;
  }

  lemma GivingBuckets(l: Ledger)
    requires StageOk(l) && BaseOk(l) && l.flush.stage.GiveBuckets?
    ensures OnlyMoved(l, GivenBuckets(l)) && StageOk(GivenBuckets(l)) && BaseOk(GivenBuckets(l))
  {
    hide Total, Merged, Half;
    NoMinutes();
    TotalMerged(l.pending.minutes, l.flush.held.minutes);
  }

  lemma Settling(l: Ledger, bytesIn: nat, bytesOut: nat)
    requires StageOk(l) && BaseOk(l) && l.flush.stage == Settle(bytesIn, bytesOut)
    ensures var e := BaseMoved(l, bytesIn, bytesOut); OnlyMoved(l, e) && StageOk(e) && BaseOk(e)
  {
    hide Total, Half;
    NoMinutes();
  }

  /** The steps of a flush other than taking the buckets and storing. */
  lemma PlainStep(l: Ledger, move: FlushMove)
    requires FlushStep(l, move).Some? && move != Stored(true) && !(l.flush.stage.TakeBuckets? && move.NextTake?)
    requires StageOk(l) && BaseOk(l)
    ensures var e := FlushStep(l, move).value; OnlyMoved(l, e) && StageOk(e) && BaseOk(e)
  {
    hide OnlyMoved, BaseOk, TakenIn, TakenOut, TakenRequests, TakenBuckets, StoredAll, GivenIn, GivenOut, GivenRequests,
         GivenBuckets, BaseMoved, Total;
    if l.flush.stage.NoFlush? {
      TakingIn(l);
    } else if l.flush.stage.TakeOut? {
      TakingOut(l);
    } else if l.flush.stage.Store? {
      GivingIn(l);
    } else if l.flush.stage.GiveOut? {
      GivingOut(l);
    } else if l.flush.stage.GiveRequests? {
      GivingRequests(l);
    } else if l.flush.stage.TakeRequests? {
      TakingRequests(l);
    } else if l.flush.stage.GiveBuckets? {
      GivingBuckets(l);
    } else if l.flush.stage.Settle? {
      Settling(l, l.flush.stage.bytesIn, l.flush.stage.bytesOut);
    }
  }

  ghost predicate Balanced(f: Figures, locals: Amount) {
    && f.saved.bytesIn + f.held.bytesIn + f.pending.bytesIn
       == f.savedMinutes.bytesIn + f.heldMinutes.bytesIn + f.pendingMinutes.bytesIn + locals.bytesIn
    && f.saved.bytesOut + f.held.bytesOut + f.pending.bytesOut
       == f.savedMinutes.bytesOut + f.heldMinutes.bytesOut + f.pendingMinutes.bytesOut + locals.bytesOut
  }

  lemma BalancedIs(l: Ledger)
    ensures BytesAgree(l) <==> Balanced(FiguresOf(l), Total(Locals(l.meters)))
  {
    hide Total, Locals;
  }

  lemma FlushKeeps(l: Ledger, move: FlushMove)
    requires Inv(l) && FlushStep(l, move).Some?
    ensures var e := FlushStep(l, move).value;
      && Inv(e)
      && Excess(e) == Excess(l)
                      + if move == Stored(true) then Total(l.flush.held.minutes).requests - l.flush.held.requests else 0
  {
    hide Total, Inv, TakenBuckets, StoredAll, Balanced, BytesAgree, FiguresOf, StageOk, BaseOk, Excess;
    var e := FlushStep(l, move).value;
    BalancedIs(l);
    BalancedIs(e);
    InvParts(l);
    if move == Stored(true) {
      StoredKeeps(l, e);
    } else if l.flush.stage.TakeBuckets? && move.NextTake? {
      TakenKeeps(l, e);
    } else {
      PlainStep(l, move);
      PlainKeeps(l, e);
    }
  }

  lemma InvParts(l: Ledger)
    requires Inv(l)
    ensures BytesAgree(l) && StageOk(l) && BaseOk(l)
  {
    hide BytesAgree, StageOk, BaseOk, RequestsOk, MetersOk;
  }

  lemma StoredKeeps(l: Ledger, e: Ledger)
    requires Inv(l) && e == StoredAll(l) && l.flush.stage.Store?
    requires Balanced(FiguresOf(l), Total(Locals(l.meters)))
    requires Balanced(FiguresOf(e), Total(Locals(e.meters))) <==> BytesAgree(e)
    ensures Inv(e) && Excess(e) == Excess(l) + Total(l.flush.held.minutes).requests - l.flush.held.requests
  {
    hide Total, HalfDone, MetersOk, BytesAgree, Locals;
    StoredFigures(l);
    hide StoredAll, NoFlight, Nothing;
  }

  lemma TakenKeeps(l: Ledger, e: Ledger)
    requires Inv(l) && l.flush.stage.TakeBuckets? && exists now :: e == TakenBuckets(l, now)
    requires Balanced(FiguresOf(l), Total(Locals(l.meters)))
    requires Balanced(FiguresOf(e), Total(Locals(e.meters))) <==> BytesAgree(e)
    ensures Inv(e) && Excess(e) == Excess(l)
  {
    hide Total, HalfDone, MetersOk, BytesAgree, Locals, TakenBuckets;
    var now :| e == TakenBuckets(l, now);
    TakenFigures(l, now);
  }

  lemma PlainKeeps(l: Ledger, e: Ledger)
    requires Inv(l) && StageOk(e) && BaseOk(e) && OnlyMoved(l, e)
    requires Balanced(FiguresOf(l), Total(Locals(l.meters)))
    requires Balanced(FiguresOf(e), Total(Locals(e.meters))) <==> BytesAgree(e)
    ensures Inv(e) && Excess(e) == Excess(l)
  {
    hide Total, HalfDone, MetersOk, BytesAgree, Locals, StageOk, BaseOk;
  }

  // ---------- runs ----------

  lemma StepKeeps(l: Ledger, move: Move)
    requires Inv(l) && Apply(l, move).Some?
    ensures Inv(Apply(l, move).value)
    ensures move != OfFlush(Stored(true)) ==> Excess(Apply(l, move).value) == Excess(l)
  {
    hide MeterStep, FlushStep, BytesAgree, StageOk, RequestsOk, BaseOk, MetersOk, Excess;
    match move
    case OfMeter(id, m) =>
      MeterBytes(l, id, m);
      MeterRequests(l, id, m);
      MeterStages(l, id, m);
    case OfFlush(f) =>
      FlushKeeps(l, f);
  }

  ghost function After(l: Ledger, moves: seq<Move>): Option<Ledger>
    decreases |moves|
  {
    if moves == [] then Some(l)
    else
      match Apply(l, moves[0])
      case None => None
      case Some(e) => After(e, moves[1..])
  }

  lemma NoLocals(meters: map<nat, Meter>)
    requires forall id :: id in meters ==> meters[id].local == Zero()
    ensures Total(Locals(meters)) == Zero()
  {
    SumZero(Ins(Locals(meters)));
    SumZero(Outs(Locals(meters)));
    SumZero(Counts(Locals(meters)));
  }

  lemma EmptyInv()
    ensures Inv(Empty()) && Excess(Empty()) == 0
  {
    hide Total, Locals, Inv, Excess, BytesAgree, StageOk, RequestsOk;
    var l := Empty();
    TotalEmpty(l.saved.minutes);
    NoMinutes();
    NoLocals(l.meters);
    NoHalves(l.meters);
    FreshBytes(l);
    FreshRequests(l);
    FreshStage(l);
    AllParts(l);
  }

  lemma AllParts(l: Ledger)
    requires BytesAgree(l) && MetersOk(l.meters) && BaseOk(l) && StageOk(l) && RequestsOk(l)
    ensures Inv(l)
  {
    hide BytesAgree, MetersOk, BaseOk, StageOk, RequestsOk;
  }

  lemma NoHalves(meters: map<nat, Meter>)
    requires meters == map[]
    ensures HalfDone(meters) == {}
  {
  }

  /** A ledger with every figure at zero. */
  ghost predicate Fresh(l: Ledger) {
    && l.saved.bytesIn == 0 && l.saved.bytesOut == 0 && Total(l.saved.minutes) == Zero()
    && l.flush.held == Nothing() && l.pending == Nothing() && Total(Nothing().minutes) == Zero()
    && Total(Locals(l.meters)) == Zero() && HalfDone(l.meters) == {} && l.finishes == Finishes(0, 0)
    && l.flush.stage.NoFlush?
  }

  lemma FreshBytes(l: Ledger)
    requires Fresh(l)
    ensures BytesAgree(l)
  {
    hide Total, Locals, HalfDone, Nothing;
    assert Nothing().bytesIn == 0 && Nothing().bytesOut == 0 by { NothingIs(); }
  }

  lemma NothingIs()
    ensures Nothing().bytesIn == 0 && Nothing().bytesOut == 0 && Nothing().requests == 0
  {
  }

  lemma FreshRequests(l: Ledger)
    requires Fresh(l)
    ensures RequestsOk(l) && Excess(l) == 0
  {
    hide Total, Locals, HalfDone, Nothing;
    NothingIs();
  }

  lemma FreshStage(l: Ledger)
    requires Fresh(l)
    ensures StageOk(l)
  {
    hide Total, Locals, HalfDone, Nothing;
    NothingIs();
  }

  lemma {:induction false} RunKeeps(l: Ledger, moves: seq<Move>)
    requires Inv(l) && After(l, moves).Some?
    ensures Inv(After(l, moves).value)
    decreases |moves|
  {
    hide Inv, Apply;
    if moves != [] {
      StepKeeps(l, moves[0]);
      RunKeeps(Apply(l, moves[0]).value, moves[1..]);
    }
  }

  /**
   In every run of meters and flushes, stored or failed, the bytes in the totals are
   those in the minutes and in unfinished meters; the shown baseline is what is stored.
   */
  lemma BytesConserved(moves: seq<Move>)
    requires After(Empty(), moves).Some?
    ensures var l := After(Empty(), moves).value;
      && l.saved.bytesIn + l.flush.held.bytesIn + l.pending.bytesIn
         == Total(l.saved.minutes).bytesIn + Total(l.flush.held.minutes).bytesIn + Total(l.pending.minutes).bytesIn
            + Total(Locals(l.meters)).bytesIn
      && l.saved.bytesOut + l.flush.held.bytesOut + l.pending.bytesOut
         == Total(l.saved.minutes).bytesOut + Total(l.flush.held.minutes).bytesOut + Total(l.pending.minutes).bytesOut
            + Total(Locals(l.meters)).bytesOut
      && (l.flush.stage.NoFlush? ==> l.saved.baseIn == l.saved.bytesIn && l.saved.baseOut == l.saved.bytesOut)
  {
    hide Total, Empty, After, MetersOk, RequestsOk, StageOk, Locals;
    EmptyInv();
    RunKeeps(Empty(), moves);
  }

  ghost predicate AllOver(l: Ledger) {
    l.flush.stage.NoFlush? && forall id :: id in l.meters ==> l.meters[id].doing.Over?
  }

  lemma NothingHeld(l: Ledger)
    requires AllOver(l) && MetersOk(l.meters)
    ensures Total(Locals(l.meters)) == Zero() && HalfDone(l.meters) == {}
  {
    hide Total, Locals;
    forall id | id in l.meters ensures l.meters[id].local == Zero() {
      assert MeterOk(l.meters[id]);
    }
    NoLocals(l.meters);
  }

  /** Once every meter has finished and no flush is under way, the two views agree. */
  lemma ViewsAgree(moves: seq<Move>)
    requires After(Empty(), moves).Some? && AllOver(After(Empty(), moves).value)
    ensures var l := After(Empty(), moves).value;
      && l.saved.bytesIn + l.pending.bytesIn == Total(l.saved.minutes).bytesIn + Total(l.pending.minutes).bytesIn
      && l.saved.bytesOut + l.pending.bytesOut == Total(l.saved.minutes).bytesOut + Total(l.pending.minutes).bytesOut
      && l.finishes.counted == l.finishes.bucketed
  {
    hide Total, Empty, After, Locals, HalfDone, MetersOk;
    EmptyInv();
    RunKeeps(Empty(), moves);
    NothingHeld(After(Empty(), moves).value);
  }

  // ---------- requests ----------

  /** No stored flush took the pending requests while a finish was half done. */
  ghost predicate WholeFinishes(l: Ledger, moves: seq<Move>)
    decreases |moves|
  {
    moves != [] && Apply(l, moves[0]).Some? ==>
      (moves[0] == OfFlush(Stored(true)) ==> l.flush.half == 0) && WholeFinishes(Apply(l, moves[0]).value, moves[1..])
  }

  lemma NeverShort(l: Ledger)
    requires Inv(l)
    ensures Excess(l) >= 0
  {
    hide Total, BytesAgree, MetersOk, StageOk, HalfDone;
  }

  /** With nothing in excess, a stored flush adds as many requests as finishes were half done at its start. */
  lemma StoreExcess(l: Ledger)
    requires Inv(l) && Apply(l, OfFlush(Stored(true))).Some?
    ensures var e := Apply(l, OfFlush(Stored(true))).value;
      Excess(e) >= Excess(l) >= 0 && (Excess(l) == 0 ==> Excess(e) == l.flush.half)
  {
    hide Total, BytesAgree, MetersOk, HalfDone, StoredAll;
    FlushKeeps(l, Stored(true));
  }

  lemma {:induction false} ExcessGrows(l: Ledger, moves: seq<Move>)
    requires Inv(l) && After(l, moves).Some?
    ensures Excess(After(l, moves).value) >= Excess(l) >= 0
    decreases |moves|
  {
    hide Inv, Apply, Excess;
    NeverShort(l);
    if moves != [] {
      StepKeeps(l, moves[0]);
      if moves[0] == OfFlush(Stored(true)) {
        StoreExcess(l);
      }
      ExcessGrows(Apply(l, moves[0]).value, moves[1..]);
    }
  }

  lemma {:induction false} ExactFrom(l: Ledger, moves: seq<Move>)
    requires Inv(l) && After(l, moves).Some? && Excess(l) == 0
    ensures Excess(After(l, moves).value) == 0 <==> WholeFinishes(l, moves)
    decreases |moves|
  {
    hide Inv, Apply, Excess;
    if moves != [] {
      var e := Apply(l, moves[0]).value;
      StepKeeps(l, moves[0]);
      if moves[0] == OfFlush(Stored(true)) {
        StoreExcess(l);
      }
      if Excess(e) == 0 {
        ExactFrom(e, moves[1..]);
      } else {
        ExcessGrows(e, moves[1..]);
      }
    }
  }

  /**
   Stored and pending requests are exactly those counted if and only if no stored flush
   took the pending requests between the two steps of a finish.
   */
  lemma RequestsExact(moves: seq<Move>)
    requires After(Empty(), moves).Some?
    ensures var l := After(Empty(), moves).value;
      Total(l.saved.minutes).requests + l.flush.held.requests + l.pending.requests == l.finishes.counted
      <==> WholeFinishes(Empty(), moves)
  {
    hide Total, Empty, After, Inv, Apply, WholeFinishes;
    EmptyInv();
    ExactFrom(Empty(), moves);
  }

  // ---------- a flush between the two steps of a finish ----------

  function SplitFinish(minute: int, now: int): seq<Move> {
    [OfMeter(0, NewMeter(minute)), OfMeter(0, FinishBucket(minute)), OfFlush(Start), OfFlush(NextTake(now)),
     OfFlush(NextTake(now)), OfFlush(NextTake(now)), OfFlush(Stored(true))]
  }

  lemma {:induction false} AfterOne(l: Ledger, move: Move, rest: seq<Move>)
    ensures After(l, [move] + rest) == if Apply(l, move).None? then None else After(Apply(l, move).value, rest)
    ensures WholeFinishes(l, [move] + rest)
      == (Apply(l, move).Some? ==>
            (move == OfFlush(Stored(true)) ==> l.flush.half == 0) && WholeFinishes(Apply(l, move).value, rest))
  {
    hide Apply;
    assert ([move] + rest)[0] == move && ([move] + rest)[1..] == rest;
  }

  function Finished(minute: int): Ledger {
    Ledger(Pending(0, 0, 0, map[minute := Amount(0, 0, 1)]), NoFlight(), Empty().saved,
           map[0 := Meter(minute, Zero(), false, Counting)], Finishes(1, 0))
  }

  lemma FinishedBy(minute: int)
    ensures Apply(Empty(), OfMeter(0, NewMeter(minute))).Some?
    ensures var l := Apply(Empty(), OfMeter(0, NewMeter(minute))).value;
      Apply(l, OfMeter(0, FinishBucket(minute))) == Some(Finished(minute))
  {
    var l := Apply(Empty(), OfMeter(0, NewMeter(minute))).value;
    assert l.meters[0 := Meter(minute, Zero(), false, Counting)] == map[0 := Meter(minute, Zero(), false, Counting)];
    assert Added(map[], minute, Amount(0, 0, 1)) == map[minute := Amount(0, 0, 1)];
  }

  lemma TakenBy(minute: int, now: int)
    ensures var f := Finished(minute); var a := TakenOut(TakenIn(f)); var b := TakenBuckets(TakenRequests(a), now);
      && TakenIn(f).flush.stage.TakeOut? && a.flush.stage.TakeRequests? && TakenRequests(a).flush.stage.TakeBuckets?
      && b.flush.stage.Store? && b.flush.half == 1
  {
    var c := TakenRequests(TakenOut(TakenIn(Finished(minute))));
    assert c.pending.minutes == map[minute := Amount(0, 0, 1)] && c.flush.held.requests == 0;
    assert Missing(0, c.pending.minutes) == 0;
    assert |c.pending.minutes| == 1;
  }

  /** One finish, stored by a flush before it is counted: one request too many. */
  lemma SplitFinishCountsTwice(minute: int, now: int)
    ensures After(Empty(), SplitFinish(minute, now)).Some?
    ensures Excess(After(Empty(), SplitFinish(minute, now)).value) == 1
  {
    hide After, WholeFinishes, Excess, Inv, TakenIn, TakenOut, TakenRequests, TakenBuckets, StoredAll, Empty, Finished,
         MeterStep, Total;
    FinishedBy(minute);
    TakenBy(minute, now);
    var l := Apply(Empty(), OfMeter(0, NewMeter(minute))).value;
    var f := Finished(minute);
    assert f.flush.stage.NoFlush? by { FinishedStage(minute); }
    var a := TakenOut(TakenIn(f));
    var b := TakenBuckets(TakenRequests(a), now);
    var moves := SplitFinish(minute, now);
    assert moves[6..] == [OfFlush(Stored(true))] + [];
    assert moves == [moves[0]] + moves[1..] && moves[1..] == [moves[1]] + moves[2..] && moves[2..] == [moves[2]] + moves[3..]
        && moves[3..] == [moves[3]] + moves[4..] && moves[4..] == [moves[4]] + moves[5..] && moves[5..] == [moves[5]] + moves[6..];
    AfterOne(Empty(), moves[0], moves[1..]);
    AfterOne(l, moves[1], moves[2..]);
    AfterOne(f, moves[2], moves[3..]);
    AfterOne(TakenIn(f), moves[3], moves[4..]);
    AfterOne(a, moves[4], moves[5..]);
    AfterOne(TakenRequests(a), moves[5], moves[6..]);
    AfterOne(b, moves[6], []);
    AfterNone(StoredAll(b));
    EmptyInv();
    StepKeeps(Empty(), moves[0]);
    StepKeeps(l, moves[1]);
    StepKeeps(f, moves[2]);
    StepKeeps(TakenIn(f), moves[3]);
    StepKeeps(a, moves[4]);
    StepKeeps(TakenRequests(a), moves[5]);
    StoreExcess(b);
  }

  lemma FinishedStage(minute: int)
    ensures Finished(minute).flush.stage.NoFlush?
  {
  }

  lemma AfterNone(l: Ledger)
    ensures After(l, []) == Some(l)
  {
  }
}
