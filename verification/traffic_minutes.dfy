/** Which minute each byte and each request is put in, in every run. */
module TrafficMinutes {
  import opened Wrappers
  import opened TrafficSpec
  import opened TrafficRuns

  // ---------- where bytes end, read off the moves alone ----------

  predicate Of(move: Move, id: nat) {
    move.OfMeter? && move.id == id
  }

  /** The minute that the meter was started in. */
  function Begun(moves: seq<Move>, id: nat): Option<int>
    decreases |moves|
  {
    if moves == [] then None
    else
      var last := moves[|moves| - 1];
      if Of(last, id) && last.meter.NewMeter? then Some(last.meter.started) else Begun(moves[..|moves| - 1], id)
  }

  /** The minute that a meter's move gives what it holds to: its first one, or that of its finish. */
  function SettledIn(moves: seq<Move>, last: Move): Option<int> {
    if !last.OfMeter? then None
    else if last.meter.Promote? then Begun(moves, last.id)
    else if last.meter.FinishBucket? then Some(last.meter.minute)
    else None
  }

  /**
   The minute that the bytes of move k have reached: their own once the meter streams,
   before that the one of the meter's first later settlement, and none while they are held.
   */
  function Ends(moves: seq<Move>, k: nat): Option<int>
    decreases |moves|
  {
    if k >= |moves| || !moves[k].OfMeter? then None
    else if moves[k].meter.AddStreaming? then Some(moves[k].meter.minute)
    else if !moves[k].meter.AddLocal? || k == |moves| - 1 then None
    else
      var before, last := moves[..|moves| - 1], moves[|moves| - 1];
      if Ends(before, k).Some? then Ends(before, k)
      else if Of(last, moves[k].id) then SettledIn(before, last)
      else None
  }

  function Brings(move: MeterMove): Amount {
    match move
    case AddLocal(bytesIn, bytesOut) => Amount(bytesIn, bytesOut, 0)
    case AddStreaming(bytesIn, bytesOut, _) => Amount(bytesIn, bytesOut, 0)
    case FinishBucket(_) => Amount(0, 0, 1)
    case _ => Zero()
  }

  /** What move k has put into a minute: the bytes that ended there, and the request of a finish in it. */
  function Share(moves: seq<Move>, minute: int, k: nat): Amount {
    if k >= |moves| || !moves[k].OfMeter? then Zero()
    else if Ends(moves, k) == Some(minute) || moves[k].meter == FinishBucket(minute) then Brings(moves[k].meter)
    else Zero()
  }

  function Shares(moves: seq<Move>, minute: int, n: nat): Amount {
    if n == 0 then Zero() else Plus(Shares(moves, minute, n - 1), Share(moves, minute, n - 1))
  }

  /** What a meter was brought and has not given to a minute. */
  function Keeps(moves: seq<Move>, id: nat, k: nat): Amount {
    if k < |moves| && Of(moves[k], id) && moves[k].meter.AddLocal? && Ends(moves, k).None? then Brings(moves[k].meter)
    else Zero()
  }

  function Held(moves: seq<Move>, id: nat, n: nat): Amount {
    if n == 0 then Zero() else Plus(Held(moves, id, n - 1), Keeps(moves, id, n - 1))
  }

  // ---------- one more move ----------

  predicate Settles(moves: seq<Move>, last: Move, id: nat) {
    Of(last, id) && SettledIn(moves, last).Some?
  }

  lemma Longer(moves: seq<Move>, last: Move)
    ensures (moves + [last])[..|moves|] == moves && (moves + [last])[|moves|] == last
  {
  }

  lemma BegunLonger(moves: seq<Move>, last: Move, id: nat)
    ensures Begun(moves + [last], id)
      == if Of(last, id) && last.meter.NewMeter? then Some(last.meter.started) else Begun(moves, id)
  {
    Longer(moves, last);
  }

  lemma EndsLonger(moves: seq<Move>, last: Move, k: nat)
    requires k < |moves|
    ensures Ends(moves + [last], k) ==
      if Ends(moves, k).None? && moves[k].OfMeter? && moves[k].meter.AddLocal? && Of(last, moves[k].id)
      then SettledIn(moves, last) else Ends(moves, k)
  {
    hide SettledIn;
    Longer(moves, last);
    assert (moves + [last])[k] == moves[k];
  }

  lemma KeepsLonger(moves: seq<Move>, last: Move, id: nat, k: nat)
    requires k < |moves|
    ensures Keeps(moves + [last], id, k) == if Settles(moves, last, id) then Zero() else Keeps(moves, id, k)
  {
    hide SettledIn, Ends;
    EndsLonger(moves, last, k);
    assert (moves + [last])[k] == moves[k];
  }

  lemma ShareLonger(moves: seq<Move>, last: Move, minute: int, k: nat)
    requires k < |moves|
    ensures Share(moves + [last], minute, k) == Plus(Share(moves, minute, k),
      if last.OfMeter? && SettledIn(moves, last) == Some(minute) then Keeps(moves, last.id, k) else Zero())
  {
    hide SettledIn, Ends;
    EndsLonger(moves, last, k);
    assert (moves + [last])[k] == moves[k];
  }

  lemma {:induction false} HeldLonger(moves: seq<Move>, last: Move, id: nat, n: nat)
    requires n <= |moves|
    ensures Held(moves + [last], id, n) == if Settles(moves, last, id) then Zero() else Held(moves, id, n)
  {
    hide Settles, Keeps;
    if n > 0 {
      HeldLonger(moves, last, id, n - 1);
      KeepsLonger(moves, last, id, n - 1);
    }
  }

  lemma {:induction false} SharesLonger(moves: seq<Move>, last: Move, minute: int, n: nat)
    requires n <= |moves|
    ensures Shares(moves + [last], minute, n) == Plus(Shares(moves, minute, n),
      if last.OfMeter? && SettledIn(moves, last) == Some(minute) then Held(moves, last.id, n) else Zero())
  {
    hide SettledIn, Keeps, Share, Plus;
    if n > 0 {
      SharesLonger(moves, last, minute, n - 1);
      ShareLonger(moves, last, minute, n - 1);
      if last.OfMeter? && SettledIn(moves, last) == Some(minute) {
        Regrouped(Shares(moves, minute, n - 1), Held(moves, last.id, n - 1), Share(moves, minute, n - 1), Keeps(moves, last.id, n - 1));
      } else {
        PlusZero(Shares(moves, minute, n - 1));
        PlusZero(Share(moves, minute, n - 1));
        PlusZero(Shares(moves, minute, n));
      }
    } else {
      PlusZero(Zero());
    }
  }

  lemma Regrouped(a: Amount, b: Amount, c: Amount, d: Amount)
    ensures Plus(Plus(a, b), Plus(c, d)) == Plus(Plus(a, c), Plus(b, d))
  {
  }

  lemma PlusZero(a: Amount)
    ensures Plus(a, Zero()) == a && Plus(Zero(), a) == a
  {
  }

  /** What the last move itself brings, and where. */
  lemma LastShare(moves: seq<Move>, last: Move, minute: int)
    ensures Share(moves + [last], minute, |moves|) ==
      if last.OfMeter? && (last.meter.AddStreaming? || last.meter.FinishBucket?) && last.meter.minute == minute
      then Brings(last.meter) else Zero()
  {
    Longer(moves, last);
  }

  lemma LastKeeps(moves: seq<Move>, last: Move, id: nat)
    ensures Keeps(moves + [last], id, |moves|) == if Of(last, id) && last.meter.AddLocal? then Brings(last.meter) else Zero()
  {
    Longer(moves, last);
  }

  // ---------- what is in a minute ----------

  function At(minutes: Minutes, minute: int): Amount {
    if minute in minutes then minutes[minute] else Zero()
  }

  /** A minute in the database, in a flush, and pending. */
  function InMinute(l: Ledger, minute: int): Amount {
    Plus(Plus(At(l.saved.minutes, minute), At(l.flush.held.minutes, minute)), At(l.pending.minutes, minute))
  }

  /** A flush holds minutes only after it has taken the buckets. */
  predicate HandsEmpty(f: Flush) {
    (f.stage.Store? || f.stage.GiveOut? || f.stage.GiveRequests? || f.stage.GiveBuckets?) || f.held.minutes == map[]
  }

  predicate SameBytes(a: Amount, b: Amount) {
    a.bytesIn == b.bytesIn && a.bytesOut == b.bytesOut && a.requests <= b.requests
  }

  lemma AtAdded(minutes: Minutes, minute: int, amount: Amount, m: int)
    ensures At(Added(minutes, minute, amount), m) == Plus(At(minutes, m), if m == minute then amount else Zero())
  {
  }

  lemma AtMerged(a: Minutes, b: Minutes, m: int)
    ensures At(Merged(a, b), m) == Plus(At(a, m), At(b, m))
  {
    hide Plus;
    PlusZero(Zero());
    if m in a.Keys + b.Keys {
      assert Merged(a, b)[m] == Plus(At(a, m), At(b, m));
    }
  }

  lemma AtCompleted(requests: nat, buckets: Minutes, now: int, m: int)
    ensures SameBytes(At(buckets, m), At(Completed(requests, buckets, now), m))
    ensures |Completed(requests, buckets, now)| == 0 ==> At(buckets, m) == Zero()
  {
    hide Total;
    AtAdded(buckets, now, Amount(0, 0, Missing(requests, buckets)), m);
    if |Completed(requests, buckets, now)| == 0 {
      assert Completed(requests, buckets, now) == map[];
    }
  }

  /** A flush moves bytes between the places and leaves each in its minute. */
  lemma FlushKeepsMinutes(l: Ledger, move: FlushMove, m: int)
    requires FlushStep(l, move).Some? && HandsEmpty(l.flush)
    ensures var e := FlushStep(l, move).value;
      HandsEmpty(e.flush) && SameBytes(InMinute(l, m), InMinute(e, m)) && e.meters == l.meters
  {
    hide TakenIn, TakenOut, TakenRequests, TakenBuckets, StoredAll, BaseMoved, GivenIn, GivenOut, GivenRequests, GivenBuckets,
         SameBytes, InMinute;
    match move {
      case Start => TakesIn(l, m);
      case NextTake(now) => Takes(l, now, m);
      case Stored(ok) => Stores(l, m);
      case Settled => Settled(l, m);
      case NextGive => Gives(l, m);
    }
  }

  ghost predicate KeptBy(l: Ledger, e: Ledger, m: int) {
    HandsEmpty(e.flush) && SameBytes(InMinute(l, m), InMinute(e, m)) && e.meters == l.meters
  }

  lemma TakesIn(l: Ledger, m: int)
    requires HandsEmpty(l.flush) && l.flush.stage.NoFlush?
    ensures KeptBy(l, TakenIn(l), m)
  {
  }

  lemma AtNone(m: int)
    ensures At(map[], m) == Zero() && At(Nothing().minutes, m) == Zero()
  {
  }

  lemma Takes(l: Ledger, now: int, m: int)
    requires HandsEmpty(l.flush)
    ensures l.flush.stage.TakeOut? ==> KeptBy(l, TakenOut(l), m)
    ensures l.flush.stage.TakeRequests? ==> KeptBy(l, TakenRequests(l), m)
    ensures l.flush.stage.TakeBuckets? ==> KeptBy(l, TakenBuckets(l, now), m)
  {
    hide TakenBuckets, Half, At;
    if l.flush.stage.TakeBuckets? {
      TakesBuckets(l, now, m);
    }
  }

  lemma TakesBuckets(l: Ledger, now: int, m: int)
    requires HandsEmpty(l.flush) && l.flush.stage.TakeBuckets?
    ensures KeptBy(l, TakenBuckets(l, now), m)
  {
    hide Completed, At;
    AtCompleted(l.flush.held.requests, l.pending.minutes, now, m);
    AtNone(m);
  }

  lemma Stores(l: Ledger, m: int)
    requires HandsEmpty(l.flush) && l.flush.stage.Store?
    ensures KeptBy(l, StoredAll(l), m) && KeptBy(l, GivenIn(l), m)
  {
    hide Merged, At;
    AtMerged(l.saved.minutes, l.flush.held.minutes, m);
    AtNone(m);
  }

  lemma Settled(l: Ledger, m: int)
    requires HandsEmpty(l.flush) && l.flush.stage.Settle?
    ensures KeptBy(l, BaseMoved(l, l.flush.stage.bytesIn, l.flush.stage.bytesOut), m)
  {
  }

  lemma Gives(l: Ledger, m: int)
    requires HandsEmpty(l.flush)
    ensures l.flush.stage.GiveOut? ==> KeptBy(l, GivenOut(l), m)
    ensures l.flush.stage.GiveRequests? ==> KeptBy(l, GivenRequests(l), m)
    ensures l.flush.stage.GiveBuckets? ==> KeptBy(l, GivenBuckets(l), m)
  {
    hide Merged, At;
    AtMerged(l.pending.minutes, l.flush.held.minutes, m);
    AtNone(m);
  }

  // ---------- runs ----------

  function Remaining(d: Doing): nat {
    if d.Rest? then d.bytesOut else 0
  }

  function HeldBy(m: Meter): Amount {
    Amount(m.local.bytesIn, m.local.bytesOut + Remaining(m.doing), m.local.requests)
  }

  /** The meter has what the moves brought it, less what is settled. */
  predicate MeterHolds(m: Meter, moves: seq<Move>, id: nat) {
    Begun(moves, id) == Some(m.started) && Held(moves, id, |moves|) == HeldBy(m)
  }

  lemma HeldByAfter(meters: map<nat, Meter>, id: nat, move: MeterMove)
    requires MeterAfter(meters, id, move).Some?
    ensures var m := MeterAfter(meters, id, move).value;
      HeldBy(m) == Plus(
        if id !in meters || move.Promote? || move.FinishBucket? then Zero() else HeldBy(meters[id]),
        if move.AddLocal? then Brings(move) else Zero())
      && (if id in meters then !move.NewMeter? && m.started == meters[id].started else move == NewMeter(m.started))
      && (move.Promote? || move.FinishBucket? ==> id in meters && meters[id].doing.Idle? && HeldBy(meters[id]) == meters[id].local)
  {
  }

  ghost predicate MetersHold(l: Ledger, moves: seq<Move>) {
    forall id: nat :: if id in l.meters then MeterHolds(l.meters[id], moves, id) else Held(moves, id, |moves|) == Zero()
  }

  ghost predicate MinutesHold(l: Ledger, moves: seq<Move>) {
    forall m: int :: SameBytes(Shares(moves, m, |moves|), InMinute(l, m))
  }

  lemma HeldAfter(moves: seq<Move>, last: Move, id: nat)
    ensures Held(moves + [last], id, |moves| + 1) == Plus(
      if Settles(moves, last, id) then Zero() else Held(moves, id, |moves|),
      if Of(last, id) && last.meter.AddLocal? then Brings(last.meter) else Zero())
  {
    hide Settles, Keeps, Brings;
    HeldLonger(moves, last, id, |moves|);
    LastKeeps(moves, last, id);
  }

  lemma SharesAfter(moves: seq<Move>, last: Move, m: int)
    ensures Shares(moves + [last], m, |moves| + 1) == Plus(
      Plus(Shares(moves, m, |moves|),
           if last.OfMeter? && SettledIn(moves, last) == Some(m) then Held(moves, last.id, |moves|) else Zero()),
      if last.OfMeter? && (last.meter.AddStreaming? || last.meter.FinishBucket?) && last.meter.minute == m
      then Brings(last.meter) else Zero())
  {
    hide SettledIn, Share, Brings;
    SharesLonger(moves, last, m, |moves|);
    LastShare(moves, last, m);
  }

  /** A meter's own step on what it holds. */
  lemma MeterStepHolds(l: Ledger, moves: seq<Move>, id: nat, move: MeterMove)
    requires MetersHold(l, moves) && MeterStep(l, id, move).Some?
    ensures MeterHolds(MeterStep(l, id, move).value.meters[id], moves + [OfMeter(id, move)], id)
  {
    hide Held, Begun, Share, PendingAfter, SettledIn, MetersHold, MeterAfter, HeldBy, Plus, Brings, Zero;
    var last := OfMeter(id, move);
    SettledBy(moves, last);
    HoldsAll(l, moves, id);
    HeldByAfter(l.meters, id, move);
    assert |moves + [last]| == |moves| + 1;
    HeldAfter(moves, last, id);
    BegunLonger(moves, last, id);
  }

  lemma SettledBy(moves: seq<Move>, last: Move)
    requires last.OfMeter?
    ensures SettledIn(moves, last).Some? ==> last.meter.Promote? || last.meter.FinishBucket?
    ensures last.meter.FinishBucket? ==> SettledIn(moves, last) == Some(last.meter.minute)
    ensures last.meter.Promote? ==> SettledIn(moves, last) == Begun(moves, last.id)
  {
  }

  lemma HoldsAll(l: Ledger, moves: seq<Move>, id: nat)
    requires MetersHold(l, moves)
    ensures if id in l.meters then MeterHolds(l.meters[id], moves, id) else Held(moves, id, |moves|) == Zero()
  {
    hide MeterHolds, Held;
  }

  lemma MetersStep(l: Ledger, moves: seq<Move>, move: Move)
    requires MetersHold(l, moves) && Apply(l, move).Some?
    requires move.OfFlush? ==> Apply(l, move).value.meters == l.meters
    ensures MetersHold(Apply(l, move).value, moves + [move])
  {
    hide Held, Begun, MeterHolds, MeterAfter, PendingAfter, FlushStep, MetersHold;
    var e := Apply(l, move).value;
    forall id: nat ensures if id in e.meters then MeterHolds(e.meters[id], moves + [move], id)
                           else Held(moves + [move], id, |moves + [move]|) == Zero() {
      if Of(move, id) {
        MeterStepHolds(l, moves, id, move.meter);
      } else {
        OtherMeter(l, moves, move, id);
      }
    }
    MetersHoldAll(e, moves + [move]);
  }

  lemma MetersHoldAll(l: Ledger, moves: seq<Move>)
    requires forall id: nat :: if id in l.meters then MeterHolds(l.meters[id], moves, id) else Held(moves, id, |moves|) == Zero()
    ensures MetersHold(l, moves)
  {
    hide MeterHolds, Held;
  }

  lemma OtherMeter(l: Ledger, moves: seq<Move>, move: Move, id: nat)
    requires MetersHold(l, moves) && !Of(move, id)
    ensures if id in l.meters then MeterHolds(l.meters[id], moves + [move], id)
            else Held(moves + [move], id, |moves + [move]|) == Zero()
  {
    hide Held, Begun, SettledIn, Brings, Plus;
    HeldAfter(moves, move, id);
    BegunLonger(moves, move, id);
    PlusZero(Held(moves, id, |moves|));
    assert |moves + [move]| == |moves| + 1;
    HoldsAll(l, moves, id);
  }

  lemma MeterStepMinutes(l: Ledger, moves: seq<Move>, id: nat, move: MeterMove, m: int)
    requires MetersHold(l, moves) && MeterStep(l, id, move).Some?
    requires SameBytes(Shares(moves, m, |moves|), InMinute(l, m))
    ensures SameBytes(Shares(moves + [OfMeter(id, move)], m, |moves| + 1), InMinute(MeterStep(l, id, move).value, m))
  {
    hide Held, Begun, Shares, Added, MetersHold, MeterAfter, HeldBy, At, SettledIn;
    var last := OfMeter(id, move);
    SettledBy(moves, last);
    HeldByAfter(l.meters, id, move);
    SharesAfter(moves, last, m);
    HoldsAll(l, moves, id);
    var was := Was(l.meters, id);
    match move {
      case Promote => AtAdded(l.pending.minutes, was.started, was.local, m);
      case AddStreaming(i, o, minute) => AtAdded(l.pending.minutes, minute, Amount(i, o, 0), m);
      case FinishBucket(minute) => AtAdded(l.pending.minutes, minute, Plus(was.local, Amount(0, 0, 1)), m);
      case _ =>
    }
  }

  lemma MinutesStep(l: Ledger, moves: seq<Move>, move: Move)
    requires MetersHold(l, moves) && MinutesHold(l, moves) && HandsEmpty(l.flush) && Apply(l, move).Some?
    ensures MinutesHold(Apply(l, move).value, moves + [move]) && HandsEmpty(Apply(l, move).value.flush)
    ensures move.OfFlush? ==> Apply(l, move).value.meters == l.meters
  {
    hide Shares, Held, MetersHold, InMinute, SettledIn, Brings, FlushStep, MeterAfter, PendingAfter;
    var e := Apply(l, move).value;
    assert |moves + [move]| == |moves| + 1;
    forall m: int ensures SameBytes(Shares(moves + [move], m, |moves + [move]|), InMinute(e, m)) {
      assert SameBytes(Shares(moves, m, |moves|), InMinute(l, m));
      match move {
        case OfMeter(id, step) => MeterStepMinutes(l, moves, id, step, m);
        case OfFlush(f) =>
          FlushKeepsMinutes(l, f, m);
          SharesAfter(moves, move, m);
      }
    }
    if move.OfFlush? {
      FlushKeepsMinutes(l, move.flush, 0);
    }
  }

  lemma {:induction false} RunMinutes(l: Ledger, done: seq<Move>, moves: seq<Move>)
    requires MetersHold(l, done) && MinutesHold(l, done) && HandsEmpty(l.flush) && After(l, moves).Some?
    ensures MinutesHold(After(l, moves).value, done + moves)
    decreases |moves|
  {
    hide MetersHold, MinutesHold, Apply, HandsEmpty;
    if moves == [] {
      assert done + moves == done;
    } else {
      MinutesStep(l, done, moves[0]);
      MetersStep(l, done, moves[0]);
      RunMinutes(Apply(l, moves[0]).value, done + [moves[0]], moves[1..]);
      assert done + [moves[0]] + moves[1..] == done + moves;
    }
  }

  /**
   In every run each minute holds exactly the bytes that ended there, wherever its record is
   kept: those of a streaming meter in their own minute, those held before in the meter's
   first minute or in the minute of its finish; and at least the requests that finished in it.
   */
  lemma MinutesExact(moves: seq<Move>, minute: int)
    requires After(Empty(), moves).Some?
    ensures var l := After(Empty(), moves).value; var shares := Shares(moves, minute, |moves|);
      var all := InMinute(l, minute);
      all.bytesIn == shares.bytesIn && all.bytesOut == shares.bytesOut && shares.requests <= all.requests
  {
    hide After, InMinute, Shares, MetersHold, MinutesHold;
    var none: seq<Move> := [];
    AtFirst();
    RunMinutes(Empty(), none, moves);
    assert none + moves == moves;
    SharesOf(After(Empty(), moves).value, moves, minute);
  }

  lemma AtFirst()
    ensures MetersHold(Empty(), []) && MinutesHold(Empty(), []) && HandsEmpty(Empty().flush)
  {
  }

  lemma SharesOf(l: Ledger, moves: seq<Move>, minute: int)
    requires MinutesHold(l, moves)
    ensures SameBytes(Shares(moves, minute, |moves|), InMinute(l, minute))
  {
    hide Shares, InMinute;
  }

  // ---------- after the finish ----------

  predicate Ended(l: Ledger, id: nat) {
    id in l.meters && (l.meters[id].doing.Counting? || l.meters[id].doing.Over?)
  }

  lemma StaysEnded(l: Ledger, move: Move, id: nat)
    requires Apply(l, move).Some? && Ended(l, id)
    ensures Ended(Apply(l, move).value, id)
    ensures Of(move, id) ==> move.meter.FinishCount? && l.meters[id].doing.Counting? && Apply(l, move).value.meters[id].doing.Over?
    ensures !Of(move, id) ==> id in Apply(l, move).value.meters && Apply(l, move).value.meters[id] == l.meters[id]
  {
    if move.OfFlush? {
      SameMeters(l, move.flush);
    } else {
      hide PendingAfter;
    }
  }

  lemma SameMeters(l: Ledger, move: FlushMove)
    requires FlushStep(l, move).Some?
    ensures FlushStep(l, move).value.meters == l.meters
  {
    hide Completed, Merged, Total;
  }

  lemma {:induction false} OverIsOver(l: Ledger, moves: seq<Move>, id: nat, k: nat)
    requires After(l, moves).Some? && Ended(l, id) && k < |moves| && Of(moves[k], id)
    ensures moves[k].meter.FinishCount? && l.meters[id].doing.Counting?
    ensures forall j :: 0 <= j < k ==> !Of(moves[j], id)
    decreases |moves|
  {
    hide Apply, Of, Ended;
    StaysEnded(l, moves[0], id);
    var e := Apply(l, moves[0]).value;
    assert Ended(l, id) ==> id in l.meters by { EndedIn(l, id); }
    if k > 0 {
      OverIsOver(e, moves[1..], id, k - 1);
      assert forall j :: 0 < j < k ==> moves[j] == moves[1..][j - 1];
    }
  }

  lemma EndedIn(l: Ledger, id: nat)
    requires Ended(l, id)
    ensures id in l.meters
  {
  }

  lemma {:induction false} EndedBy(l: Ledger, moves: seq<Move>, id: nat, f: nat, k: nat)
    requires After(l, moves).Some? && f < k < |moves| && Of(moves[f], id) && moves[f].meter.FinishBucket? && Of(moves[k], id)
    ensures moves[k].meter.FinishCount? && forall j :: f < j < k ==> !Of(moves[j], id)
    decreases |moves|
  {
    hide Apply, Of;
    var e := Apply(l, moves[0]).value;
    if f == 0 {
      FinishEnds(l, moves[0], id);
      OverIsOver(e, moves[1..], id, k - 1);
    } else {
      EndedBy(e, moves[1..], id, f - 1, k - 1);
    }
    assert forall j :: 0 < j < |moves| ==> moves[j] == moves[1..][j - 1];
  }

  lemma FinishEnds(l: Ledger, move: Move, id: nat)
    requires Apply(l, move).Some? && Of(move, id) && move.meter.FinishBucket?
    ensures Ended(Apply(l, move).value, id)
  {
    hide PendingAfter;
  }

  /** After its finish has been given to a minute, all that a meter does in any run is to count it, once. */
  lemma FinishIsLast(moves: seq<Move>, id: nat, f: nat, k: nat)
    requires After(Empty(), moves).Some? && f < k < |moves|
    requires Of(moves[f], id) && moves[f].meter.FinishBucket? && Of(moves[k], id)
    ensures moves[k].meter.FinishCount? && forall j :: f < j < k ==> !Of(moves[j], id)
  {
    EndedBy(Empty(), moves, id, f, k);
  }

  // ---------- holding bytes and streaming them ----------

  predicate Streaming(l: Ledger, id: nat) {
    id in l.meters && l.meters[id].streaming
  }

  lemma StreamsOn(l: Ledger, move: Move, id: nat)
    requires Apply(l, move).Some?
    ensures Streaming(l, id) ==> Streaming(Apply(l, move).value, id)
    ensures Streaming(l, id) && Of(move, id) ==> !move.meter.AddLocal? && !move.meter.Promote? && !move.meter.NewMeter?
    ensures !Streaming(l, id) && Of(move, id) ==> !move.meter.AddStreaming?
    ensures Streaming(Apply(l, move).value, id) <==> Streaming(l, id) || (Of(move, id) && move.meter.Promote?)
  {
    if move.OfFlush? {
      SameMeters(l, move.flush);
    } else {
      hide PendingAfter;
    }
  }

  predicate Promotes(moves: seq<Move>, id: nat, p: nat) {
    p < |moves| && Of(moves[p], id) && moves[p].meter.Promote?
  }

  ghost predicate Promoted(moves: seq<Move>, id: nat, k: nat) {
    exists p: nat :: p < k && Promotes(moves, id, p)
  }

  lemma {:induction false} StreamingSince(l: Ledger, moves: seq<Move>, id: nat, k: nat)
    requires After(l, moves).Some? && k < |moves| && Of(moves[k], id)
    ensures moves[k].meter.AddStreaming? ==> Streaming(l, id) || Promoted(moves, id, k)
    ensures moves[k].meter.AddLocal? || moves[k].meter.Promote? ==> !Streaming(l, id) && !Promoted(moves, id, k)
    decreases |moves|
  {
    hide Apply, Of, Streaming;
    var e := Apply(l, moves[0]).value;
    StreamsOn(l, moves[0], id);
    if k > 0 {
      var rest := moves[1..];
      StreamingSince(e, rest, id, k - 1);
      assert moves[k] == rest[k - 1];
      PromotedTail(moves, id, k);
    }
  }

  lemma PromotedTail(moves: seq<Move>, id: nat, k: nat)
    requires 0 < k && moves != []
    ensures Promoted(moves, id, k) <==> Promotes(moves, id, 0) || Promoted(moves[1..], id, k - 1)
  {
    var rest := moves[1..];
    forall p: nat | p < |rest| ensures Promotes(rest, id, p) == Promotes(moves, id, p + 1) {
    }
    if Promoted(rest, id, k - 1) {
      var p: nat :| p < k - 1 && Promotes(rest, id, p);
      assert Promotes(moves, id, p + 1);
    }
    if Promoted(moves, id, k) {
      var p: nat :| p < k && Promotes(moves, id, p);
      assert p > 0 ==> Promotes(rest, id, p - 1);
    }
  }

  /** In every run a meter holds bytes back until it is promoted, which is once, and streams them from then on. */
  lemma HoldsThenStreams(moves: seq<Move>, id: nat, k: nat)
    requires After(Empty(), moves).Some? && k < |moves| && Of(moves[k], id)
    ensures moves[k].meter.AddStreaming? ==> Promoted(moves, id, k)
    ensures moves[k].meter.AddLocal? || moves[k].meter.Promote? ==> !Promoted(moves, id, k)
  {
    StreamingSince(Empty(), moves, id, k);
  }
}
