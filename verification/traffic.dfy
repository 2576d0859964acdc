/** The meters and the flush as they run, each under the locks that it takes. */
module Traffic {
  import opened Wrappers
  import opened MapSums
  import opened TrafficSpec
  import opened TrafficRuns

  /** What a whole flush leaves pending and saved, when no other step comes between its own. */
  ghost function FlushWhole(p: Pending, s: Saved, now: int, ok: bool): (Pending, Saved) {
    var buckets := Completed(p.requests, p.minutes, now);
    if p.bytesIn == 0 && p.bytesOut == 0 && p.requests == 0 && |buckets| == 0 then (Nothing(), s)
    else if !ok then (p.(minutes := buckets), s)
    else
      (Nothing(),
       Saved(s.bytesIn + p.bytesIn, s.bytesOut + p.bytesOut, Merged(s.minutes, buckets), s.baseIn + p.bytesIn,
             s.baseOut + p.bytesOut))
  }

  class ProxyInstance {
    var bytesIn: nat
    var bytesOut: nat
    var reqCount: nat
    var pendingRequests: nat
    var pendingMinuteTraffic: Minutes
    var persistedBytesIn: nat
    var persistedBytesOut: nat
    var activeTrafficMeters: int

    constructor ()
      ensures View() == Nothing() && reqCount == 0 && persistedBytesIn == 0 && persistedBytesOut == 0
    {
      bytesIn, bytesOut, reqCount, pendingRequests := 0, 0, 0, 0;
      pendingMinuteTraffic := map[];
      persistedBytesIn, persistedBytesOut, activeTrafficMeters := 0, 0, 0;
    }

    function View(): Pending
      reads this
    {
      Pending(bytesIn, bytesOut, pendingRequests, pendingMinuteTraffic)
    }

    /** Adds to one minute, and to the totals unless they have counted the bytes already. */
    method AddMinuteTraffic(minute: int, inBytes: nat, outBytes: nat, requests: nat, addGlobal: bool)
      modifies this`bytesIn, this`bytesOut, this`pendingMinuteTraffic
      ensures var amount := Amount(inBytes, outBytes, requests); var p := old(View());
        View() == if amount == Zero() then p
                  else if addGlobal then WithBytes(WithMinute(p, minute, amount), inBytes, outBytes)
                  else WithMinute(p, minute, amount)
    {
      if inBytes == 0 && outBytes == 0 && requests == 0 {
        return;
      }
      if addGlobal {
        bytesIn := bytesIn + inBytes;
        bytesOut := bytesOut + outBytes;
      }
      var delta := if minute in pendingMinuteTraffic then pendingMinuteTraffic[minute] else Zero();
      delta := Plus(delta, Amount(inBytes, outBytes, requests));
      pendingMinuteTraffic := pendingMinuteTraffic[minute := delta];
    }
  }

  class RequestTrafficMeter {
    const inst: ProxyInstance
    const startedMinute: int
    var localIn: nat
    var localOut: nat
    var streaming: bool
    var finished: bool

    constructor (inst: ProxyInstance, minute: int)
      modifies inst`activeTrafficMeters
      ensures this.inst == inst && View() == Meter(minute, Zero(), false, Idle) && Valid()
      ensures inst.activeTrafficMeters == old(inst.activeTrafficMeters) + 1
    {
      this.inst, startedMinute := inst, minute;
      localIn, localOut, streaming, finished := 0, 0, false, false;
      new;
      inst.activeTrafficMeters := inst.activeTrafficMeters + 1;
    }

    function View(): Meter
      reads this
    {
      Meter(startedMinute, Amount(localIn, localOut, 0), streaming, if finished then Over else Idle)
    }

    /** A meter that is streaming or finished holds nothing back. */
    predicate Valid()
      reads this
    {
      streaming || finished ==> localIn == 0 && localOut == 0
    }

    /** From here on every byte goes to the minute it arrives in; what was held goes to the first one. */
    method Promote()
      requires Valid()
      modifies this, inst`bytesIn, inst`bytesOut, inst`pendingMinuteTraffic
      ensures Valid()
      ensures var was, p := old(View()), old(inst.View());
        if was.streaming then View() == was && inst.View() == p
        else if old(finished) then View() == was.(streaming := true) && inst.View() == p
        else MeterAfter(map[0 := was], 0, TrafficSpec.Promote) == Some(View())
             && inst.View() == PendingAfter(p, was, TrafficSpec.Promote)
    {
      if streaming {
        return;
      }
      streaming := true;
      if localIn != 0 || localOut != 0 {
        inst.AddMinuteTraffic(startedMinute, localIn, localOut, 0, false);
        localIn, localOut := 0, 0;
      }
    }

    /** Counts bytes: held back in the first minute, and given to their minute from the first later one on. */
    method Add(inBytes: nat, outBytes: nat, minute: int)
      requires Valid()
      modifies this, inst`bytesIn, inst`bytesOut, inst`pendingMinuteTraffic
      ensures Valid()
      ensures var was, p := old(View()), old(inst.View());
        if (inBytes == 0 && outBytes == 0) || old(finished) then View() == was && inst.View() == p
        else if !was.streaming && minute == startedMinute then
          View() == was.(local := Plus(was.local, Amount(inBytes, outBytes, 0)))
          && inst.View() == WithBytes(p, inBytes, outBytes)
        else
          var q := if was.streaming then p else PendingAfter(p, was, TrafficSpec.Promote);
          View() == was.(local := Zero(), streaming := true)
          && inst.View() == PendingAfter(q, View(), AddStreaming(inBytes, outBytes, minute))
    {
      if inBytes == 0 && outBytes == 0 {
        return;
      }
      if finished {
        return;
      }
      if !streaming && minute == startedMinute {
        inst.bytesIn := inst.bytesIn + inBytes;
        inst.bytesOut := inst.bytesOut + outBytes;
        localIn := localIn + inBytes;
        localOut := localOut + outBytes;
        return;
      }
      if !streaming {
        Promote();
      }
      inst.AddMinuteTraffic(minute, inBytes, outBytes, 0, true);
    }

    /** Gives what is held, and one request, to the minute; a second call does nothing. */
    method Finish(minute: int)
      requires Valid()
      modifies this, inst
      ensures Valid()
      ensures var was, p := old(View()), old(inst.View());
        if old(finished) then View() == was && inst.View() == p && inst.reqCount == old(inst.reqCount)
        else
          && View() == was.(local := Zero(), doing := Over)
          && inst.View() == PendingAfter(PendingAfter(p, was, FinishBucket(minute)), was, FinishCount)
          && inst.reqCount == old(inst.reqCount) + 1
          && inst.activeTrafficMeters == old(inst.activeTrafficMeters) - 1
    {
      if finished {
        return;
      }
      finished := true;
      if streaming {
        inst.AddMinuteTraffic(minute, 0, 0, 1, false);
      } else {
        inst.AddMinuteTraffic(minute, localIn, localOut, 1, false);
        localIn, localOut := 0, 0;
      }
      inst.reqCount := inst.reqCount + 1;
      inst.pendingRequests := inst.pendingRequests + 1;
      inst.activeTrafficMeters := inst.activeTrafficMeters - 1;
    }
  }

  /** The traffic tables: one transaction that succeeds or changes nothing. */
  class TrafficStore {
    var savedIn: nat
    var savedOut: nat
    var savedMinutes: Minutes

    constructor ()
      ensures savedIn == 0 && savedOut == 0 && savedMinutes == map[]
    {
      savedIn, savedOut, savedMinutes := 0, 0, map[];
    }

    method AddTrafficMinuteBuckets(inBytes: nat, outBytes: nat, buckets: Minutes, fails: bool) returns (ok: bool)
      modifies this
      ensures ok == !fails
      ensures if ok then savedIn == old(savedIn) + inBytes && savedOut == old(savedOut) + outBytes
                         && savedMinutes == Merged(old(savedMinutes), buckets)
              else savedIn == old(savedIn) && savedOut == old(savedOut) && savedMinutes == old(savedMinutes)
    {
      if fails {
        return false;
      }
      savedIn := savedIn + inBytes;
      savedOut := savedOut + outBytes;
      savedMinutes := Merged(savedMinutes, buckets);
      return true;
    }
  }

  /** Adds up the requests of all buckets, one minute after the other. */
  method CountRequests(buckets: Minutes) returns (count: nat)
    ensures count == Total(buckets).requests
  {
    count := 0;
    var rest := buckets;
    while |rest| != 0
      invariant count + Total(rest).requests == Total(buckets).requests
      decreases |rest|
    {
      var minute: int := PickMinute(rest);
      TotalStore(rest - {minute}, minute, rest[minute]);
      assert (rest - {minute})[minute := rest[minute]] == rest;
      count := count + rest[minute].requests;
      rest := rest - {minute};
    }
    FewKeys(rest);
  }

  method PickMinute(rest: Minutes) returns (minute: int)
    requires |rest| != 0
    ensures minute in rest && |rest - {minute}| < |rest|
  {
    ghost var k := SomeKey(rest);
    assert k in rest.Keys;
    minute :| minute in rest.Keys;
    assert (rest - {minute}).Keys == rest.Keys - {minute};
  }

  lemma MergedNothing(b: Minutes)
    ensures Merged(map[], b) == b
  {
    var none: Minutes := map[];
    assert Merged(none, b).Keys == b.Keys;
    assert forall m :: m in b ==> Merged(none, b)[m] == b[m];
  }

  /** Swap, store, move the baseline; on an error everything is put back. store is null when there is no database. */
  method FlushProxyTrafficLocked(inst: ProxyInstance, store: TrafficStore?, now: int, fails: bool) returns (ok: bool)
    modifies inst, store
    ensures var stored := store != null && !fails;
      var saved := Saved(if store == null then 0 else old(store.savedIn), if store == null then 0 else old(store.savedOut),
                         if store == null then map[] else old(store.savedMinutes),
                         old(inst.persistedBytesIn), old(inst.persistedBytesOut));
      var (p, s) := FlushWhole(old(inst.View()), saved, now, stored);
      && inst.View() == p
      && inst.persistedBytesIn == s.baseIn && inst.persistedBytesOut == s.baseOut
      && (store != null ==> store.savedIn == s.bytesIn && store.savedOut == s.bytesOut && store.savedMinutes == s.minutes)
      && inst.reqCount == old(inst.reqCount)
  {
    hide Total, Merged;
    var inBytes, outBytes, requests := inst.bytesIn, inst.bytesOut, inst.pendingRequests;
    inst.bytesIn, inst.bytesOut, inst.pendingRequests := 0, 0, 0;
    var buckets := inst.pendingMinuteTraffic;
    inst.pendingMinuteTraffic := map[];
    var bucketRequests := CountRequests(buckets);
    if requests > bucketRequests {
      buckets := Added(buckets, now, Amount(0, 0, requests - bucketRequests));
    }
    if inBytes == 0 && outBytes == 0 && requests == 0 && |buckets| == 0 {
      return true;
    }
    MergedNothing(buckets);
    if store == null {
      RestorePending(inst, inBytes, outBytes, requests, buckets);
      return false;
    }
    ok := store.AddTrafficMinuteBuckets(inBytes, outBytes, buckets, fails);
    if !ok {
      RestorePending(inst, inBytes, outBytes, requests, buckets);
      return false;
    }
    inst.persistedBytesIn := inst.persistedBytesIn + inBytes;
    inst.persistedBytesOut := inst.persistedBytesOut + outBytes;
  }

  method RestorePending(inst: ProxyInstance, inBytes: nat, outBytes: nat, requests: nat, buckets: Minutes)
    modifies inst`bytesIn, inst`bytesOut, inst`pendingRequests, inst`pendingMinuteTraffic
    ensures var p := old(inst.View());
      inst.View() == Pending(p.bytesIn + inBytes, p.bytesOut + outBytes, p.requests + requests, Merged(p.minutes, buckets))
  {
    inst.bytesIn := inst.bytesIn + inBytes;
    inst.bytesOut := inst.bytesOut + outBytes;
    inst.pendingRequests := inst.pendingRequests + requests;
    inst.pendingMinuteTraffic := Merged(inst.pendingMinuteTraffic, buckets);
  }

  // ---------- whole flushes among the steps ----------

  ghost function Unstored(l: Ledger, now: int): Ledger {
    GivenBuckets(GivenRequests(GivenOut(GivenIn(TakenBuckets(TakenRequests(TakenOut(TakenIn(l))), now)))))
  }

  /** A flush that fails puts everything back: the totals as they were, and the minutes with any missing requests. */
  lemma FailedFlushRestores(l: Ledger, now: int)
    requires l.flush.stage.NoFlush? && TakenBuckets(TakenRequests(TakenOut(TakenIn(l))), now).flush.stage.Store?
    ensures var e := Unstored(l, now);
      && e.pending == l.pending.(minutes := Completed(l.pending.requests, l.pending.minutes, now))
      && e.saved == l.saved && e.meters == l.meters && e.flush.stage.NoFlush?
  {
    hide Completed, Merged, Half;
    MergedNothing(Completed(l.pending.requests, l.pending.minutes, now));
  }
}
