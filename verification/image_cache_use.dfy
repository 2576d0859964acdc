/**
 What "least recently used" means for the image cache: over whole runs, the lists are
 in the order of the last hit or store of each entry, and what is evicted is what was
 used longest ago.
 */
module ImageCacheUse {
  import opened Wrappers
  import opened MapSums
  import opened ImageCacheSpec
  import opened ImageCacheRuns

  // ---------- the order of use ----------

  /** The position of the last use of an entry in a history of uses; -1 if there is none. */
  ghost function LastUse(h: seq<nat>, id: nat): (at: int)
    ensures -1 <= at < |h|
  {
    if h == [] then -1
    else if h[|h| - 1] == id then |h| - 1
    else LastUse(h[..|h| - 1], id)
  }

  /** It is there, and nowhere later. */
  lemma {:induction false} LastUseAt(h: seq<nat>, id: nat)
    ensures var at := LastUse(h, id); (at >= 0 ==> h[at] == id) && forall i :: at < i < |h| ==> h[i] != id
    decreases |h|
  {
    if h != [] && h[|h| - 1] != id {
      LastUseAt(h[..|h| - 1], id);
      assert forall i :: 0 <= i < |h| - 1 ==> h[..|h| - 1][i] == h[i];
    }
  }

  /** All have been used, and each of them later than those behind it. */
  ghost predicate ByUse(ids: seq<nat>, h: seq<nat>) {
    && (forall id :: id in ids ==> id in h)
    && (forall i, j :: 0 <= i < j < |ids| ==> LastUse(h, ids[j]) < LastUse(h, ids[i]))
  }

  lemma UsedOther(h: seq<nat>, x: nat, id: nat)
    ensures LastUse(h + [x], id) == if id == x then |h| else LastUse(h, id)
  {
    assert (h + [x])[..|h|] == h;
  }

  lemma ByUseFront(id: nat, rest: seq<nat>, h: seq<nat>)
    requires ByUse(rest, h) && id in h && forall x :: x in rest ==> LastUse(h, x) < LastUse(h, id)
    ensures ByUse([id] + rest, h)
  {
    hide LastUse;
    var ids := [id] + rest;
    forall x | x in ids ensures x in h {
      assert x == id || x in rest;
    }
    forall i, j | 0 <= i < j < |ids| ensures LastUse(h, ids[j]) < LastUse(h, ids[i]) {
      assert ids[j] == rest[j - 1] && rest[j - 1] in rest;
      if i > 0 {
        assert ids[i] == rest[i - 1];
      }
    }
  }

  lemma ByUseTail(ids: seq<nat>, h: seq<nat>)
    requires ByUse(ids, h) && ids != []
    ensures ByUse(ids[1..], h) && ids[0] in h && forall x :: x in ids[1..] ==> LastUse(h, x) < LastUse(h, ids[0])
  {
    hide LastUse;
    forall i, j | 0 <= i < j < |ids[1..]| ensures LastUse(h, ids[1..][j]) < LastUse(h, ids[1..][i]) {
      assert ids[1..][j] == ids[j + 1] && ids[1..][i] == ids[i + 1];
    }
  }

  lemma {:induction false} DroppedByUse(ids: seq<nat>, id: nat, h: seq<nat>)
    requires ByUse(ids, h)
    ensures ByUse(Dropped(ids, id), h)
  {
    hide ByUse, LastUse;
    if ids != [] {
      ByUseTail(ids, h);
      DroppedByUse(ids[1..], id, h);
      if ids[0] != id {
        DroppedMembers(ids[1..], id);
        ByUseFront(ids[0], Dropped(ids[1..], id), h);
      }
    } else {
      NothingByUse(h);
    }
  }

  lemma NothingByUse(h: seq<nat>)
    ensures ByUse([], h)
  {
  }

  lemma {:induction false} RestrictByUse(ids: seq<nat>, store: map<nat, Entry>, s: nat, h: seq<nat>)
    requires ByUse(ids, h)
    ensures ByUse(Restrict(ids, store, s), h)
  {
    hide ByUse, LastUse;
    if ids != [] {
      ByUseTail(ids, h);
      RestrictByUse(ids[1..], store, s, h);
      if ids[0] in store && store[ids[0]].owner == s {
        RestrictMembers(ids[1..], store, s);
        ByUseFront(ids[0], Restrict(ids[1..], store, s), h);
      }
    } else {
      NothingByUse(h);
    }
  }

  /** Another use, of something that is not in the list. */
  lemma ByUseLater(ids: seq<nat>, h: seq<nat>, x: nat)
    requires ByUse(ids, h) && x !in ids
    ensures ByUse(ids, h + [x])
  {
    forall id | id in ids ensures LastUse(h + [x], id) == LastUse(h, id) && id in h + [x] {
      UsedOther(h, x, id);
    }
    forall i, j | 0 <= i < j < |ids| ensures LastUse(h + [x], ids[j]) < LastUse(h + [x], ids[i]) {
      assert ids[i] in ids && ids[j] in ids;
    }
  }

  /** What is used now comes first. */
  lemma UsedFirst(ids: seq<nat>, h: seq<nat>, x: nat)
    requires ByUse(ids, h) && x !in ids
    ensures ByUse([x] + ids, h + [x])
  {
    hide ByUse;
    ByUseLater(ids, h, x);
    forall id | id in ids ensures LastUse(h + [x], id) < LastUse(h + [x], x) {
      UsedOther(h, x, id);
      UsedOther(h, x, x);
    }
    ByUseFront(x, ids, h + [x]);
  }

  // ---------- what counts as use ----------

  /** A key leads to an entry that has not expired. */
  predicate Fresh(c: Cache, s: nat, key: Key, now: int) {
    && s in c.sites && !c.sites[s].closed && key in c.sites[s].entries && c.sites[s].entries[key] in c.store
    && now < c.store[c.sites[s].entries[key]].expiresAt
  }

  /** The entries that a step uses: the one it hits, or the one it stores. */
  ghost function Used(c: Cache, x: Step): seq<nat>
    requires Inv(c) && Enabled(c, x)
  {
    match x
    case Look(s, key, now) => if Fresh(c, s, key, now) then [c.sites[s].entries[key]] else []
    case Begin(s, key, now) => if Fresh(c, s, key, now) then [c.sites[s].entries[key]] else []
    case Finish(_, _, _) => if c.nextId in Next(c, x).store then [c.nextId] else []
    case _ => []
  }

  ghost function Uses(c: Cache, steps: seq<Step>): seq<nat>
    requires Runs(c, steps)
    decreases |steps|
  {
    if steps == [] then [] else Used(c, steps[0]) + Uses(Next(c, steps[0]), steps[1..])
  }

  // ---------- lookups ----------

  /**
   A lookup hits exactly the entry that the key leads to while it has not expired; then
   that entry is the first of both lists and all the others are where they were. One
   that has expired is gone afterwards, and otherwise nothing changes.
   */
  lemma GetExactly(c: Cache, s: nat, key: Key, now: int)
    requires ListsOk(c) && s in c.sites
    ensures var (q, found) := Get(c, s, key, now); var site := c.sites[s];
      && (forall id :: found == Some(id) <==> key in site.entries && site.entries[key] == id && id in c.store && now < c.store[id].expiresAt)
      && q.sites.Keys == c.sites.Keys
      && (found.Some? ==>
            && q.store == c.store && q.order == [found.value] + Dropped(c.order, found.value)
            && q.sites[s].lru == [found.value] + Dropped(site.lru, found.value) && q.sites[s].entries == site.entries)
      && (found.None? && key in site.entries ==>
            && q.store == c.store - {site.entries[key]} && q.order == Dropped(c.order, site.entries[key])
            && q.sites[s].entries == site.entries - {key} && q.sites[s].lru == Dropped(site.lru, site.entries[key]))
      && (key !in site.entries ==> q == c)
  {
    hide Dropped, Restrict, Distinct;
    assert SiteLinked(c, s);
    if key in c.sites[s].entries {
      RemoveEffect(c, c.sites[s].entries[key]);
    }
  }

  lemma GetByUse(c: Cache, s: nat, key: Key, now: int, h: seq<nat>)
    requires ListsOk(c) && s in c.sites && !c.sites[s].closed && ByUse(c.order, h)
    ensures ByUse(Get(c, s, key, now).0.order, h + if Fresh(c, s, key, now) then [c.sites[s].entries[key]] else [])
  {
    hide ByUse, Dropped, Restrict, Distinct, Get;
    GetExactly(c, s, key, now);
    assert SiteLinked(c, s);
    assert h + [] == h;
    if key in c.sites[s].entries {
      var id := c.sites[s].entries[key];
      DroppedByUse(c.order, id, h);
      DroppedMembers(c.order, id);
      UsedFirst(Dropped(c.order, id), h, id);
    }
  }

  // ---------- making room ----------

  /**
   What has gone from c to q made room: of its own site everything that stays was used
   later, and if it is of another site than s, so was everything that stays anywhere.
   */
  ghost predicate OldestGone(c: Cache, q: Cache, s: nat, h: seq<nat>) {
    && (forall b :: b in q.order ==> b in c.order && b in c.store)
    && (forall a, b ::
          a in c.order && a in c.store && a !in q.order && b in q.order
          && (c.store[a].owner == c.store[b].owner || c.store[a].owner != s)
          ==> LastUse(h, a) < LastUse(h, b))
  }

  lemma NothingGone(c: Cache, s: nat, h: seq<nat>)
    requires ListsOk(c)
    ensures OldestGone(c, c, s, h)
  {
  }

  lemma GoneTwice(a: Cache, b: Cache, c: Cache, s: nat, h: seq<nat>)
    requires OldestGone(a, b, s, h) && OldestGone(b, c, s, h) && ListsOk(b)
    requires forall id :: id in b.store ==> id in a.store && b.store[id] == a.store[id]
    ensures OldestGone(a, c, s, h)
  {
    hide LastUse;
    forall x, y | x in a.order && x in a.store && x !in c.order && y in c.order
                  && (a.store[x].owner == a.store[y].owner || a.store[x].owner != s)
      ensures LastUse(h, x) < LastUse(h, y)
    {
      assert y in b.order;
      if x in b.order {
        assert b.store[x] == a.store[x] && b.store[y] == a.store[y];
      }
    }
  }

  lemma InList(ids: seq<nat>, id: nat) returns (i: nat)
    requires id in ids
    ensures i < |ids| && ids[i] == id
  {
    i :| i < |ids| && ids[i] == id;
  }

  lemma LastOldest(ids: seq<nat>, h: seq<nat>, b: nat)
    requires ByUse(ids, h) && b in ids && b != Last(ids)
    ensures LastUse(h, Last(ids)) < LastUse(h, b)
  {
    var i := InList(ids, b);
  }

  /** The last entry of a site's list is the one of that site that was used longest ago. */
  lemma SiteLastGone(c: Cache, s: nat, h: seq<nat>)
    requires ListsOk(c) && s in c.sites && c.sites[s].lru != [] && ByUse(c.order, h)
    ensures Last(c.sites[s].lru) in c.store && c.store[Last(c.sites[s].lru)].owner == s
    ensures OldestGone(c, Remove(c, Last(c.sites[s].lru)), s, h)
  {
    hide LastUse, ByUse, Dropped, Restrict, Distinct, Remove;
    var id := Last(c.sites[s].lru);
    LruLinked(c, s);
    assert id in c.sites[s].lru;
    RemoveEffect(c, id);
    DroppedMembers(c.order, id);
    assert SiteLinked(c, s);
    RestrictByUse(c.order, c.store, s, h);
    forall b | b in c.order && b != id && b in c.store && c.store[b].owner == s ensures LastUse(h, id) < LastUse(h, b) {
      RestrictMembers(c.order, c.store, s);
      LastOldest(c.sites[s].lru, h, b);
    }
  }

  /** The last entry of the process list is the one that was used longest ago of all. */
  lemma ProcessLastGone(c: Cache, s: nat, h: seq<nat>)
    requires ListsOk(c) && c.order != [] && ByUse(c.order, h)
    ensures Last(c.order) in c.store && OldestGone(c, Remove(c, Last(c.order)), s, h)
  {
    hide LastUse, ByUse, Dropped, Restrict, Distinct, Remove;
    var id := Last(c.order);
    OrderLinked(c, id);
    RemoveEffect(c, id);
    DroppedMembers(c.order, id);
    forall b | b in c.order && b != id ensures LastUse(h, id) < LastUse(h, b) {
      LastOldest(c.order, h, b);
    }
  }

  lemma RemovedByUse(c: Cache, id: nat, h: seq<nat>)
    requires ListsOk(c) && id in c.store && ByUse(c.order, h)
    ensures ListsOk(Remove(c, id)) && ByUse(Remove(c, id).order, h) && |Remove(c, id).order| < |c.order|
    ensures forall x :: x in Remove(c, id).store ==> x in c.store && Remove(c, id).store[x] == c.store[x]
    ensures Remove(c, id).sites.Keys == c.sites.Keys
  {
    hide ByUse, Dropped, Restrict, Distinct, Remove, ListsOk;
    RemoveLists(c, id);
    RemoveEffect(c, id);
    DroppedByUse(c.order, id, h);
  }

  lemma {:induction false} ReserveOldest(c: Cache, s: nat, minimum: nat, target: int, h: seq<nat>)
    requires ListsOk(c) && s in c.sites && 0 <= minimum < target && ByUse(c.order, h)
    ensures var q := ReserveLoop(c, s, minimum, target).0;
      && OldestGone(c, q, s, h) && ByUse(q.order, h) && forall id :: id in q.store ==> id in c.store && q.store[id] == c.store[id]
    decreases |c.order|
  {
    hide ByUse, ListsOk, Remove, OldestGone, LastUse;
    var site := c.sites[s];
    var siteLeft, processLeft := c.maxSite - site.bytes, c.maxProcess - c.bytes;
    if Least(siteLeft, processLeft) > minimum {
      var q := ReserveLoop(c, s, minimum, target).0;
      ChargedGone(c, q, s, h);
    } else if (if siteLeft <= minimum then site.lru != [] else c.order != []) {
      var id := if siteLeft <= minimum then Last(site.lru) else Last(c.order);
      if siteLeft <= minimum {
        SiteLastGone(c, s, h);
      } else {
        ProcessLastGone(c, s, h);
      }
      var c1 := Remove(c, id);
      RemovedByUse(c, id, h);
      ReserveOldest(c1, s, minimum, target, h);
      GoneTwice(c, c1, ReserveLoop(c1, s, minimum, target).0, s, h);
    } else {
      NothingGone(c, s, h);
    }
  }

  lemma ChargedGone(c: Cache, q: Cache, s: nat, h: seq<nat>)
    requires ListsOk(c) && q.order == c.order
    ensures OldestGone(c, q, s, h)
  {
  }

  // ---------- steps ----------

  lemma ReleaseOrder(c: Cache, f: nat)
    ensures Release(c, f).order == c.order && Release(c, f).store == c.store && Release(c, f).nextId == c.nextId
  {
  }

  lemma LandOrder(c: Cache, f: nat, stored: bool)
    requires f in c.flights && c.flights[f].site in c.sites
    ensures Land(c, f, stored).order == c.order && Land(c, f, stored).store == c.store
  {
  }

  lemma FinishByUse(c: Cache, x: Step, h: seq<nat>)
    requires Inv(c) && x.Finish? && ByUse(c.order, h)
    ensures ByUse(Next(c, x).order, h + Used(c, x))
  {
    hide ByUse, ListsOk, AccountsOk, LimitsOk, FlightsOk, FinishFlight, Finished, Release, Land;
    assert h + [] == h;
    ReleaseOrder(c, x.f);
    if InTable(c, x.f) {
      FinishExact(c, x.f, x.x, x.now);
      FinishedOrder(c, x.f, x.x, x.now);
      OrderIds(c);
      UsedFirst(c.order, h, c.nextId);
    } else {
      FinishOrphan(c, x.f, x.x, x.now);
    }
  }

  lemma OrderIds(c: Cache)
    requires ListsOk(c) && FreshId(c)
    ensures c.nextId !in c.store && c.nextId !in c.order
  {
  }

  lemma FinishedOrder(c: Cache, f: nat, x: Option<Captured>, now: int)
    requires InTable(c, f)
    ensures var q := Finished(c, f, x, now);
      (q.order == c.order && q.store == c.store) || (q.order == [c.nextId] + c.order && c.nextId in q.store)
  {
    hide Release, Land, Inserted;
    ReleaseOrder(c, f);
    var fl := c.flights[f];
    var c1 := Release(c, f);
    if f in c1.flights && c1.flights[f].site in c1.sites {
      LandOrder(c1, f, false);
    }
    if x.Some? && CaptureFits(fl, x.value) && now < x.value.expiresAt && fl.site in c1.sites && f in c1.flights {
      var e := Entry(fl.key, fl.site, CostWith(fl.key, x.value), x.value.expiresAt);
      var c2 := Inserted(c1, c1.nextId, e);
      InsertedOrder(c1, c1.nextId, e);
      if f in c2.flights && c2.flights[f].site in c2.sites {
        LandOrder(c2, f, true);
      }
    }
  }

  lemma InsertedOrder(c: Cache, id: nat, e: Entry)
    requires e.owner in c.sites
    ensures Inserted(c, id, e).order == [id] + c.order && id in Inserted(c, id, e).store
  {
  }

  lemma BeginByUse(c: Cache, x: Step, h: seq<nat>)
    requires Inv(c) && x.Begin? && Enabled(c, x) && ByUse(c.order, h)
    ensures ByUse(Next(c, x).order, h + Used(c, x))
  {
    hide ByUse, ListsOk, AccountsOk, LimitsOk, FlightsOk, FreshId, Get, Reserve;
    assert h + [] == h;
    if !c.sites[x.s].closed {
      GetByUse(c, x.s, x.key, x.now, h);
      GetLists(c, x.s, x.key, x.now);
      GetAnswer(c, x.s, x.key, x.now);
      var (c1, found) := Get(c, x.s, x.key, x.now);
      if found.None? && x.s in c1.sites && x.key !in c1.sites[x.s].flights {
        ReserveByUse(c1, x.s, x.key, h);
      }
    }
  }

  lemma GetAnswer(c: Cache, s: nat, key: Key, now: int)
    requires ListsOk(c) && s in c.sites && !c.sites[s].closed
    ensures Get(c, s, key, now).1.Some? <==> Fresh(c, s, key, now)
    ensures s in Get(c, s, key, now).0.sites
  {
    hide Get, Dropped, Restrict, Distinct;
    GetExactly(c, s, key, now);
    assert SiteLinked(c, s);
  }

  lemma ReserveByUse(c: Cache, s: nat, key: Key, h: seq<nat>)
    requires ListsOk(c) && s in c.sites && ByUse(c.order, h)
    ensures var q := Reserve(c, s, key).0;
      && ByUse(q.order, h) && OldestGone(c, q, s, h) && forall id :: id in q.store ==> id in c.store && q.store[id] == c.store[id]
  {
    hide ByUse, ListsOk, OldestGone, ReserveLoop;
    NothingGone(c, s, h);
    if !(c.maxProcess <= 0 || c.maxSite <= 0 || TargetReservation(c, key) <= MinimumReservation(key)) {
      ReserveOldest(c, s, MinimumReservation(key), TargetReservation(c, key), h);
    }
  }

  lemma {:induction false} RemoveAllByUse(c: Cache, s: nat, h: seq<nat>)
    requires ListsOk(c) && s in c.sites && ByUse(c.order, h)
    ensures ByUse(RemoveAll(c, s).order, h)
    decreases |c.order|
  {
    hide ByUse, ListsOk, Remove;
    if c.sites[s].lru != [] {
      var id := Last(c.sites[s].lru);
      LruLinked(c, s);
      RemovedByUse(c, id, h);
      RemoveAllByUse(Remove(c, id), s, h);
    }
  }

  lemma {:induction false} EndFlightsOrder(c: Cache, order: seq<nat>)
    ensures EndFlights(c, order).order == c.order
    decreases |order|
  {
    hide Release, Land, InTable;
    if order != [] {
      var f := order[0];
      EndFlightsOrder(c, order[1..]);
      if InTable(c, f) {
        FlightThere(c, f);
        var c1 := if c.flights[f].started then c else Release(c, f);
        ReleaseOrder(c, f);
        EndFlightsOrder(c1, order[1..]);
        if InTable(c1, f) {
          FlightThere(c1, f);
          LandOrder(c1, f, c1.flights[f].stored);
          EndFlightsOrder(Land(c1, f, c1.flights[f].stored), order[1..]);
        }
      }
    }
  }

  lemma FlightThere(c: Cache, f: nat)
    requires InTable(c, f)
    ensures f in c.flights && c.flights[f].site in c.sites
  {
  }

  lemma CloseByUse(c: Cache, s: nat, order: seq<nat>, h: seq<nat>)
    requires ListsOk(c) && s in c.sites && ByUse(c.order, h)
    ensures ByUse(Close(c, s, order).order, h)
  {
    hide ByUse, RemoveAll, EndFlights;
    if !c.sites[s].closed {
      var c1 := WithSite(c, s, c.sites[s].(closed := true));
      ListsKept(c, c1);
      RemoveAllByUse(c1, s, h);
      EndFlightsOrder(RemoveAll(c1, s), order);
    }
  }

  lemma StepByUse(c: Cache, x: Step, h: seq<nat>)
    requires Inv(c) && Enabled(c, x) && ByUse(c.order, h)
    ensures ByUse(Next(c, x).order, h + Used(c, x))
  {
    hide ByUse, ListsOk, AccountsOk, LimitsOk, FlightsOk, FreshId, Get, LookupOrBegin, FinishFlight, Close, FlightsIn;
    assert h + [] == h;
    match x
    case Open =>
    case Look(s, key, now) =>
      if !c.sites[s].closed {
        GetByUse(c, s, key, now, h);
      }
    case Begin(s, key, now) => BeginByUse(c, x, h);
    case Capture(f) =>
    case Finish(f, y, now) => FinishByUse(c, x, h);
    case CloseIt(s, order) => SiteOf(c, s, order); CloseByUse(c, s, order, h);
  }

  lemma SiteOf(c: Cache, s: nat, order: seq<nat>)
    requires FlightsIn(c, s, order)
    ensures s in c.sites
  {
  }

  lemma {:induction false} RunByUse(c: Cache, steps: seq<Step>, h: seq<nat>)
    requires Inv(c) && Runs(c, steps) && ByUse(c.order, h)
    ensures ByUse(After(c, steps).order, h + Uses(c, steps))
    decreases |steps|
  {
    hide Inv, Next, Enabled, ByUse, Used;
    if steps == [] {
      assert h + [] == h;
    } else {
      StepKeeps(c, steps[0]);
      StepByUse(c, steps[0], h);
      RunByUse(Next(c, steps[0]), steps[1..], h + Used(c, steps[0]));
      assert (h + Used(c, steps[0])) + Uses(Next(c, steps[0]), steps[1..]) == h + Uses(c, steps);
    }
  }

  /**
   In every reachable state, the process list has exactly the stored entries, and the
   list of a site exactly those of that site, in the order of their last hit or store,
   the latest first.
   */
  lemma LeastRecentlyUsed(maxProcess: int, maxSite: int, steps: seq<Step>)
    requires EnabledRun(Empty(maxProcess, maxSite), steps)
    ensures Runs(Empty(maxProcess, maxSite), steps)
    ensures var c := After(Empty(maxProcess, maxSite), steps); var h := Uses(Empty(maxProcess, maxSite), steps);
      && ByUse(c.order, h) && (forall id :: id in c.order <==> id in c.store)
      && (forall s :: s in c.sites ==>
            ByUse(c.sites[s].lru, h) && forall id :: id in c.sites[s].lru <==> id in c.store && c.store[id].owner == s)
  {
    hide ByUse, Runs, After, EnabledRun, Uses, AccountsOk, LimitsOk, FlightsOk, FreshId, Restrict, Distinct;
    var c0 := Empty(maxProcess, maxSite);
    EmptyOk(maxProcess, maxSite);
    EnabledRuns(c0, steps);
    ReachableOk(c0, steps);
    NothingByUse([]);
    RunByUse(c0, steps, []);
    var c, h := After(c0, steps), Uses(c0, steps);
    assert [] + h == h;
    forall id | id in c.store ensures id in c.order {
      assert EntryLinked(c, id);
    }
    forall s | s in c.sites
      ensures ByUse(c.sites[s].lru, h) && forall id :: id in c.sites[s].lru <==> id in c.store && c.store[id].owner == s
    {
      assert SiteLinked(c, s);
      RestrictByUse(c.order, c.store, s, h);
      RestrictMembers(c.order, c.store, s);
    }
  }

  /**
   When a capture needs room: whatever entry of its own site is evicted for it was used
   before every entry of that site that stays; whatever entry of another site is, before
   every entry that stays. Only an expired entry of the key itself goes out of turn.
   */
  lemma EvictsOldest(c: Cache, x: Step, h: seq<nat>, a: nat, b: nat)
    requires Inv(c) && x.Begin? && Enabled(c, x) && ByUse(c.order, h)
    requires a in c.store && a !in Next(c, x).store && b in c.store && b in Next(c, x).store
    requires !(x.key in c.sites[x.s].entries && c.sites[x.s].entries[x.key] == a && c.store[a].expiresAt <= x.now)
    requires c.store[a].owner == c.store[b].owner || c.store[a].owner != x.s
    ensures LastUse(h, a) < LastUse(h, b)
  {
    hide ByUse, AccountsOk, LimitsOk, FlightsOk, FreshId, Get, Reserve, LastUse, OldestGone, Restrict, Distinct, ListsOk;
    if !c.sites[x.s].closed {
      GetByUse(c, x.s, x.key, x.now, h);
      GetLists(c, x.s, x.key, x.now);
      GetAnswer(c, x.s, x.key, x.now);
      GetKeepsStore(c, x.s, x.key, x.now, a, b);
      var (c1, found) := Get(c, x.s, x.key, x.now);
      if found.None? && x.key !in c1.sites[x.s].flights {
        assert h + [] == h;
        ReserveByUse(c1, x.s, x.key, h);
        GoneIs(c1, Reserve(c1, x.s, x.key).0, x.s, h, a, b);
      }
    }
  }

  lemma GetKeepsStore(c: Cache, s: nat, key: Key, now: int, a: nat, b: nat)
    requires ListsOk(c) && s in c.sites && a in c.store && b in c.store
    requires !(key in c.sites[s].entries && c.sites[s].entries[key] == a && c.store[a].expiresAt <= now)
    ensures var q := Get(c, s, key, now).0; a in q.store && q.store[a] == c.store[a] && (b in q.store ==> q.store[b] == c.store[b])
  {
    hide Get, Dropped, Restrict, Distinct;
    GetExactly(c, s, key, now);
    assert SiteLinked(c, s);
  }

  lemma GoneIs(c: Cache, q: Cache, s: nat, h: seq<nat>, a: nat, b: nat)
    requires ListsOk(c) && ListsOk(q) && OldestGone(c, q, s, h) && a in c.store && a !in q.store && b in q.store && b in c.store
    requires c.store[a].owner == c.store[b].owner || c.store[a].owner != s
    ensures LastUse(h, a) < LastUse(h, b)
  {
    hide LastUse, Restrict, Distinct;
    assert EntryLinked(c, a) && EntryLinked(q, b);
  }
}
