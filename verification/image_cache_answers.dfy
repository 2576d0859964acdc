/** What the image cache answers, told from what captures have reserved and from its tables. */
module ImageCacheAnswers {
  import opened Wrappers
  import opened MapSums
  import opened ImageCacheSpec
  import opened ImageCacheRuns
  import opened ImageCacheUse

  // ---------- reserving ----------

  /** What the captures of a site, and of the process, have reserved; evicting cannot give it back. */
  ghost function SiteOutstanding(c: Cache, s: nat): nat {
    Sum(Reserved(c.flights, s))
  }

  ghost function Outstanding(c: Cache): nat {
    Sum(AllReserved(c.flights))
  }

  /** The room that is left when every entry is evicted. */
  ghost predicate CanMake(c: Cache, s: nat, minimum: nat) {
    c.maxSite - SiteOutstanding(c, s) > minimum && c.maxProcess - Outstanding(c) > minimum
  }

  /** The room that is left now, in the site and in the process. */
  function Left(c: Cache, s: nat): int
    requires s in c.sites
  {
    Least(c.maxSite - c.sites[s].bytes, c.maxProcess - c.bytes)
  }

  lemma OutstandingLeft(c: Cache, s: nat)
    requires Sound(c) && s in c.sites
    ensures c.sites[s].bytes == CostOf(c.sites[s].lru, c.store) + SiteOutstanding(c, s)
    ensures c.bytes == CostOf(c.order, c.store) + Outstanding(c)
    ensures c.sites[s].lru == [] ==> c.sites[s].bytes == SiteOutstanding(c, s)
    ensures c.order == [] ==> c.bytes == Outstanding(c)
  {
    hide Sum;
    assert SiteAccount(c, s);
  }

  /** Some entry had to go: with it there would not have been the room. */
  ghost predicate Needed(c: Cache, pre: Cache, s: nat, minimum: nat) {
    s in pre.sites && pre.sites.Keys == c.sites.Keys &&
    (pre == c || exists id: nat :: NeededOne(c, pre, s, minimum, id))
  }

  ghost predicate NeededOne(c: Cache, pre: Cache, s: nat, minimum: nat, id: nat)
    requires s in pre.sites
  {
    && id in c.store && id !in pre.store
    && (c.maxProcess - pre.bytes - c.store[id].cost <= minimum
        || (c.store[id].owner == s && c.maxSite - pre.sites[s].bytes - c.store[id].cost <= minimum))
  }

  lemma RemovedNeeded(c: Cache, s: nat, minimum: nat, id: nat)
    requires Sound(c) && s in c.sites && id in c.store
    requires if c.store[id].owner == s then Left(c, s) <= minimum else c.maxProcess - c.bytes <= minimum
    ensures Needed(c, Remove(c, id), s, minimum)
  {
    hide Sum, Dropped, Restrict, Remove, CostOf, ListsOk, AccountsOk, FlightsOk, FreshId;
    RemoveEffect(c, id);
    RemoveAccounts(c, id);
    assert NeededOne(c, Remove(c, id), s, minimum, id);
  }

  lemma NeededLater(c: Cache, c1: Cache, pre: Cache, s: nat, minimum: nat)
    requires Needed(c, c1, s, minimum) && Needed(c1, pre, s, minimum) && Evicted(c, c1)
    ensures Needed(c, pre, s, minimum)
  {
    if pre != c1 {
      var id: nat :| NeededOne(c1, pre, s, minimum, id);
      assert NeededOne(c, pre, s, minimum, id);
    }
  }

  /** The cache before it is charged: the same flights, and only what had to go is gone. */
  lemma {:induction false} ReserveLoopExactly(c: Cache, s: nat, minimum: nat, target: int) returns (pre: Cache)
    requires Sound(c) && s in c.sites && 0 <= minimum < target
    ensures Needed(c, pre, s, minimum) && pre.flights == c.flights && pre.maxSite == c.maxSite && pre.maxProcess == c.maxProcess
    ensures var (q, amount) := ReserveLoop(c, s, minimum, target);
      && (amount > 0 <==> CanMake(c, s, minimum))
      && (amount > 0 ==> Left(pre, s) > minimum && amount == Least(target, Left(pre, s)) && q == Charge(pre, s, amount))
      && (amount == 0 ==> q == pre)
    decreases |c.order|, 1
  {
    hide Sum, ListsOk, AccountsOk, FlightsOk, FreshId, Dropped, Restrict, Remove, Charge, CostOf, Evicted, Needed, SiteOutstanding,
         Outstanding;
    OutstandingLeft(c, s);
    pre := c;
    NeededNone(c, s, minimum);
    var site := c.sites[s];
    var siteLeft := c.maxSite - site.bytes;
    if Left(c, s) > minimum {
    } else if siteLeft <= minimum {
      if site.lru != [] {
        var id := Last(site.lru);
        LruLinked(c, s);
        assert id in site.lru;
        RemoveOldest(c, s);
        pre := ReserveAfter(c, s, minimum, target, id);
      }
    } else if c.order != [] {
      var id := Last(c.order);
      OldestOfAll(c);
      RemoveOldest(c, c.store[id].owner);
      pre := ReserveAfter(c, s, minimum, target, id);
    }
  }

  lemma NeededNone(c: Cache, s: nat, minimum: nat)
    requires s in c.sites
    ensures Needed(c, c, s, minimum)
  {
  }

  lemma SameOutstanding(c: Cache, q: Cache, s: nat, minimum: nat)
    requires Evicted(c, q)
    ensures SiteOutstanding(q, s) == SiteOutstanding(c, s) && Outstanding(q) == Outstanding(c)
    ensures CanMake(q, s, minimum) == CanMake(c, s, minimum)
    ensures q.flights == c.flights && q.maxSite == c.maxSite && q.maxProcess == c.maxProcess && q.sites.Keys == c.sites.Keys
  {
  }

  lemma {:induction false} ReserveAfter(c: Cache, s: nat, minimum: nat, target: int, id: nat) returns (pre: Cache)
    requires Sound(c) && s in c.sites && 0 <= minimum < target && id in c.store
    requires Sound(Remove(c, id)) && Evicted(c, Remove(c, id))
    requires if c.store[id].owner == s then Left(c, s) <= minimum else c.maxProcess - c.bytes <= minimum
    ensures Needed(c, pre, s, minimum) && pre.flights == c.flights && pre.maxSite == c.maxSite && pre.maxProcess == c.maxProcess
    ensures s in Remove(c, id).sites && ListsOk(Remove(c, id))
    ensures var (q, amount) := ReserveLoop(Remove(c, id), s, minimum, target);
      && (amount > 0 <==> CanMake(c, s, minimum))
      && (amount > 0 ==> Left(pre, s) > minimum && amount == Least(target, Left(pre, s)) && q == Charge(pre, s, amount))
      && (amount == 0 ==> q == pre)
    decreases |c.order|, 0
  {
    hide Sum, ListsOk, AccountsOk, FlightsOk, FreshId, Dropped, Restrict, Remove, Charge, CostOf, Evicted, Needed, SiteOutstanding,
         Outstanding, CanMake, ReserveLoop;
    var c1 := Remove(c, id);
    SameOutstanding(c, c1, s, minimum);
    RemoveEffect(c, id);
    RemovedNeeded(c, s, minimum, id);
    pre := ReserveLoopExactly(c1, s, minimum, target);
    NeededLater(c, c1, pre, s, minimum);
  }

  /** The least that a capture may need: 512 bytes, the key and a length in decimal; and the most. */
  function LeastNeed(key: Key): nat {
    562 + |key.authority| + |key.path| + |key.query|
  }

  function MostNeed(key: Key): nat {
    0x80_0000 + 0x1_0000 + 512 + |key.authority| + |key.path| + |key.query|
  }

  /** What is charged to make q from pre, and nothing else. */
  ghost predicate ChargedOnly(pre: Cache, q: Cache, s: nat, amount: nat) {
    && s in pre.sites && q == pre.(bytes := pre.bytes + amount,
         sites := pre.sites[s := pre.sites[s].(bytes := pre.sites[s].bytes + amount)])
  }

  /**
   Bytes are reserved for a key if and only if, apart from what captures have reserved, site
   and process would have more than its least need; then as much as is left, up to its most,
   and of the entries none goes that did not have to.
   */
  lemma ReservedExactly(c: Cache, s: nat, key: Key) returns (pre: Cache)
    requires Inv(c) && s in c.sites
    ensures var (q, amount) := Reserve(c, s, key);
      && Needed(c, pre, s, LeastNeed(key)) && pre.flights == c.flights
      && (amount > 0 <==> CanMake(c, s, LeastNeed(key)))
      && (amount > 0 ==> LeastNeed(key) < Left(pre, s) && amount == Least(MostNeed(key), Left(pre, s)) && ChargedOnly(pre, q, s, amount))
      && (amount == 0 ==> q == pre)
  {
    hide Sum, Inv, ReserveLoop, Needed, CostOf, SiteOutstanding, Outstanding;
    SoundInv(c);
    pre := c;
    NeededNone(c, s, LeastNeed(key));
    if !(c.maxProcess <= 0 || c.maxSite <= 0 || TargetReservation(c, key) <= MinimumReservation(key)) {
      pre := ReserveLoopExactly(c, s, MinimumReservation(key), TargetReservation(c, key));
      assert s in pre.sites by { NeededSite(c, pre, s, MinimumReservation(key)); }
      LeftAtMost(pre, s);
    }
  }

  lemma SoundInv(c: Cache)
    requires Inv(c)
    ensures Sound(c) && ListsOk(c)
  {
  }

  lemma NeededSite(c: Cache, pre: Cache, s: nat, minimum: nat)
    requires Needed(c, pre, s, minimum)
    ensures s in pre.sites
  {
  }

  lemma LeftAtMost(c: Cache, s: nat)
    requires s in c.sites
    ensures Left(c, s) <= c.maxSite && Left(c, s) <= c.maxProcess
  {
  }

  // ---------- looking up ----------

  predicate NewFlight(fl: Flight, s: nat, key: Key) {
    fl.site == s && fl.key == key && !fl.started && !fl.stored && fl.done == 0 && fl.reserved > LeastNeed(key)
  }

  /**
   A closed site answers nothing. Otherwise a fresh entry is handed out; else whoever is not
   the first waits for the flight of the key; else a flight begins if its bytes can be reserved.
   */
  lemma LookedExactly(c: Cache, s: nat, key: Key, now: int)
    requires Inv(c) && s in c.sites
    ensures ListsOk(c) && var (q, answer) := LookupOrBegin(c, s, key, now); var site := c.sites[s];
      && (site.closed ==> answer == Unavailable && q == c)
      && (!site.closed && Fresh(c, s, key, now) ==> answer == Hit(site.entries[key]))
      && (!site.closed && !Fresh(c, s, key, now) && key in site.flights ==> answer == Wait(site.flights[key]))
      && (!site.closed && !Fresh(c, s, key, now) && key !in site.flights ==>
            (answer.Lead? || answer.Unavailable?) && (answer.Lead? <==> CanMake(c, s, LeastNeed(key))))
      && (answer.Lead? ==>
            && answer.flight !in c.flights && answer.flight in q.flights && NewFlight(q.flights[answer.flight], s, key)
            && q.flights == c.flights[answer.flight := q.flights[answer.flight]]
            && s in q.sites && q.sites[s].flights == site.flights[key := answer.flight])
      && (!answer.Lead? ==> q.flights == c.flights && s in q.sites && q.sites[s].flights == site.flights)
  {
    hide Sum, Inv, Reserve, Get, Needed, CostOf, SiteOutstanding, Outstanding, ListsOk, FreshId;
    SoundInv(c);
    FreshInv(c);
    if !c.sites[s].closed {
      GetKeeps(c, s, key, now);
      GetExactly(c, s, key, now);
      GetFlights(c, s, key, now);
      var (c1, found) := Get(c, s, key, now);
      if found.None? && key !in c1.sites[s].flights {
        SameReserved(c, c1, s, LeastNeed(key));
        var pre := ReservedExactly(c1, s, key);
        ReserveSites(c1, s, key);
      }
    }
  }

  lemma FreshInv(c: Cache)
    requires Inv(c)
    ensures c.nextId !in c.flights
  {
  }

  lemma GetFlights(c: Cache, s: nat, key: Key, now: int)
    requires s in c.sites
    ensures var q := Get(c, s, key, now).0;
      q.flights == c.flights && q.maxSite == c.maxSite && q.maxProcess == c.maxProcess && q.nextId == c.nextId
  {
  }

  lemma SameReserved(c: Cache, q: Cache, s: nat, minimum: nat)
    requires q.flights == c.flights && q.maxSite == c.maxSite && q.maxProcess == c.maxProcess
    ensures CanMake(q, s, minimum) == CanMake(c, s, minimum)
  {
  }

  lemma ReserveSites(c: Cache, s: nat, key: Key)
    requires Inv(c) && s in c.sites
    ensures ListsOk(c) && var q := Reserve(c, s, key).0; s in q.sites && q.sites[s].flights == c.sites[s].flights && q.nextId == c.nextId
  {
    hide Reserve, ListsOk, AccountsOk, LimitsOk, FlightsOk, FreshId;
    var pre := ReserveOk(c, s, key);
    assert SiteEvicted(c, pre, s);
  }

  // ---------- capturing ----------

  /** A capture may begin exactly while its flight is in the table of an open site; it is then marked. */
  lemma BeganExactly(c: Cache, f: nat)
    requires Inv(c)
    ensures var (q, ok) := BeginCapture(c, f);
      && (ok <==> f in c.flights && exists s: nat, key: Key :: s in c.sites && key in c.sites[s].flights && c.sites[s].flights[key] == f)
      && (!ok ==> q == c)
      && (ok ==> q == c.(flights := q.flights) && q.flights == c.flights[f := c.flights[f].(started := true)])
  {
    hide ListsOk, AccountsOk, LimitsOk, FreshId;
    assert FlightOk(c, f);
    forall s: nat, key: Key | f in c.flights && s in c.sites && key in c.sites[s].flights && c.sites[s].flights[key] == f
      ensures InTable(c, f) {
      assert TableOk(c, s);
    }
    if f in c.flights {
      assert TableOk(c, c.flights[f].site);
    }
  }

  /** What a flight in the table had reserved is enough for the capture and its key, and it has not expired. */
  predicate Kept(fl: Flight, x: Option<Captured>, now: int) {
    x.Some? && x.value.cost + |fl.key.authority| + |fl.key.path| + |fl.key.query| <= fl.reserved && now < x.value.expiresAt
  }

  ghost predicate StoredNew(c: Cache, q: Cache, fl: Flight, x: Captured) {
    var id := c.nextId;
    && id !in c.store && q.order == [id] + c.order && id in q.store && q.store == c.store[id := q.store[id]]
    && q.store[id] == Entry(fl.key, fl.site, x.cost + |fl.key.authority| + |fl.key.path| + |fl.key.query|, x.expiresAt)
    && fl.site in c.sites && fl.site in q.sites
    && q.sites[fl.site].entries == c.sites[fl.site].entries[fl.key := id]
    && q.bytes + fl.reserved == c.bytes + q.store[id].cost
    && q.sites[fl.site].bytes + fl.reserved == c.sites[fl.site].bytes + q.store[id].cost
  }

  /**
   The end of a flight: its response is stored under its key exactly if it is kept, at its own
   cost; the rest of the reservation is given back, and the waiters are woken and told which.
   */
  lemma FinishedExactly(c: Cache, f: nat, x: Option<Captured>, now: int)
    requires Inv(c) && InTable(c, f)
    ensures ListsOk(c) && FreshId(c) && var q := FinishFlight(c, f, x, now); var fl := c.flights[f];
      && fl.site in q.sites && q.sites[fl.site].flights == c.sites[fl.site].flights - {fl.key}
      && f in q.flights && q.flights == c.flights[f := q.flights[f]]
      && q.flights[f] == fl.(reserved := 0, stored := Kept(fl, x, now), done := 1)
      && (Kept(fl, x, now) ==> StoredNew(c, q, fl, x.value))
      && (!Kept(fl, x, now) ==>
            && q.order == c.order && q.store == c.store && q.sites[fl.site].entries == c.sites[fl.site].entries
            && q.bytes + fl.reserved == c.bytes && q.sites[fl.site].bytes + fl.reserved == c.sites[fl.site].bytes)
      && (forall u :: u in c.sites && u != fl.site ==> u in q.sites && q.sites[u] == c.sites[u])
  {
    hide Sum, CostOf, ListsOk, AccountsOk, LimitsOk, FlightsOk, FinishFlight, Release, Land, Inserted;
    SoundInv(c);
    FinishExact(c, f, x, now);
    ReleaseAccounts(c, f);
    FlightDone(c, f);
    var c1 := Release(c, f);
    if Kept(c.flights[f], x, now) {
      var fl := c.flights[f];
      var e := Entry(fl.key, fl.site, CostWith(fl.key, x.value), x.value.expiresAt);
      InsertedIs(c1, c1.nextId, e);
      LandIs(Inserted(c1, c1.nextId, e), f, true);
    } else {
      LandIs(c1, f, false);
    }
  }

  lemma FlightDone(c: Cache, f: nat)
    requires Inv(c) && InTable(c, f)
    ensures c.flights[f].done == 0 && c.nextId !in c.store
  {
    assert FlightOk(c, f);
  }

  lemma InsertedIs(c: Cache, id: nat, e: Entry)
    requires e.owner in c.sites
    ensures var q := Inserted(c, id, e); var site := c.sites[e.owner];
      && q.order == [id] + c.order && q.store == c.store[id := e] && q.flights == c.flights && q.bytes == c.bytes + e.cost
      && q.sites == c.sites[e.owner := q.sites[e.owner]] && q.sites[e.owner].flights == site.flights
      && q.sites[e.owner].entries == site.entries[e.key := id] && q.sites[e.owner].bytes == site.bytes + e.cost
  {
  }

  lemma LandIs(c: Cache, f: nat, stored: bool)
    requires f in c.flights && c.flights[f].site in c.sites
    ensures var q := Land(c, f, stored); var fl := c.flights[f]; var site := c.sites[fl.site];
      && q.order == c.order && q.store == c.store && q.bytes == c.bytes
      && q.sites == c.sites[fl.site := site.(flights := site.flights - {fl.key})]
      && q.flights == c.flights[f := fl.(stored := stored, done := fl.done + 1)]
  {
  }

  /** A closed site takes nothing in: no capture begins on one of its flights and no response is stored. */
  lemma ClosedTakesNothing(c: Cache, s: nat, f: nat, key: Key, x: Captured, now: int)
    requires ListsOk(c) && FreshId(c) && s in c.sites && c.sites[s].closed
    ensures Store(c, s, key, x, now) == (c, false)
    ensures f in c.flights && c.flights[f].site == s ==> BeginCapture(c, f) == (c, false)
  {
  }
}
