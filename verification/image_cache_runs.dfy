/** What the image cache keeps in every run: byte accounts, limits, flights and eviction order. */
module ImageCacheRuns {
  import opened Wrappers
  import opened MapSums
  import opened ImageCacheSpec

  // ---------- accounts ----------

  function CostOf(ids: seq<nat>, store: map<nat, Entry>): nat {
    if ids == [] then 0
    else (if ids[0] in store then store[ids[0]].cost else 0) + CostOf(ids[1..], store)
  }

  function ReservedAt(x: Flight, s: nat): nat {
    if x.site == s then x.reserved else 0
  }

  function Reserved(flights: map<nat, Flight>, s: nat): map<nat, nat> {
    map f | f in flights :: ReservedAt(flights[f], s)
  }

  function AllReserved(flights: map<nat, Flight>): map<nat, nat> {
    map f | f in flights :: flights[f].reserved
  }

  function SiteBytes(sites: map<nat, Site>): map<nat, nat> {
    map s | s in sites :: sites[s].bytes
  }

  /** A site's bytes are the costs of its entries and the reservations of its flights, running captures included. */
  ghost predicate SiteAccount(c: Cache, s: nat) {
    s in c.sites ==> c.sites[s].bytes == CostOf(c.sites[s].lru, c.store) + Sum(Reserved(c.flights, s))
  }

  ghost predicate AccountsOk(c: Cache) {
    && (forall s :: SiteAccount(c, s))
    && c.bytes == CostOf(c.order, c.store) + Sum(AllReserved(c.flights))
    && c.bytes == Sum(SiteBytes(c.sites))
  }

  function Limit(n: int): nat {
    if n > 0 then n else 0
  }

  ghost predicate SiteWithin(c: Cache, s: nat) {
    s in c.sites ==> c.sites[s].bytes <= Limit(c.maxSite)
  }

  ghost predicate LimitsOk(c: Cache) {
    c.bytes <= Limit(c.maxProcess) && forall s :: SiteWithin(c, s)
  }

  /** A flight in the table is its key's only holder and has not woken its waiters; any other has, once. */
  ghost predicate FlightOk(c: Cache, f: nat) {
    f in c.flights ==>
      && c.flights[f].site in c.sites
      && c.flights[f].done == (if InTable(c, f) then 0 else 1)
      && (InTable(c, f) ==> c.flights[f].reserved > 0)
      && (!InTable(c, f) && c.flights[f].reserved > 0 ==> c.flights[f].started)
  }

  ghost predicate TableOk(c: Cache, s: nat) {
    s in c.sites ==>
      && (forall k :: k in c.sites[s].flights ==>
            var f := c.sites[s].flights[k];
            f in c.flights && c.flights[f].site == s && c.flights[f].key == k && k !in c.sites[s].entries)
      && (c.sites[s].closed ==> c.sites[s].entries == map[] && c.sites[s].flights == map[])
  }

  ghost predicate FlightsOk(c: Cache) {
    (forall f :: FlightOk(c, f)) && (forall s :: TableOk(c, s))
  }

  ghost predicate Inv(c: Cache) {
    ListsOk(c) && AccountsOk(c) && LimitsOk(c) && FlightsOk(c) && FreshId(c)
  }

  // ---------- sums over a list ----------

  lemma {:induction false} CostDropped(ids: seq<nat>, store: map<nat, Entry>, id: nat)
    requires Distinct(ids) && id in store
    ensures CostOf(Dropped(ids, id), store - {id}) == CostOf(ids, store) - (if id in ids then store[id].cost else 0)
    ensures id in ids ==> store[id].cost <= CostOf(ids, store)
  {
    if ids != [] {
      assert ids[0] !in ids[1..];
      assert Distinct(ids[1..]);
      CostDropped(ids[1..], store, id);
    }
  }

  lemma {:induction false} CostAgrees(ids: seq<nat>, store: map<nat, Entry>, after: map<nat, Entry>)
    requires forall x :: x in ids ==> (x in store <==> x in after) && (x in store ==> store[x].cost == after[x].cost)
    ensures CostOf(ids, after) == CostOf(ids, store)
  {
    if ids != [] {
      assert ids[0] in ids;
      CostAgrees(ids[1..], store, after);
    }
  }

  lemma CostFront(id: nat, ids: seq<nat>, store: map<nat, Entry>)
    ensures CostOf([id] + ids, store) == (if id in store then store[id].cost else 0) + CostOf(ids, store)
  {
    assert ([id] + ids)[1..] == ids;
  }

  lemma {:induction false} CostMoved(ids: seq<nat>, store: map<nat, Entry>, id: nat)
    requires Distinct(ids) && id in ids
    ensures CostOf([id] + Dropped(ids, id), store) == CostOf(ids, store)
  {
    CostFront(id, Dropped(ids, id), store);
    if ids[0] == id {
      assert id !in ids[1..];
      DroppedAbsent(ids[1..], id);
    } else {
      assert Distinct(ids[1..]);
      CostMoved(ids[1..], store, id);
      CostFront(id, Dropped(ids[1..], id), store);
      CostFront(ids[0], Dropped(ids[1..], id), store);
    }
  }

  lemma {:induction false} RestrictDistinct(ids: seq<nat>, store: map<nat, Entry>, s: nat)
    requires Distinct(ids)
    ensures Distinct(Restrict(ids, store, s))
  {
    if ids != [] {
      assert ids[0] !in ids[1..];
      assert Distinct(ids[1..]);
      RestrictDistinct(ids[1..], store, s);
      RestrictMembers(ids[1..], store, s);
    }
  }

  lemma LruDistinct(c: Cache, s: nat)
    requires ListsOk(c) && s in c.sites
    ensures Distinct(c.sites[s].lru)
  {
    hide Restrict;
    assert SiteLinked(c, s);
    RestrictDistinct(c.order, c.store, s);
  }

  // ---------- removing an entry ----------

  lemma BytesStored(sites: map<nat, Site>, s: nat, site: Site)
    requires s in sites
    ensures Sum(SiteBytes(sites[s := site])) == Sum(SiteBytes(sites)) - sites[s].bytes + site.bytes
    ensures sites[s].bytes <= Sum(SiteBytes(sites))
  {
    hide Sum;
    assert SiteBytes(sites[s := site]) == SiteBytes(sites)[s := site.bytes];
    SumStore(SiteBytes(sites), s, site.bytes);
    SumAtLeast(SiteBytes(sites), s);
  }

  /** The clamps of a removal never fire. */
  lemma RemoveAccounts(c: Cache, id: nat)
    requires ListsOk(c) && AccountsOk(c) && id in c.store
    ensures AccountsOk(Remove(c, id))
    ensures var e := c.store[id]; e.owner in c.sites && e.cost <= c.sites[e.owner].bytes && e.cost <= c.bytes
    ensures var e := c.store[id]; var q := Remove(c, id);
      && q.bytes == c.bytes - e.cost && q.flights == c.flights && q.sites.Keys == c.sites.Keys
      && e.owner in q.sites && q.sites[e.owner].bytes == c.sites[e.owner].bytes - e.cost
      && (forall s :: s in c.sites && s != e.owner ==> q.sites[s] == c.sites[s])
  {
    hide Sum, Dropped, Restrict, Distinct, CostOf;
    var e := c.store[id];
    var q := Remove(c, id);
    assert EntryLinked(c, id);
    RemoveEffect(c, id);
    RemoveOwner(c, id);
    CostDropped(c.order, c.store, id);
    BytesStored(c.sites, e.owner, q.sites[e.owner]);
    forall s ensures SiteAccount(q, s) {
      RemoveOther(c, id, s);
    }
  }

  lemma RemoveOwner(c: Cache, id: nat)
    requires ListsOk(c) && AccountsOk(c) && id in c.store
    ensures var e := c.store[id];
      && e.owner in c.sites && id in c.sites[e.owner].lru
      && e.cost <= CostOf(c.sites[e.owner].lru, c.store) <= c.sites[e.owner].bytes
      && CostOf(Dropped(c.sites[e.owner].lru, id), c.store - {id}) == CostOf(c.sites[e.owner].lru, c.store) - e.cost
  {
    hide Sum, Dropped, Restrict, Distinct, CostOf;
    var e := c.store[id];
    assert EntryLinked(c, id);
    assert SiteLinked(c, e.owner);
    assert SiteAccount(c, e.owner);
    RestrictMembers(c.order, c.store, e.owner);
    LruDistinct(c, e.owner);
    CostDropped(c.sites[e.owner].lru, c.store, id);
  }

  lemma RemoveOther(c: Cache, id: nat, s: nat)
    requires ListsOk(c) && AccountsOk(c) && id in c.store
    ensures SiteAccount(Remove(c, id), s)
  {
    hide Sum, Dropped, Restrict, Distinct, CostOf, AccountsOk;
    assert SiteAccount(c, s) by { AccountAt(c, s); }
    assert EntryLinked(c, id);
    RemoveOwner(c, id);
    if s in c.sites && s != c.store[id].owner {
      LruLinked(c, s);
      CostAgrees(c.sites[s].lru, c.store, c.store - {id});
    }
  }

  lemma AccountAt(c: Cache, s: nat)
    requires AccountsOk(c)
    ensures SiteAccount(c, s)
  {
  }

  /** Less is still within the limits, and no flight is touched. */
  lemma RemoveKeeps(c: Cache, id: nat)
    requires Inv(c) && id in c.store
    ensures Inv(Remove(c, id))
  {
    hide ListsOk, AccountsOk, Dropped, Restrict, Remove;
    RemoveLists(c, id);
    RemoveAccounts(c, id);
    RemoveTable(c, id);
    var q := Remove(c, id);
    forall s ensures SiteWithin(q, s) {
      assert SiteWithin(c, s);
    }
  }

  lemma RemoveTable(c: Cache, id: nat)
    requires ListsOk(c) && FlightsOk(c) && FreshId(c) && id in c.store
    ensures FlightsOk(Remove(c, id)) && FreshId(Remove(c, id))
    ensures Remove(c, id).maxSite == c.maxSite && Remove(c, id).maxProcess == c.maxProcess
  {
    hide ListsOk, Dropped, Restrict;
    var q := Remove(c, id);
    forall f ensures FlightOk(q, f) {
      assert FlightOk(c, f);
    }
    forall s ensures TableOk(q, s) {
      assert TableOk(c, s);
    }
  }

  // ---------- using an entry ----------

  lemma TouchKeeps(c: Cache, s: nat, id: nat)
    requires Inv(c) && id in c.store && c.store[id].owner == s && s in c.sites
    ensures Inv(Touch(c, s, id))
  {
    hide Sum, Dropped, Restrict, Distinct, CostOf, ListsOk;
    var q := Touch(c, s, id);
    TouchLists(c, s, id);
    LruMember(c, id);
    LruDistinct(c, s);
    OrderDistinct(c);
    CostMoved(c.order, c.store, id);
    CostMoved(c.sites[s].lru, c.store, id);
    assert SiteBytes(q.sites) == SiteBytes(c.sites);
    forall u ensures SiteAccount(q, u) && SiteWithin(q, u) {
      assert SiteAccount(c, u) && SiteWithin(c, u);
    }
    forall f ensures FlightOk(q, f) {
      assert FlightOk(c, f);
    }
    forall u ensures TableOk(q, u) {
      assert TableOk(c, u);
    }
  }

  lemma OrderDistinct(c: Cache)
    requires ListsOk(c)
    ensures Distinct(c.order)
  {
  }

  lemma LruMember(c: Cache, id: nat)
    requires ListsOk(c) && id in c.store
    ensures id in c.order && c.store[id].owner in c.sites && id in c.sites[c.store[id].owner].lru
  {
    hide Restrict;
    assert EntryLinked(c, id);
    assert SiteLinked(c, c.store[id].owner);
    RestrictMembers(c.order, c.store, c.store[id].owner);
  }

  lemma GetKeeps(c: Cache, s: nat, key: Key, now: int)
    requires Inv(c) && s in c.sites
    ensures Inv(Get(c, s, key, now).0) && Get(c, s, key, now).0.sites.Keys == c.sites.Keys
    ensures Get(c, s, key, now).1.None? ==> s in Get(c, s, key, now).0.sites && key !in Get(c, s, key, now).0.sites[s].entries
    ensures s in Get(c, s, key, now).0.sites && Get(c, s, key, now).0.sites[s].closed == c.sites[s].closed
    ensures Get(c, s, key, now).0.sites[s].flights == c.sites[s].flights
  {
    hide AccountsOk, LimitsOk, FlightsOk, FreshId, Restrict, Touch;
    if key in c.sites[s].entries {
      var id := c.sites[s].entries[key];
      assert SiteLinked(c, s);
      if now >= c.store[id].expiresAt {
        RemoveEffect(c, id);
        RemoveKeeps(c, id);
      } else {
        TouchKeeps(c, s, id);
        TouchFrame(c, s, id);
      }
    }
  }

  lemma TouchFrame(c: Cache, s: nat, id: nat)
    requires s in c.sites
    ensures var q := Touch(c, s, id);
      && q.sites.Keys == c.sites.Keys && s in q.sites
      && q.sites[s].closed == c.sites[s].closed && q.sites[s].flights == c.sites[s].flights
  {
  }

  // ---------- evicting ----------

  /** Everything but the limits. */
  ghost predicate Sound(c: Cache) {
    ListsOk(c) && AccountsOk(c) && FlightsOk(c) && FreshId(c)
  }

  ghost predicate SiteEvicted(c: Cache, q: Cache, s: nat) {
    s in c.sites ==>
      && s in q.sites && q.sites[s].lru <= c.sites[s].lru && q.sites[s].bytes <= c.sites[s].bytes
      && q.sites[s].closed == c.sites[s].closed && q.sites[s].flights == c.sites[s].flights
  }

  /** Only entries are gone, and of every site only its least recently used ones. */
  ghost predicate Evicted(c: Cache, q: Cache) {
    && q.sites.Keys == c.sites.Keys && q.flights == c.flights && q.nextId == c.nextId && q.bytes <= c.bytes
    && q.maxSite == c.maxSite && q.maxProcess == c.maxProcess
    && (forall s :: SiteEvicted(c, q, s))
    && (forall id :: id in q.store ==> id in c.store && q.store[id] == c.store[id])
  }

  lemma EvictedTwice(a: Cache, b: Cache, c: Cache)
    requires Evicted(a, b) && Evicted(b, c)
    ensures Evicted(a, c)
  {
    forall s ensures SiteEvicted(a, c, s) {
      assert SiteEvicted(a, b, s) && SiteEvicted(b, c, s);
      if s in a.sites {
        PrefixTwice(c.sites[s].lru, b.sites[s].lru, a.sites[s].lru);
      }
    }
  }

  lemma PrefixTwice(a: seq<nat>, b: seq<nat>, c: seq<nat>)
    requires a <= b && b <= c
    ensures a <= c
  {
  }

  lemma {:induction false} DroppedLast(ids: seq<nat>)
    requires Distinct(ids) && ids != []
    ensures Dropped(ids, Last(ids)) == ids[..|ids| - 1]
  {
    if |ids| == 1 {
      assert ids[1..] == [];
    } else {
      assert Distinct(ids[1..]) && Last(ids[1..]) == Last(ids) && ids[0] != Last(ids);
      DroppedLast(ids[1..]);
      assert [ids[0]] + ids[1..][..|ids| - 2] == ids[..|ids| - 1];
    }
  }

  /** The least recently used entry of all is the least recently used one of its own site. */
  lemma {:induction false} LastOfRestrict(ids: seq<nat>, store: map<nat, Entry>, s: nat)
    requires ids != [] && Last(ids) in store && store[Last(ids)].owner == s
    ensures Restrict(ids, store, s) != [] && Last(Restrict(ids, store, s)) == Last(ids)
  {
    if |ids| > 1 {
      assert Last(ids[1..]) == Last(ids);
      LastOfRestrict(ids[1..], store, s);
    } else {
      assert ids[1..] == [];
    }
  }

  lemma OldestOfAll(c: Cache)
    requires ListsOk(c) && c.order != []
    ensures var id := Last(c.order);
      && id in c.store && c.store[id].owner in c.sites
      && c.sites[c.store[id].owner].lru != [] && Last(c.sites[c.store[id].owner].lru) == id
  {
    hide Restrict;
    var id := Last(c.order);
    OrderLinked(c, id);
    LruMember(c, id);
    assert SiteLinked(c, c.store[id].owner);
    LastOfRestrict(c.order, c.store, c.store[id].owner);
  }

  lemma RemoveOldest(c: Cache, s: nat)
    requires Sound(c) && s in c.sites && c.sites[s].lru != []
    ensures Sound(Remove(c, Last(c.sites[s].lru))) && Evicted(c, Remove(c, Last(c.sites[s].lru)))
    ensures Last(c.sites[s].lru) in c.store
  {
    hide ListsOk, AccountsOk, FlightsOk, FreshId, Dropped, Restrict, Remove, Distinct;
    var id := Last(c.sites[s].lru);
    LruLinked(c, s);
    assert id in c.sites[s].lru;
    var q := Remove(c, id);
    RemoveLists(c, id);
    RemoveEffect(c, id);
    RemoveAccounts(c, id);
    RemoveTable(c, id);
    LruDistinct(c, s);
    DroppedLast(c.sites[s].lru);
    RemoveFrame(c, id);
    forall u ensures SiteEvicted(c, q, u) {
      PrefixSelf(c, u);
    }
  }

  lemma PrefixSelf(c: Cache, u: nat)
    ensures u in c.sites ==> c.sites[u].lru <= c.sites[u].lru
  {
  }

  lemma RemoveFrame(c: Cache, id: nat)
    requires ListsOk(c) && id in c.store
    ensures var q := Remove(c, id); var s := c.store[id].owner;
      && s in c.sites && s in q.sites && q.sites[s].closed == c.sites[s].closed && q.sites[s].flights == c.sites[s].flights
      && q.nextId == c.nextId
  {
    hide Dropped, Restrict;
    assert EntryLinked(c, id);
  }

  lemma {:induction false} EvictSiteOk(c: Cache, s: nat)
    requires Sound(c) && s in c.sites
    ensures Sound(EvictSite(c, s)) && Evicted(c, EvictSite(c, s))
    ensures s in EvictSite(c, s).sites
    ensures EvictSite(c, s).sites[s].bytes <= c.maxSite || EvictSite(c, s).sites[s].lru == []
    decreases |c.order|
  {
    hide ListsOk, AccountsOk, FlightsOk, FreshId, Dropped, Restrict, Remove;
    if c.sites[s].bytes > c.maxSite && c.sites[s].lru != [] {
      var id := Last(c.sites[s].lru);
      RemoveOldest(c, s);
      RemoveEffect(c, id);
      EvictSiteOk(Remove(c, id), s);
      EvictedTwice(c, Remove(c, id), EvictSite(Remove(c, id), s));
    } else {
      EvictedSelf(c);
    }
  }

  lemma EvictedSelf(c: Cache)
    ensures Evicted(c, c)
  {
  }

  lemma {:induction false} EvictProcessOk(c: Cache)
    requires Sound(c)
    ensures Sound(EvictProcess(c)) && Evicted(c, EvictProcess(c))
    ensures EvictProcess(c).bytes <= c.maxProcess || EvictProcess(c).order == []
    decreases |c.order|
  {
    hide ListsOk, AccountsOk, FlightsOk, FreshId, Dropped, Restrict, Remove;
    if c.bytes > c.maxProcess && c.order != [] {
      var id := Last(c.order);
      OldestOfAll(c);
      RemoveOldest(c, c.store[id].owner);
      RemoveEffect(c, id);
      EvictProcessOk(Remove(c, id));
      EvictedTwice(c, Remove(c, id), EvictProcess(Remove(c, id)));
    } else {
      EvictedSelf(c);
    }
  }

  // ---------- reserving ----------

  ghost predicate Room(c: Cache, s: nat, amount: nat) {
    s in c.sites && c.sites[s].bytes + amount <= c.maxSite && c.bytes + amount <= c.maxProcess
  }

  /**
   A reservation is made within both limits, after evicting only least recently used
   entries; pre is the cache before it is charged.
   */
  lemma {:induction false} ReserveLoopOk(c: Cache, s: nat, minimum: nat, target: int) returns (pre: Cache)
    requires Sound(c) && s in c.sites && 0 <= minimum < target
    ensures Sound(pre) && Evicted(c, pre) && s in pre.sites
    ensures var (q, amount) := ReserveLoop(c, s, minimum, target);
      && (amount == 0 ==> q == pre)
      && (amount > 0 ==> minimum < amount <= target && Room(pre, s, amount) && q == Charge(pre, s, amount))
    decreases |c.order|
  {
    hide ListsOk, AccountsOk, FlightsOk, FreshId, Dropped, Restrict, Remove, Charge;
    var site := c.sites[s];
    var siteLeft := c.maxSite - site.bytes;
    var processLeft := c.maxProcess - c.bytes;
    EvictedSelf(c);
    pre := c;
    if Least(siteLeft, processLeft) > minimum {
    } else if siteLeft <= minimum {
      if site.lru != [] {
        RemoveOldest(c, s);
        RemoveEffect(c, Last(site.lru));
        pre := ReserveLoopOk(Remove(c, Last(site.lru)), s, minimum, target);
        EvictedTwice(c, Remove(c, Last(site.lru)), pre);
      }
    } else if c.order != [] {
      OldestOfAll(c);
      RemoveOldest(c, c.store[Last(c.order)].owner);
      RemoveEffect(c, Last(c.order));
      pre := ReserveLoopOk(Remove(c, Last(c.order)), s, minimum, target);
      EvictedTwice(c, Remove(c, Last(c.order)), pre);
    }
  }

  lemma ReserveOk(c: Cache, s: nat, key: Key) returns (pre: Cache)
    requires Sound(c) && s in c.sites
    ensures Sound(pre) && Evicted(c, pre) && s in pre.sites
    ensures var (q, amount) := Reserve(c, s, key);
      && (amount == 0 ==> q == pre)
      && (amount > 0 ==>
           && MinimumReservation(key) < amount <= TargetReservation(c, key)
           && Room(pre, s, amount) && q == Charge(pre, s, amount))
  {
    hide ListsOk, AccountsOk, FlightsOk, FreshId, Charge, ReserveLoop;
    EvictedSelf(c);
    pre := c;
    if !(c.maxProcess <= 0 || c.maxSite <= 0 || TargetReservation(c, key) <= MinimumReservation(key)) {
      pre := ReserveLoopOk(c, s, MinimumReservation(key), TargetReservation(c, key));
    }
  }

  lemma EvictedLimits(c: Cache, q: Cache)
    requires LimitsOk(c) && Evicted(c, q)
    ensures LimitsOk(q)
  {
    forall s ensures SiteWithin(q, s) {
      assert SiteWithin(c, s) && SiteEvicted(c, q, s);
    }
  }

  // ---------- flights and their bytes ----------

  lemma ReservedStored(flights: map<nat, Flight>, f: nat, x: Flight, s: nat)
    ensures Sum(Reserved(flights[f := x], s))
         == Sum(Reserved(flights, s)) - (if f in flights then ReservedAt(flights[f], s) else 0) + ReservedAt(x, s)
    ensures f in flights ==> ReservedAt(flights[f], s) <= Sum(Reserved(flights, s))
  {
    hide Sum, ReservedAt;
    assert Reserved(flights[f := x], s) == Reserved(flights, s)[f := ReservedAt(x, s)];
    SumStore(Reserved(flights, s), f, ReservedAt(x, s));
    if f in flights {
      SumAtLeast(Reserved(flights, s), f);
    }
  }

  lemma AllReservedStored(flights: map<nat, Flight>, f: nat, x: Flight)
    ensures Sum(AllReserved(flights[f := x]))
         == Sum(AllReserved(flights)) - (if f in flights then flights[f].reserved else 0) + x.reserved
    ensures f in flights ==> flights[f].reserved <= Sum(AllReserved(flights))
  {
    hide Sum;
    assert AllReserved(flights[f := x]) == AllReserved(flights)[f := x.reserved];
    SumStore(AllReserved(flights), f, x.reserved);
    if f in flights {
      SumAtLeast(AllReserved(flights), f);
    }
  }

  /** A flight of site s is replaced by one with another reservation, and the bytes follow. */
  lemma AccountsMoved(c: Cache, q: Cache, s: nat, f: nat, x: Flight)
    requires AccountsOk(c) && SameLists(c, q) && s in c.sites && x.site == s
    requires f in c.flights ==> c.flights[f].site == s
    requires q.flights == c.flights[f := x]
    requires var before := if f in c.flights then c.flights[f].reserved else 0;
      && q.bytes == c.bytes - before + x.reserved
      && q.sites[s].bytes == c.sites[s].bytes - before + x.reserved
    requires forall u :: u in c.sites && u != s ==> q.sites[u].bytes == c.sites[u].bytes
    ensures AccountsOk(q)
  {
    hide Sum, CostOf;
    AllReservedStored(c.flights, f, x);
    assert SiteBytes(q.sites) == SiteBytes(c.sites[s := q.sites[s]]);
    BytesStored(c.sites, s, q.sites[s]);
    forall u ensures SiteAccount(q, u) {
      assert SiteAccount(c, u);
      ReservedStored(c.flights, f, x, u);
    }
  }

  lemma FlightBytes(c: Cache, f: nat)
    requires AccountsOk(c) && f in c.flights && c.flights[f].site in c.sites
    ensures c.flights[f].reserved <= c.sites[c.flights[f].site].bytes && c.flights[f].reserved <= c.bytes
  {
    hide Sum, CostOf;
    assert SiteAccount(c, c.flights[f].site);
    ReservedStored(c.flights, f, c.flights[f], c.flights[f].site);
    AllReservedStored(c.flights, f, c.flights[f]);
  }

  /** Giving a reservation back never meets a clamp. */
  lemma ReleaseAccounts(c: Cache, f: nat)
    requires ListsOk(c) && AccountsOk(c) && f in c.flights && c.flights[f].site in c.sites
    ensures AccountsOk(Release(c, f)) && ListsOk(Release(c, f))
    ensures var x := c.flights[f]; var q := Release(c, f);
      && q.bytes == c.bytes - x.reserved && q.sites.Keys == c.sites.Keys
      && x.reserved <= c.sites[x.site].bytes && x.reserved <= c.bytes
      && q.sites[x.site] == c.sites[x.site].(bytes := c.sites[x.site].bytes - x.reserved)
      && (forall u :: u in c.sites && u != x.site ==> q.sites[u] == c.sites[u])
      && q.flights == c.flights[f := x.(reserved := 0)]
      && q.order == c.order && q.store == c.store && q.nextId == c.nextId
  {
    hide Sum, CostOf, ListsOk, AccountsOk;
    FlightBytes(c, f);
    ReleaseLists(c, f);
    AccountsMoved(c, Release(c, f), c.flights[f].site, f, c.flights[f].(reserved := 0));
  }

  lemma LandAccounts(c: Cache, f: nat, stored: bool)
    requires ListsOk(c) && AccountsOk(c) && f in c.flights && c.flights[f].site in c.sites
    ensures AccountsOk(Land(c, f, stored)) && ListsOk(Land(c, f, stored))
  {
    hide Sum, CostOf, ListsOk, AccountsOk;
    var q := Land(c, f, stored);
    ListsKept(c, q);
    AccountsMoved(c, q, c.flights[f].site, f, c.flights[f].(stored := stored, done := c.flights[f].done + 1));
  }

  /** A flight that has nothing left to release leaves the table. */
  lemma LandFlights(c: Cache, f: nat, stored: bool)
    requires InTable(c, f) && c.flights[f].done == 0
    requires c.flights[f].reserved == 0 || c.flights[f].started
    requires forall g :: g != f ==> FlightOk(c, g)
    requires forall s :: TableOk(c, s)
    ensures FlightsOk(Land(c, f, stored))
  {
    var q := Land(c, f, stored);
    var x := c.flights[f];
    forall g ensures FlightOk(q, g) {
      if g != f {
        assert FlightOk(c, g);
        OtherStays(c, f, stored, g);
      }
    }
    forall s ensures TableOk(q, s) {
      assert TableOk(c, s);
    }
  }

  lemma OtherStays(c: Cache, f: nat, stored: bool, g: nat)
    requires InTable(c, f) && g != f
    ensures InTable(Land(c, f, stored), g) == InTable(c, g)
  {
  }

  // ---------- beginning and finishing a flight ----------

  function WithFlight(c: Cache, s: nat, key: Key, amount: nat): Cache
    requires s in c.sites
  {
    var f := c.nextId;
    WithSite(c, s, c.sites[s].(flights := c.sites[s].flights[key := f]))
      .(flights := c.flights[f := Flight(s, key, amount, false, false, 0)], nextId := c.nextId + 1)
  }

  lemma FlightBegins(c: Cache, s: nat, key: Key, amount: nat)
    requires Inv(c) && Room(c, s, amount) && amount > 0 && !c.sites[s].closed
    requires key !in c.sites[s].entries && key !in c.sites[s].flights
    ensures Inv(WithFlight(Charge(c, s, amount), s, key, amount))
  {
    hide Sum, CostOf, ListsOk, AccountsOk, Restrict, Distinct;
    var q := WithFlight(Charge(c, s, amount), s, key, amount);
    ListsKept(c, q);
    AccountsMoved(c, q, s, c.nextId, Flight(s, key, amount, false, false, 0));
    forall u ensures SiteWithin(q, u) {
      assert SiteWithin(c, u);
    }
    forall f ensures FlightOk(q, f) {
      assert FlightOk(c, f);
      if f != c.nextId {
        BeganBefore(c, s, key, amount, f);
      }
    }
    forall u ensures TableOk(q, u) {
      assert TableOk(c, u);
    }
  }

  lemma BeganBefore(c: Cache, s: nat, key: Key, amount: nat, f: nat)
    requires s in c.sites && key !in c.sites[s].flights && f != c.nextId
    ensures InTable(WithFlight(Charge(c, s, amount), s, key, amount), f) == InTable(c, f)
  {
  }

  /** Looking up never breaks an account or a limit, whatever it evicts to start a flight. */
  lemma LookupKeeps(c: Cache, s: nat, key: Key, now: int)
    requires Inv(c) && s in c.sites
    ensures Inv(LookupOrBegin(c, s, key, now).0)
  {
    hide AccountsOk, LimitsOk, FlightsOk, FreshId, ListsOk, Get, Reserve, Charge;
    if !c.sites[s].closed {
      GetKeeps(c, s, key, now);
      var (c1, found) := Get(c, s, key, now);
      if found.None? && key !in c1.sites[s].flights {
        var pre := ReserveOk(c1, s, key);
        EvictedLimits(c1, pre);
        assert SiteEvicted(c1, pre, s);
        var (c2, amount) := Reserve(c1, s, key);
        if amount > 0 {
          EvictedEntries(c1, pre, s, key);
          FlightBegins(pre, s, key, amount);
          ChargeSites(pre, s, amount);
        }
      }
    }
  }

  lemma ChargeSites(c: Cache, s: nat, amount: nat)
    requires s in c.sites
    ensures s in Charge(c, s, amount).sites
  {
  }

  /** Eviction does not bring a key back. */
  lemma EvictedEntries(c: Cache, q: Cache, s: nat, key: Key)
    requires ListsOk(c) && ListsOk(q) && Evicted(c, q) && s in c.sites && key !in c.sites[s].entries
    ensures s in q.sites && key !in q.sites[s].entries
  {
    assert SiteEvicted(c, q, s);
    assert SiteLinked(q, s);
    assert SiteLinked(c, s);
    if key in q.sites[s].entries {
      var id := q.sites[s].entries[key];
      LruMember(q, id);
      EntryStays(c, q, s, id, key);
    }
  }

  lemma EntryStays(c: Cache, q: Cache, s: nat, id: nat, key: Key)
    requires ListsOk(c) && ListsOk(q) && Evicted(c, q) && s in c.sites && s in q.sites && id in q.sites[s].lru
    requires id in q.store && q.store[id].key == key
    ensures key in c.sites[s].entries
  {
    assert SiteEvicted(c, q, s);
    assert id in c.sites[s].lru;
    LruLinked(c, s);
    assert EntryLinked(c, id);
  }

  lemma CaptureKeeps(c: Cache, f: nat)
    requires Inv(c)
    ensures Inv(BeginCapture(c, f).0)
  {
    hide Sum, CostOf, Restrict, Distinct, ListsOk, AccountsOk;
    if BeginCapture(c, f).1 {
      var q := BeginCapture(c, f).0;
      ListsKept(c, q);
      AccountsMoved(c, q, c.flights[f].site, f, c.flights[f].(started := true));
      forall g ensures FlightOk(q, g) {
        assert FlightOk(c, g);
        assert InTable(q, g) == InTable(c, g);
      }
      forall s ensures TableOk(q, s) && SiteWithin(q, s) {
        assert TableOk(c, s) && SiteWithin(c, s);
      }
    }
  }

  /** A capture that outlived its site gives its bytes back and touches nothing else. */
  lemma OrphanKeeps(c: Cache, f: nat)
    requires Inv(c) && !InTable(c, f)
    ensures Inv(Release(c, f))
  {
    hide Sum, CostOf, Restrict, Distinct, ListsOk, AccountsOk;
    if f in c.flights {
      assert FlightOk(c, f);
      ReleaseAccounts(c, f);
      var q := Release(c, f);
      forall g ensures FlightOk(q, g) {
        assert FlightOk(c, g);
        assert InTable(q, g) == InTable(c, g);
      }
      forall s ensures TableOk(q, s) && SiteWithin(q, s) {
        assert TableOk(c, s) && SiteWithin(c, s);
      }
    }
  }

  // ---------- storing a captured response ----------

  lemma InsertAccounts(c: Cache, id: nat, e: Entry)
    requires ListsOk(c) && AccountsOk(c) && id !in c.store && e.owner in c.sites && e.key !in c.sites[e.owner].entries
    ensures AccountsOk(Inserted(c, id, e)) && ListsOk(Inserted(c, id, e))
  {
    hide Sum, CostOf, Restrict, Distinct, ListsOk;
    var q := Inserted(c, id, e);
    InsertLists(c, id, e);
    BytesStored(c.sites, e.owner, q.sites[e.owner]);
    OrderStored(c);
    CostFront(id, c.order, q.store);
    CostAgrees(c.order, c.store, q.store);
    forall s ensures SiteAccount(q, s) {
      assert SiteAccount(c, s);
      if s in c.sites {
        LruLinked(c, s);
        CostAgrees(c.sites[s].lru, c.store, q.store);
        CostFront(id, c.sites[s].lru, q.store);
      }
    }
  }

  lemma OrderStored(c: Cache)
    requires ListsOk(c)
    ensures forall id :: id in c.order ==> id in c.store
  {
  }

  /** What finishing a flight does to the cache: the capture becomes the newest entry, or nothing is stored. */
  function Finished(c: Cache, f: nat, x: Option<Captured>, now: int): Cache
    requires InTable(c, f)
  {
    var fl := c.flights[f];
    var c1 := Release(c, f);
    if x.Some? && CaptureFits(fl, x.value) && now < x.value.expiresAt && fl.site in c1.sites && f in c1.flights then
      var c2 := Inserted(c1, c1.nextId, Entry(fl.key, fl.site, CostWith(fl.key, x.value), x.value.expiresAt));
      if f in c2.flights && c2.flights[f].site in c2.sites then Land(c2, f, true) else c2
    else if f in c1.flights && c1.flights[f].site in c1.sites then Land(c1, f, false) else c1
  }

  /** The bytes a flight reserved are enough for what it stores, so storing it evicts nothing. */
  lemma StoreFits(c: Cache, f: nat, x: Captured, now: int)
    requires Inv(c) && InTable(c, f) && CaptureFits(c.flights[f], x)
    ensures var fl := c.flights[f]; var c1 := Release(c, f);
      && ListsOk(c1) && FreshId(c1) && fl.site in c1.sites
      && Store(c1, fl.site, fl.key, x, now)
        == if now < x.expiresAt then
             (Inserted(c1, c1.nextId, Entry(fl.key, fl.site, CostWith(fl.key, x), x.expiresAt)), true)
           else (c1, false)
  {
    hide Sum, CostOf, Restrict, Distinct, ListsOk, AccountsOk, EvictSite, EvictProcess;
    var fl := c.flights[f];
    var s := fl.site;
    assert FlightOk(c, f) && TableOk(c, s) && SiteWithin(c, s);
    ReleaseAccounts(c, f);
    ReleaseLists(c, f);
    var c1 := Release(c, f);
    assert fl.reserved <= Limit(c.maxSite) && fl.reserved <= Limit(c.maxProcess);
    assert Storable(c1, s, fl.key, x, now) == (now < x.expiresAt);
    if now < x.expiresAt {
      var e := Entry(fl.key, s, CostWith(fl.key, x), x.expiresAt);
      InsertLists(c1, c1.nextId, e);
      var c2 := Inserted(c1, c1.nextId, e);
      NothingToEvict(c2, s);
    }
  }

  lemma NothingToEvict(c: Cache, s: nat)
    requires ListsOk(c) && s in c.sites && c.sites[s].bytes <= c.maxSite && c.bytes <= c.maxProcess
    ensures EvictSite(c, s) == c && EvictProcess(c) == c
  {
  }

  /** Finishing a flight stores at most its own capture and never evicts anything. */
  lemma FinishExact(c: Cache, f: nat, x: Option<Captured>, now: int)
    requires Inv(c) && InTable(c, f)
    ensures FinishFlight(c, f, x, now) == Finished(c, f, x, now)
  {
    hide ListsOk, AccountsOk, LimitsOk, FlightsOk, FreshId, Store, Land, Inserted;
    if x.Some? && CaptureFits(c.flights[f], x.value) {
      StoreFits(c, f, x.value, now);
    }
  }

  lemma FinishKeeps(c: Cache, f: nat, x: Option<Captured>, now: int)
    requires Inv(c)
    ensures Inv(FinishFlight(c, f, x, now))
  {
    hide Inv, FinishFlight, Finished;
    if InTable(c, f) {
      FinishExact(c, f, x, now);
      FinishedKeeps(c, f, x, now);
    } else {
      OrphanKeeps(c, f);
      FinishOrphan(c, f, x, now);
    }
  }

  lemma FinishOrphan(c: Cache, f: nat, x: Option<Captured>, now: int)
    requires Inv(c) && !InTable(c, f)
    ensures FinishFlight(c, f, x, now) == Release(c, f)
  {
  }

  lemma FinishedKeeps(c: Cache, f: nat, x: Option<Captured>, now: int)
    requires Inv(c) && InTable(c, f)
    ensures Inv(Finished(c, f, x, now))
  {
    hide Sum, CostOf, Restrict, Distinct, ListsOk, AccountsOk, LimitsOk, Land, Inserted, Release;
    var fl := c.flights[f];
    assert FlightOk(c, f) && TableOk(c, fl.site);
    ReleaseAccounts(c, f);
    ReleaseLists(c, f);
    var c1 := Release(c, f);
    ReleasedFlights(c, f);
    if x.Some? && CaptureFits(fl, x.value) && now < x.value.expiresAt {
      var e := Entry(fl.key, fl.site, CostWith(fl.key, x.value), x.value.expiresAt);
      InsertAccounts(c1, c1.nextId, e);
      InsertFrame(c1, c1.nextId, e, f);
      LandAccounts(Inserted(c1, c1.nextId, e), f, true);
      LandAll(c, f, x.value);
    } else {
      LandAccounts(c1, f, false);
      LandFlights(c1, f, false);
      LandLimits(c, f);
    }
  }

  lemma InsertFrame(c: Cache, id: nat, e: Entry, f: nat)
    requires e.owner in c.sites && f in c.flights && c.flights[f].site in c.sites
    ensures f in Inserted(c, id, e).flights && Inserted(c, id, e).flights[f].site in Inserted(c, id, e).sites
  {
  }

  /** Releasing a flight that is in the table leaves only that flight to be landed. */
  lemma ReleasedFlights(c: Cache, f: nat)
    requires Inv(c) && InTable(c, f)
    ensures var q := Release(c, f);
      && InTable(q, f) && q.flights[f].done == 0 && q.flights[f].reserved == 0
      && (forall g :: g != f ==> FlightOk(q, g)) && (forall s :: TableOk(q, s))
      && q.maxSite == c.maxSite && q.maxProcess == c.maxProcess && FreshId(q)
  {
    hide Sum, CostOf, Restrict, Distinct, ListsOk, AccountsOk, LimitsOk;
    var q := Release(c, f);
    assert FlightOk(c, f);
    forall g | g != f ensures FlightOk(q, g) {
      assert FlightOk(c, g);
      assert InTable(q, g) == InTable(c, g);
    }
    forall s ensures TableOk(q, s) {
      assert TableOk(c, s);
    }
  }

  lemma LandLimits(c: Cache, f: nat)
    requires Inv(c) && InTable(c, f)
    ensures var q := Land(Release(c, f), f, false); LimitsOk(q) && FreshId(q)
  {
    hide Sum, CostOf, Restrict, Distinct, ListsOk, AccountsOk, FlightsOk;
    ReleaseAccounts(c, f);
    var q := Land(Release(c, f), f, false);
    forall s ensures SiteWithin(q, s) {
      assert SiteWithin(c, s);
    }
  }

  /** The stored entry takes no more than the flight had reserved. */
  lemma LandAll(c: Cache, f: nat, x: Captured)
    requires Inv(c) && InTable(c, f) && CaptureFits(c.flights[f], x)
    ensures var fl := c.flights[f]; var c1 := Release(c, f);
      && fl.site in c1.sites
      && var c2 := Inserted(c1, c1.nextId, Entry(fl.key, fl.site, CostWith(fl.key, x), x.expiresAt));
      && f in c2.flights && c2.flights[f].site in c2.sites
      && LimitsOk(Land(c2, f, true)) && FreshId(Land(c2, f, true)) && FlightsOk(Land(c2, f, true))
  {
    hide Sum, CostOf, Restrict, Distinct, ListsOk, AccountsOk;
    var fl := c.flights[f];
    assert FlightOk(c, f) && TableOk(c, fl.site);
    ReleaseAccounts(c, f);
    ReleasedFlights(c, f);
    var c1 := Release(c, f);
    var e := Entry(fl.key, fl.site, CostWith(fl.key, x), x.expiresAt);
    var c2 := Inserted(c1, c1.nextId, e);
    var q := Land(c2, f, true);
    forall s ensures SiteWithin(q, s) {
      assert SiteWithin(c, s);
    }
    InsertedLanded(c1, c1.nextId, e, f);
  }

  lemma InsertedLanded(c: Cache, id: nat, e: Entry, f: nat)
    requires InTable(c, f) && c.flights[f].done == 0 && c.flights[f].reserved == 0
    requires c.flights[f].site == e.owner && c.flights[f].key == e.key && e.owner in c.sites
    requires (forall g :: g != f ==> FlightOk(c, g)) && (forall s :: TableOk(c, s)) && !c.sites[e.owner].closed
    ensures f in Inserted(c, id, e).flights && Inserted(c, id, e).flights[f].site in Inserted(c, id, e).sites
    ensures FlightsOk(Land(Inserted(c, id, e), f, true))
  {
    var q := Land(Inserted(c, id, e), f, true);
    forall g ensures FlightOk(q, g) {
      if g != f {
        assert FlightOk(c, g);
        OtherStays(c, f, true, g);
        assert InTable(q, g) == InTable(c, g);
      }
    }
    forall s ensures TableOk(q, s) {
      assert TableOk(c, s);
    }
  }

  // ---------- closing a site ----------

  function SetClosed(c: Cache, s: nat): Cache {
    if s in c.sites then WithSite(c, s, c.sites[s].(closed := true)) else c
  }

  lemma ClosedLists(c: Cache, s: nat)
    requires ListsOk(c)
    ensures ListsOk(SetClosed(c, s))
  {
    hide Restrict;
    ListsKept(c, SetClosed(c, s));
  }

  lemma SiteWithoutClosed(site: Site, id: nat, e: Entry)
    ensures SiteWithout(site.(closed := true), id, e) == SiteWithout(site, id, e).(closed := true)
    ensures SiteWithout(site, id, e).closed == site.closed
  {
  }

  lemma StoredTwice(sites: map<nat, Site>, s: nat, t: nat, a: Site, b: Site)
    ensures sites[s := a][s := b] == sites[s := b]
    ensures s != t ==> sites[s := a][t := b] == sites[t := b][s := a]
  {
  }

  lemma RemoveClosed(c: Cache, s: nat, id: nat)
    ensures Remove(SetClosed(c, s), id) == SetClosed(Remove(c, id), s)
  {
    hide Dropped, SiteWithout;
    if id in c.store && c.store[id].owner in c.sites && s in c.sites {
      var e := c.store[id];
      var site := c.sites[e.owner];
      SiteWithoutClosed(site, id, e);
      StoredTwice(c.sites, e.owner, s, SiteWithout(site, id, e), c.sites[s].(closed := true));
      StoredTwice(c.sites, s, e.owner, c.sites[s].(closed := true), SiteWithout(site, id, e));
      StoredTwice(c.sites, s, s, c.sites[s].(closed := true), SiteWithout(c.sites[s], id, e).(closed := true));
      StoredTwice(c.sites, s, s, SiteWithout(c.sites[s], id, e), SiteWithout(c.sites[s], id, e).(closed := true));
    }
  }

  /** Marking a site closed first or last makes no difference to what closing removes. */
  lemma {:induction false} RemoveAllClosed(c: Cache, s: nat)
    requires ListsOk(c) && s in c.sites
    ensures ListsOk(SetClosed(c, s)) && RemoveAll(SetClosed(c, s), s) == SetClosed(RemoveAll(c, s), s)
    decreases |c.order|
  {
    hide ListsOk, Restrict, Dropped, Remove;
    ClosedLists(c, s);
    if c.sites[s].lru != [] {
      var id := Last(c.sites[s].lru);
      LruLinked(c, s);
      RemoveEffect(c, id);
      RemoveLists(c, id);
      RemoveClosed(c, s, id);
      RemoveAllClosed(Remove(c, id), s);
    }
  }

  function EndFlight(c: Cache, f: nat): Cache {
    if !InTable(c, f) then c
    else
      var c1 := if c.flights[f].started then c else Release(c, f);
      if InTable(c1, f) then Land(c1, f, c1.flights[f].stored) else c1
  }

  lemma ReleaseClosed(c: Cache, s: nat, f: nat)
    ensures Release(SetClosed(c, s), f) == SetClosed(Release(c, f), s)
  {
    if f in c.flights && c.flights[f].site in c.sites {
      assert Release(SetClosed(c, s), f).sites == SetClosed(Release(c, f), s).sites;
    }
  }

  lemma LandClosed(c: Cache, s: nat, f: nat, stored: bool)
    requires f in c.flights && c.flights[f].site in c.sites
    ensures f in SetClosed(c, s).flights && SetClosed(c, s).flights[f].site in SetClosed(c, s).sites
    ensures Land(SetClosed(c, s), f, stored) == SetClosed(Land(c, f, stored), s)
  {
    assert Land(SetClosed(c, s), f, stored).sites == SetClosed(Land(c, f, stored), s).sites;
  }

  lemma InTableClosed(c: Cache, s: nat, f: nat)
    ensures InTable(SetClosed(c, s), f) == InTable(c, f) && SetClosed(c, s).flights == c.flights
  {
  }

  lemma EndFlightClosed(c: Cache, s: nat, f: nat)
    ensures EndFlight(SetClosed(c, s), f) == SetClosed(EndFlight(c, f), s)
  {
    hide Release, Land, SetClosed;
    InTableClosed(c, s, f);
    if InTable(c, f) {
      var c1 := if c.flights[f].started then c else Release(c, f);
      ReleaseClosed(c, s, f);
      InTableClosed(c1, s, f);
      if InTable(c1, f) {
        LandClosed(c1, s, f, c1.flights[f].stored);
      }
    }
  }

  lemma {:induction false} EndFlightsClosed(c: Cache, s: nat, order: seq<nat>)
    ensures EndFlights(SetClosed(c, s), order) == SetClosed(EndFlights(c, order), s)
    decreases |order|
  {
    hide EndFlight, SetClosed, Release, Land, InTable;
    if order != [] {
      EndFlightStep(c, order);
      EndFlightStep(SetClosed(c, s), order);
      EndFlightClosed(c, s, order[0]);
      EndFlightsClosed(EndFlight(c, order[0]), s, order[1..]);
    }
  }

  lemma EndFlightStep(c: Cache, order: seq<nat>)
    requires order != []
    ensures EndFlights(c, order) == EndFlights(EndFlight(c, order[0]), order[1..])
  {
    hide Release, Land, InTable;
  }

  lemma {:induction false} RemoveAllKeeps(c: Cache, s: nat)
    requires Inv(c) && s in c.sites
    ensures Inv(RemoveAll(c, s)) && RemoveAll(c, s).sites.Keys == c.sites.Keys
    ensures RemoveAll(c, s).sites[s].entries == map[] && RemoveAll(c, s).sites[s].flights == c.sites[s].flights
    decreases |c.order|
  {
    hide AccountsOk, LimitsOk, FlightsOk, FreshId, Restrict, Dropped, Remove;
    if c.sites[s].lru != [] {
      var id := Last(c.sites[s].lru);
      LruLinked(c, s);
      RemoveEffect(c, id);
      RemoveKeeps(c, id);
      RemoveFrame(c, id);
      RemoveAllKeeps(Remove(c, id), s);
    } else {
      EmptySite(c, s);
    }
  }

  lemma EmptySite(c: Cache, s: nat)
    requires ListsOk(c) && s in c.sites && c.sites[s].lru == []
    ensures c.sites[s].entries == map[]
  {
    forall k | k in c.sites[s].entries ensures c.sites[s].entries[k] in c.sites[s].lru {
      assert SiteLinked(c, s);
      LruMember(c, c.sites[s].entries[k]);
    }
  }

  /** Ending a flight wakes its waiters once; a running capture keeps its reservation. */
  lemma EndFlightKeeps(c: Cache, f: nat)
    requires Inv(c)
    ensures Inv(EndFlight(c, f)) && EndFlight(c, f).sites.Keys == c.sites.Keys
  {
    hide ListsOk, AccountsOk, LimitsOk, Release, Land;
    if InTable(c, f) {
      assert FlightOk(c, f);
      if c.flights[f].started {
        LandAccounts(c, f, c.flights[f].stored);
        LandFlights(c, f, c.flights[f].stored);
        LandFrame(c, f, c.flights[f].stored);
      } else {
        ReleaseAccounts(c, f);
        ReleasedFlights(c, f);
        var c1 := Release(c, f);
        LandAccounts(c1, f, c1.flights[f].stored);
        LandFlights(c1, f, c1.flights[f].stored);
        LandFrame(c1, f, c1.flights[f].stored);
        ReleaseLimits(c, f);
      }
    }
  }

  lemma LandFrame(c: Cache, f: nat, stored: bool)
    requires f in c.flights && c.flights[f].site in c.sites && FreshId(c)
    ensures LimitsOk(Land(c, f, stored)) == LimitsOk(c) && FreshId(Land(c, f, stored)) && Land(c, f, stored).sites.Keys == c.sites.Keys
  {
    var q := Land(c, f, stored);
    assert forall s :: SiteWithin(q, s) == SiteWithin(c, s);
  }

  lemma ReleaseLimits(c: Cache, f: nat)
    requires Inv(c) && InTable(c, f)
    ensures LimitsOk(Release(c, f))
  {
    hide ListsOk, AccountsOk, FlightsOk, FreshId, Release;
    ReleaseAccounts(c, f);
    ReleaseConst(c, f);
    forall s ensures SiteWithin(Release(c, f), s) {
      assert SiteWithin(c, s);
    }
  }

  lemma ReleaseConst(c: Cache, f: nat)
    ensures Release(c, f).maxSite == c.maxSite && Release(c, f).maxProcess == c.maxProcess
  {
  }

  ghost predicate FlightsIn(c: Cache, s: nat, order: seq<nat>) {
    s in c.sites && forall k :: k in c.sites[s].flights ==> c.sites[s].flights[k] in order
  }

  lemma {:induction false} EndFlightsKeeps(c: Cache, s: nat, order: seq<nat>)
    requires Inv(c) && FlightsIn(c, s, order)
    ensures Inv(EndFlights(c, order)) && s in EndFlights(c, order).sites
    ensures EndFlights(c, order).sites[s].flights == map[]
    ensures EndFlights(c, order).sites[s].entries == c.sites[s].entries
    decreases |order|
  {
    hide Inv, EndFlight;
    if order != [] {
      EndFlightStep(c, order);
      EndFlightKeeps(c, order[0]);
      EndFlightFrame(c, s, order);
      EndFlightsKeeps(EndFlight(c, order[0]), s, order[1..]);
    }
  }

  lemma EndFlightFrame(c: Cache, s: nat, order: seq<nat>)
    requires Inv(c) && FlightsIn(c, s, order) && order != []
    ensures FlightsIn(EndFlight(c, order[0]), s, order[1..])
    ensures EndFlight(c, order[0]).sites[s].entries == c.sites[s].entries
  {
    hide ListsOk, AccountsOk, LimitsOk, EndFlight, FlightsOk, FreshId;
    var f := order[0];
    var q := EndFlight(c, f);
    EndFlightTable(c, s, f);
    forall k | k in q.sites[s].flights ensures q.sites[s].flights[k] in order[1..] {
      assert k in c.sites[s].flights && q.sites[s].flights[k] == c.sites[s].flights[k];
    }
  }

  /** An ended flight is in no table any more; the other flights stay where they are. */
  lemma EndFlightTable(c: Cache, s: nat, f: nat)
    requires FlightsOk(c) && s in c.sites
    ensures var q := EndFlight(c, f);
      && s in q.sites && q.sites[s].entries == c.sites[s].entries
      && (forall k :: k in q.sites[s].flights ==>
            k in c.sites[s].flights && q.sites[s].flights[k] == c.sites[s].flights[k] && c.sites[s].flights[k] != f)
  {
    assert TableOk(c, s);
    var q := EndFlight(c, f);
    forall k | k in q.sites[s].flights
      ensures k in c.sites[s].flights && q.sites[s].flights[k] == c.sites[s].flights[k] && c.sites[s].flights[k] != f
    {
      assert k in c.sites[s].flights;
      assert FlightOk(c, c.sites[s].flights[k]);
    }
  }

  /** A closed site is empty, but running captures still hold their bytes. */
  lemma CloseKeeps(c: Cache, s: nat, order: seq<nat>)
    requires Inv(c) && FlightsIn(c, s, order)
    ensures Inv(Close(c, s, order))
    ensures s in Close(c, s, order).sites && Close(c, s, order).sites[s].closed
    ensures Close(c, s, order).sites[s].entries == map[] && Close(c, s, order).sites[s].flights == map[]
  {
    hide ListsOk, AccountsOk, LimitsOk, FreshId, EndFlights, RemoveAll;
    assert TableOk(c, s);
    if !c.sites[s].closed {
      RemoveAllClosed(c, s);
      RemoveAllKeeps(c, s);
      var c1 := RemoveAll(c, s);
      EndFlightsKeeps(c1, s, order);
      EndFlightsClosed(c1, s, order);
      SetClosedKeeps(EndFlights(c1, order), s);
      assert Close(c, s, order) == SetClosed(EndFlights(c1, order), s);
    }
  }

  lemma SetClosedKeeps(c: Cache, s: nat)
    requires Inv(c) && s in c.sites && c.sites[s].entries == map[] && c.sites[s].flights == map[]
    ensures Inv(SetClosed(c, s))
  {
    hide Sum, CostOf, Restrict, Distinct, ListsOk;
    var q := SetClosed(c, s);
    ClosedLists(c, s);
    assert SiteBytes(q.sites) == SiteBytes(c.sites);
    forall u ensures SiteAccount(q, u) && SiteWithin(q, u) && TableOk(q, u) {
      assert SiteAccount(c, u) && SiteWithin(c, u) && TableOk(c, u);
    }
    forall f ensures FlightOk(q, f) {
      assert FlightOk(c, f);
      assert InTable(q, f) == InTable(c, f);
    }
  }

  lemma NewSiteKeeps(c: Cache)
    requires Inv(c)
    ensures Inv(NewSite(c).0)
  {
    hide Sum, CostOf, Distinct;
    var q := NewSite(c).0;
    var s := c.nextId;
    assert s !in c.sites;
    NewSiteLists(c);
    assert SiteBytes(q.sites) == SiteBytes(c.sites)[s := 0];
    SumStore(SiteBytes(c.sites), s, 0);
    forall u ensures SiteAccount(q, u) && SiteWithin(q, u) && TableOk(q, u) {
      assert SiteAccount(c, u) && SiteWithin(c, u) && TableOk(c, u);
      NewSiteBytes(c);
    }
    forall f ensures FlightOk(q, f) {
      assert FlightOk(c, f);
      assert f in c.flights ==> InTable(q, f) == InTable(c, f);
    }
  }

  lemma NewSiteBytes(c: Cache)
    requires FlightsOk(c) && FreshId(c)
    ensures Sum(Reserved(c.flights, c.nextId)) == 0 && CostOf([], c.store) == 0
  {
    forall f | f in c.flights ensures Reserved(c.flights, c.nextId)[f] == 0 {
      assert FlightOk(c, f);
    }
    SumZero(Reserved(c.flights, c.nextId));
  }

  lemma NewSiteLists(c: Cache)
    requires ListsOk(c) && FreshId(c)
    ensures ListsOk(NewSite(c).0)
  {
    hide Restrict;
    var q := NewSite(c).0;
    forall id ensures EntryLinked(q, id) {
      assert EntryLinked(c, id);
    }
    forall s ensures SiteLinked(q, s) {
      assert SiteLinked(c, s);
      if s == c.nextId {
        NobodyOwns(c, s);
      }
    }
  }

  lemma NobodyOwns(c: Cache, s: nat)
    requires ListsOk(c) && s !in c.sites
    ensures Restrict(c.order, c.store, s) == []
  {
    RestrictMembers(c.order, c.store, s);
    forall id ensures id !in Restrict(c.order, c.store, s) {
      assert EntryLinked(c, id);
    }
    if Restrict(c.order, c.store, s) != [] {
      HasFirst(Restrict(c.order, c.store, s));
    }
  }

  lemma HasFirst(ids: seq<nat>)
    requires ids != []
    ensures exists id :: id in ids
  {
    assert ids[0] in ids;
  }

  // ---------- runs ----------

  datatype Step =
    | Open
    | Look(s: nat, key: Key, now: int)
    | Begin(s: nat, key: Key, now: int)
    | Capture(f: nat)
    | Finish(f: nat, x: Option<Captured>, now: int)
    | CloseIt(s: nat, order: seq<nat>)

  ghost predicate Enabled(c: Cache, x: Step) {
    match x
    case Open => true
    case Look(s, _, _) => s in c.sites
    case Begin(s, _, _) => s in c.sites
    case Capture(_) => true
    case Finish(_, _, _) => true
    case CloseIt(s, order) => FlightsIn(c, s, order)
  }

  ghost function Next(c: Cache, x: Step): Cache
    requires Enabled(c, x) && Inv(c)
  {
    match x
    case Open => NewSite(c).0
    case Look(s, key, now) => if c.sites[s].closed then c else Get(c, s, key, now).0
    case Begin(s, key, now) => LookupOrBegin(c, s, key, now).0
    case Capture(f) => BeginCapture(c, f).0
    case Finish(f, y, now) => FinishFlight(c, f, y, now)
    case CloseIt(s, order) => Close(c, s, order)
  }

  /** Lists, bytes, limits and flights stay in order whatever happens next. */
  lemma StepKeeps(c: Cache, x: Step)
    requires Inv(c) && Enabled(c, x)
    ensures Inv(Next(c, x))
  {
    hide Inv, Get, LookupOrBegin, BeginCapture, FinishFlight, Close, NewSite, FlightsIn;
    match x
    case Open => NewSiteKeeps(c);
    case Look(s, key, now) => GetKeeps(c, s, key, now);
    case Begin(s, key, now) => LookupKeeps(c, s, key, now);
    case Capture(f) => CaptureKeeps(c, f);
    case Finish(f, y, now) => FinishKeeps(c, f, y, now);
    case CloseIt(s, order) => CloseKeeps(c, s, order);
  }

  ghost predicate Runs(c: Cache, steps: seq<Step>)
    decreases |steps|
  {
    steps == [] || (Inv(c) && Enabled(c, steps[0]) && Runs(Next(c, steps[0]), steps[1..]))
  }

  ghost function After(c: Cache, steps: seq<Step>): Cache
    requires Runs(c, steps)
    decreases |steps|
  {
    if steps == [] then c else After(Next(c, steps[0]), steps[1..])
  }

  lemma {:induction false} ReachableOk(c: Cache, steps: seq<Step>)
    requires Inv(c) && Runs(c, steps)
    ensures Inv(After(c, steps))
    decreases |steps|
  {
    hide Inv, Next, Enabled;
    if steps != [] {
      StepKeeps(c, steps[0]);
      ReachableOk(Next(c, steps[0]), steps[1..]);
    }
  }

  function Empty(maxProcess: int, maxSite: int): Cache {
    Cache(maxProcess, maxSite, map[], [], 0, map[], map[], 0)
  }

  lemma EmptyOk(maxProcess: int, maxSite: int)
    ensures Inv(Empty(maxProcess, maxSite))
  {
    assert AllReserved(map[]) == map[] && SiteBytes(map[]) == map[];
    SumZero<nat>(map[]);
  }

  /** Steps that can be taken one after the other, whatever state each of them leads to. */
  ghost predicate EnabledRun(c: Cache, steps: seq<Step>)
    decreases |steps|
  {
    steps != [] ==> Enabled(c, steps[0]) && (Inv(c) ==> EnabledRun(Next(c, steps[0]), steps[1..]))
  }

  /** No step leaves the states that the operations are defined on. */
  lemma {:induction false} EnabledRuns(c: Cache, steps: seq<Step>)
    requires Inv(c) && EnabledRun(c, steps)
    ensures Runs(c, steps)
    decreases |steps|
  {
    hide Inv, Next, Enabled;
    if steps != [] {
      StepKeeps(c, steps[0]);
      EnabledRuns(Next(c, steps[0]), steps[1..]);
    }
  }

  /** In every reachable state the bytes are exact and bounded and each flight has woken its waiters at most once. */
  lemma BytesConserved(maxProcess: int, maxSite: int, steps: seq<Step>)
    requires EnabledRun(Empty(maxProcess, maxSite), steps)
    ensures Runs(Empty(maxProcess, maxSite), steps)
    ensures var c := After(Empty(maxProcess, maxSite), steps);
      && c.bytes == CostOf(c.order, c.store) + Sum(AllReserved(c.flights)) == Sum(SiteBytes(c.sites))
      && c.bytes <= Limit(c.maxProcess)
      && (forall s :: s in c.sites ==>
            && c.sites[s].bytes == CostOf(c.sites[s].lru, c.store) + Sum(Reserved(c.flights, s))
            && c.sites[s].bytes <= Limit(c.maxSite)
            && c.sites[s].lru == Restrict(c.order, c.store, s)
            && (forall k :: k in c.sites[s].flights ==> k !in c.sites[s].entries))
      && (forall f :: f in c.flights ==> c.flights[f].done <= 1)
  {
    hide Sum, CostOf, Restrict, Distinct, Runs, After, EnabledRun;
    EmptyOk(maxProcess, maxSite);
    EnabledRuns(Empty(maxProcess, maxSite), steps);
    ReachableOk(Empty(maxProcess, maxSite), steps);
    var c := After(Empty(maxProcess, maxSite), steps);
    forall s | s in c.sites
      ensures c.sites[s].bytes == CostOf(c.sites[s].lru, c.store) + Sum(Reserved(c.flights, s))
      ensures c.sites[s].bytes <= Limit(c.maxSite)
      ensures c.sites[s].lru == Restrict(c.order, c.store, s)
      ensures forall k :: k in c.sites[s].flights ==> k !in c.sites[s].entries
    {
      assert SiteAccount(c, s) && SiteWithin(c, s) && SiteLinked(c, s) && TableOk(c, s);
    }
    forall f | f in c.flights ensures c.flights[f].done <= 1 {
      assert FlightOk(c, f);
    }
  }
}
