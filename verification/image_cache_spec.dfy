/**
 The image cache: entries of all sites in one process-wide order of use and in one
 per site, single-flight captures that reserve their bytes beforehand, and sites
 that close while captures are still running. Every function is one critical
 section; objects are numbered.
 */
module ImageCacheSpec {
  import opened Wrappers
  import opened MapSums

  const MAX_BODY := 0x80_0000
  const MAX_HEADER := 0x1_0000
  const OVERHEAD := 512
  const LENGTH_RESERVATION := 50

  /** variant stands for the digests in the key, which only tell keys apart. */
  datatype Key = Key(authority: string, path: string, query: string, variant: nat)

  datatype Entry = Entry(key: Key, owner: nat, cost: nat, expiresAt: int)

  /** A captured response, before it is stored. */
  datatype Captured = Captured(cost: nat, expiresAt: int)

  /** done counts how often the channel that waiters wait on has been closed. */
  datatype Flight = Flight(site: nat, key: Key, reserved: nat, started: bool, stored: bool, done: nat)

  datatype Site = Site(closed: bool, entries: map<Key, nat>, flights: map<Key, nat>, bytes: nat, lru: seq<nat>)

  /** order and every lru run from the most to the least recently used entry. */
  datatype Cache = Cache(maxProcess: int, maxSite: int, sites: map<nat, Site>, order: seq<nat>, bytes: nat,
                         store: map<nat, Entry>, flights: map<nat, Flight>, nextId: nat)

  function KeyBytes(k: Key): nat {
    |k.authority| + |k.path| + |k.query|
  }

  function Minus(a: nat, b: nat): nat {
    if b <= a then a - b else 0
  }

  function Least(a: int, b: int): int {
    if a <= b then a else b
  }

  // ---------- the two lists ----------

  function Dropped(ids: seq<nat>, id: nat): (rest: seq<nat>)
    ensures |rest| <= |ids|
  {
    if ids == [] then []
    else if ids[0] == id then Dropped(ids[1..], id)
    else [ids[0]] + Dropped(ids[1..], id)
  }

  /** The entries of one site, in the order of the whole list. */
  function Restrict(ids: seq<nat>, store: map<nat, Entry>, s: nat): (rest: seq<nat>)
    ensures |rest| <= |ids|
  {
    if ids == [] then []
    else if ids[0] in store && store[ids[0]].owner == s then [ids[0]] + Restrict(ids[1..], store, s)
    else Restrict(ids[1..], store, s)
  }

  predicate Distinct(ids: seq<nat>) {
    forall i, j :: 0 <= i < j < |ids| ==> ids[i] != ids[j]
  }

  ghost predicate EntryLinked(c: Cache, id: nat) {
    id in c.store ==>
      && id in c.order && c.store[id].owner in c.sites
      && var site := c.sites[c.store[id].owner];
      && c.store[id].key in site.entries && site.entries[c.store[id].key] == id
  }

  ghost predicate SiteLinked(c: Cache, s: nat) {
    s in c.sites ==>
      && c.sites[s].lru == Restrict(c.order, c.store, s)
      && (forall k :: k in c.sites[s].entries ==>
            var id := c.sites[s].entries[k]; id in c.store && c.store[id].key == k && c.store[id].owner == s)
  }

  /**
   Both lists hold exactly the cached entries, once each; a site's list is the
   process list restricted to that site, and its table leads to the same entries.
   */
  ghost predicate ListsOk(c: Cache) {
    && Distinct(c.order)
    && (forall id :: id in c.order ==> id in c.store)
    && (forall id :: EntryLinked(c, id))
    && (forall s :: SiteLinked(c, s))
  }

  // ---------- removing and moving ----------

  function WithSite(c: Cache, s: nat, site: Site): Cache {
    c.(sites := c.sites[s := site])
  }

  function SiteWithout(site: Site, id: nat, e: Entry): Site {
    site.(entries := site.entries - {e.key}, lru := Dropped(site.lru, id), bytes := Minus(site.bytes, e.cost))
  }

  /** Takes an entry out of its site's table and of both lists. */
  function Remove(c: Cache, id: nat): Cache {
    if id !in c.store || c.store[id].owner !in c.sites then c
    else
      var e := c.store[id];
      var site := c.sites[e.owner];
      if e.key !in site.entries || site.entries[e.key] != id then c
      else
        WithSite(c, e.owner, SiteWithout(site, id, e))
          .(order := Dropped(c.order, id), bytes := Minus(c.bytes, e.cost), store := c.store - {id})
  }

  function Touch(c: Cache, s: nat, id: nat): Cache
    requires s in c.sites
  {
    WithSite(c, s, c.sites[s].(lru := [id] + Dropped(c.sites[s].lru, id))).(order := [id] + Dropped(c.order, id))
  }

  /** Looks an entry up; a fresh one becomes the most recently used, an expired one is removed. */
  function Get(c: Cache, s: nat, key: Key, now: int): (Cache, Option<nat>)
    requires s in c.sites
  {
    if key !in c.sites[s].entries then (c, None)
    else
      var id := c.sites[s].entries[key];
      if id !in c.store || now >= c.store[id].expiresAt then (Remove(c, id), None)
      else (Touch(c, s, id), Some(id))
  }

  // ---------- the lists stay coherent ----------

  lemma {:induction false} DroppedMembers(ids: seq<nat>, id: nat)
    ensures forall x :: x in Dropped(ids, id) <==> x in ids && x != id
    ensures Distinct(ids) ==> Distinct(Dropped(ids, id))
    ensures id in ids ==> |Dropped(ids, id)| < |ids|
  {
    if ids != [] {
      DroppedMembers(ids[1..], id);
      assert forall x :: x in ids <==> x == ids[0] || x in ids[1..];
      if Distinct(ids) {
        assert ids[0] !in ids[1..];
        assert Distinct(ids[1..]);
      }
    }
  }

  lemma {:induction false} DroppedAbsent(ids: seq<nat>, id: nat)
    requires id !in ids
    ensures Dropped(ids, id) == ids
  {
    if ids != [] {
      DroppedAbsent(ids[1..], id);
    }
  }

  ghost predicate SameOwners(ids: seq<nat>, store: map<nat, Entry>, after: map<nat, Entry>, id: nat) {
    forall x :: x in ids && x != id ==> (x in store <==> x in after) && (x in store ==> after[x].owner == store[x].owner)
  }

  /** Dropping an entry from the process list drops it from its site's part of the list. */
  lemma {:induction false} RestrictDropped(ids: seq<nat>, store: map<nat, Entry>, after: map<nat, Entry>, id: nat, s: nat)
    requires SameOwners(ids, store, after, id)
    ensures Restrict(Dropped(ids, id), after, s) == Dropped(Restrict(ids, store, s), id)
  {
    if ids != [] {
      assert SameOwners(ids[1..], store, after, id);
      RestrictDropped(ids[1..], store, after, id, s);
    }
  }

  lemma {:induction false} RestrictAgrees(ids: seq<nat>, store: map<nat, Entry>, after: map<nat, Entry>, id: nat, s: nat)
    requires SameOwners(ids, store, after, id) && id !in ids
    ensures Restrict(ids, after, s) == Restrict(ids, store, s)
  {
    if ids != [] {
      assert ids[0] in ids;
      assert SameOwners(ids[1..], store, after, id);
      RestrictAgrees(ids[1..], store, after, id, s);
    }
  }

  lemma {:induction false} RestrictMembers(ids: seq<nat>, store: map<nat, Entry>, s: nat)
    ensures forall x :: x in Restrict(ids, store, s) <==> x in ids && x in store && store[x].owner == s
  {
    if ids != [] {
      RestrictMembers(ids[1..], store, s);
    }
  }

  lemma RemoveEffect(c: Cache, id: nat)
    requires ListsOk(c) && id in c.store
    ensures var e := c.store[id]; var q := Remove(c, id);
      && e.owner in c.sites && e.key in c.sites[e.owner].entries
      && q.order == Dropped(c.order, id) && q.store == c.store - {id} && q.sites.Keys == c.sites.Keys
      && q.sites[e.owner].lru == Dropped(c.sites[e.owner].lru, id)
      && q.sites[e.owner].entries == c.sites[e.owner].entries - {e.key}
      && |q.order| < |c.order|
  {
    hide Dropped, Restrict;
    assert EntryLinked(c, id);
    DroppedMembers(c.order, id);
  }

  lemma RemoveLists(c: Cache, id: nat)
    requires ListsOk(c)
    ensures ListsOk(Remove(c, id))
  {
    if id in c.store {
      hide Dropped, Restrict, Distinct, Remove, ListsOk;
      RemoveEffect(c, id);
      var q := Remove(c, id);
      RemoveOrder(c, id);
      forall x ensures EntryLinked(q, x) {
        RemoveEntry(c, id, x);
      }
      forall s ensures SiteLinked(q, s) {
        RemoveSite(c, id, s);
      }
      assert ListsOk(q) by { ListsFrom(q); }
    }
  }

  lemma ListsFrom(c: Cache)
    requires Distinct(c.order) && (forall id :: id in c.order ==> id in c.store)
    requires (forall id :: EntryLinked(c, id)) && (forall s :: SiteLinked(c, s))
    ensures ListsOk(c)
  {
  }

  lemma RemoveOrder(c: Cache, id: nat)
    requires ListsOk(c) && id in c.store
    ensures Distinct(Remove(c, id).order) && (forall x :: x in Remove(c, id).order ==> x in Remove(c, id).store)
  {
    hide Dropped, Restrict, Distinct, Remove, EntryLinked, SiteLinked;
    RemoveEffect(c, id);
    DroppedMembers(c.order, id);
  }

  lemma RemoveEntry(c: Cache, id: nat, x: nat)
    requires ListsOk(c) && id in c.store
    ensures EntryLinked(Remove(c, id), x)
  {
    hide Dropped, Restrict, Distinct;
    assert EntryLinked(c, id);
    assert EntryLinked(c, x);
    DroppedMembers(c.order, id);
    assert SiteLinked(c, c.store[id].owner);
  }

  lemma RemoveSite(c: Cache, id: nat, s: nat)
    requires ListsOk(c) && id in c.store
    ensures SiteLinked(Remove(c, id), s)
  {
    hide Dropped, Restrict, Distinct;
    assert EntryLinked(c, id);
    assert SiteLinked(c, s);
    RestrictDropped(c.order, c.store, c.store - {id}, id, s);
    if s in c.sites && c.store[id].owner != s {
      RestrictMembers(c.order, c.store, s);
      DroppedAbsent(Restrict(c.order, c.store, s), id);
    }
  }

  lemma TouchLists(c: Cache, s: nat, id: nat)
    requires ListsOk(c) && id in c.store && c.store[id].owner == s && s in c.sites
    ensures ListsOk(Touch(c, s, id))
  {
    hide Dropped, Restrict;
    var q := Touch(c, s, id);
    assert EntryLinked(c, id);
    DroppedMembers(c.order, id);
    forall x ensures EntryLinked(q, x) {
      assert EntryLinked(c, x);
    }
    forall u ensures SiteLinked(q, u) {
      assert SiteLinked(c, u);
      RestrictDropped(c.order, c.store, c.store, id, u);
      RestrictFront(id, Dropped(c.order, id), c.store, u);
      if u in c.sites && u != s {
        RestrictMembers(c.order, c.store, u);
        DroppedAbsent(Restrict(c.order, c.store, u), id);
      }
    }
  }

  lemma RestrictFront(id: nat, ids: seq<nat>, store: map<nat, Entry>, s: nat)
    ensures Restrict([id] + ids, store, s)
         == (if id in store && store[id].owner == s then [id] else []) + Restrict(ids, store, s)
  {
    assert ([id] + ids)[1..] == ids;
    assert [] + Restrict(ids, store, s) == Restrict(ids, store, s);
  }

  function Inserted(c: Cache, id: nat, e: Entry): Cache
    requires e.owner in c.sites
  {
    var site := c.sites[e.owner];
    WithSite(c, e.owner, site.(entries := site.entries[e.key := id], lru := [id] + site.lru, bytes := site.bytes + e.cost))
      .(order := [id] + c.order, bytes := c.bytes + e.cost, store := c.store[id := e], nextId := c.nextId + 1)
  }

  lemma InsertLists(c: Cache, id: nat, e: Entry)
    requires ListsOk(c) && id !in c.store && e.owner in c.sites && e.key !in c.sites[e.owner].entries
    ensures ListsOk(Inserted(c, id, e))
  {
    hide Restrict;
    var q := Inserted(c, id, e);
    forall x ensures EntryLinked(q, x) {
      assert EntryLinked(c, x);
    }
    forall s ensures SiteLinked(q, s) {
      assert SiteLinked(c, s);
      RestrictFront(id, c.order, q.store, s);
      RestrictAgrees(c.order, c.store, q.store, id, s);
      assert [] + Restrict(c.order, c.store, s) == Restrict(c.order, c.store, s);
    }
  }

  // ---------- making room ----------

  function Last(ids: seq<nat>): nat
    requires ids != []
  {
    ids[|ids| - 1]
  }

  lemma LruLinked(c: Cache, s: nat)
    requires ListsOk(c) && s in c.sites
    ensures forall id :: id in c.sites[s].lru ==> id in c.store && id in c.order && c.store[id].owner == s
  {
    assert SiteLinked(c, s);
    RestrictMembers(c.order, c.store, s);
  }

  lemma OrderLinked(c: Cache, id: nat)
    requires ListsOk(c) && id in c.order
    ensures id in c.store
  {
  }

  /** Evicts from the end of the site's own list until the site is within its limit. */
  function EvictSite(c: Cache, s: nat): (q: Cache)
    requires ListsOk(c) && s in c.sites
    ensures ListsOk(q)
    decreases |c.order|
  {
    if c.sites[s].bytes > c.maxSite && c.sites[s].lru != [] then
      var id := Last(c.sites[s].lru);
      LruLinked(c, s);
      RemoveEffect(c, id);
      RemoveLists(c, id);
      EvictSite(Remove(c, id), s)
    else c
  }

  /** Evicts from the end of the process list until the process is within its limit. */
  function EvictProcess(c: Cache): (q: Cache)
    requires ListsOk(c)
    ensures ListsOk(q)
    decreases |c.order|
  {
    if c.bytes > c.maxProcess && c.order != [] then
      var id := Last(c.order);
      OrderLinked(c, id);
      RemoveEffect(c, id);
      RemoveLists(c, id);
      EvictProcess(Remove(c, id))
    else c
  }

  function CostWith(key: Key, x: Captured): nat {
    x.cost + KeyBytes(key)
  }

  predicate Storable(c: Cache, s: nat, key: Key, x: Captured, now: int)
    requires s in c.sites
  {
    && !c.sites[s].closed && now < x.expiresAt && c.maxProcess > 0 && c.maxSite > 0
    && CostWith(key, x) <= c.maxSite && CostWith(key, x) <= c.maxProcess
  }

  function WithoutKey(c: Cache, s: nat, key: Key): (q: Cache)
    requires ListsOk(c) && s in c.sites
    ensures ListsOk(q) && s in q.sites && key !in q.sites[s].entries && q.nextId == c.nextId
    ensures forall id :: id in q.store ==> id in c.store
  {
    if key in c.sites[s].entries then
      var id := c.sites[s].entries[key];
      assert SiteLinked(c, s);
      RemoveEffect(c, id);
      RemoveLists(c, id);
      Remove(c, id)
    else c
  }

  ghost predicate FreshId(c: Cache) {
    (forall id :: id in c.store ==> id < c.nextId) && (forall f :: f in c.flights ==> f < c.nextId)
    && (forall s :: s in c.sites ==> s < c.nextId)
  }

  /** Stores a captured response as the most recently used entry; true if it is still there afterwards. */
  function Store(c: Cache, s: nat, key: Key, x: Captured, now: int): (Cache, bool)
    requires ListsOk(c) && s in c.sites && FreshId(c)
  {
    if !Storable(c, s, key, x, now) then (c, false)
    else
      var id := c.nextId;
      var c1 := WithoutKey(c, s, key);
      var e := Entry(key, s, CostWith(key, x), x.expiresAt);
      InsertLists(c1, id, e);
      var c2 := EvictProcess(EvictSite(Inserted(c1, id, e), s));
      (c2, s in c2.sites && key in c2.sites[s].entries && c2.sites[s].entries[key] == id)
  }

  // ---------- flights ----------

  function MinimumReservation(key: Key): nat {
    OVERHEAD + KeyBytes(key) + LENGTH_RESERVATION
  }

  function TargetReservation(c: Cache, key: Key): int {
    Least(Least(MAX_BODY + MAX_HEADER + OVERHEAD + KeyBytes(key), c.maxSite), c.maxProcess)
  }

  function Charge(c: Cache, s: nat, amount: nat): Cache
    requires s in c.sites
  {
    WithSite(c, s, c.sites[s].(bytes := c.sites[s].bytes + amount)).(bytes := c.bytes + amount)
  }

  function Refund(c: Cache, s: nat, amount: nat): Cache
    requires s in c.sites
  {
    WithSite(c, s, c.sites[s].(bytes := Minus(c.sites[s].bytes, amount))).(bytes := Minus(c.bytes, amount))
  }

  /** One turn after the other: reserve if enough is left, else evict one entry. */
  function ReserveLoop(c: Cache, s: nat, minimum: nat, target: int): (r: (Cache, nat))
    requires ListsOk(c) && s in c.sites && 0 <= minimum < target
    ensures ListsOk(r.0)
    decreases |c.order|
  {
    var site := c.sites[s];
    var siteLeft := c.maxSite - site.bytes;
    var processLeft := c.maxProcess - c.bytes;
    var left := Least(siteLeft, processLeft);
    if left > minimum then
      var amount := Least(target, left);
      ChargeLists(c, s, amount);
      (Charge(c, s, amount), amount)
    else if siteLeft <= minimum then
      if site.lru == [] then (c, 0)
      else
        var id := Last(site.lru);
        LruLinked(c, s);
        RemoveEffect(c, id);
        RemoveLists(c, id);
        ReserveLoop(Remove(c, id), s, minimum, target)
    else if c.order == [] then (c, 0)
    else
      var id := Last(c.order);
      OrderLinked(c, id);
      RemoveEffect(c, id);
      RemoveLists(c, id);
      ReserveLoop(Remove(c, id), s, minimum, target)
  }

  lemma ChargeLists(c: Cache, s: nat, amount: nat)
    requires ListsOk(c) && s in c.sites
    ensures ListsOk(Charge(c, s, amount)) && ListsOk(Refund(c, s, amount))
  {
    hide Restrict;
    ListsKept(c, Charge(c, s, amount));
    ListsKept(c, Refund(c, s, amount));
  }

  /** Nothing but byte counters and flights changed. */
  ghost predicate SameLists(c: Cache, q: Cache) {
    && q.order == c.order && q.store == c.store && q.sites.Keys == c.sites.Keys
    && (forall s :: s in c.sites ==> q.sites[s].lru == c.sites[s].lru && q.sites[s].entries == c.sites[s].entries)
  }

  lemma ListsKept(c: Cache, q: Cache)
    requires ListsOk(c) && SameLists(c, q)
    ensures ListsOk(q)
  {
    hide Restrict;
    forall id ensures EntryLinked(q, id) {
      assert EntryLinked(c, id);
    }
    forall s ensures SiteLinked(q, s) {
      assert SiteLinked(c, s);
    }
  }

  function Reserve(c: Cache, s: nat, key: Key): (r: (Cache, nat))
    requires ListsOk(c) && s in c.sites
    ensures ListsOk(r.0)
  {
    if c.maxProcess <= 0 || c.maxSite <= 0 || TargetReservation(c, key) <= MinimumReservation(key) then (c, 0)
    else ReserveLoop(c, s, MinimumReservation(key), TargetReservation(c, key))
  }

  datatype Looked = Unavailable | Hit(id: nat) | Wait(flight: nat) | Lead(flight: nat)

  /** Looks up, joins a flight, or starts one with its bytes reserved. */
  function LookupOrBegin(c: Cache, s: nat, key: Key, now: int): (Cache, Looked)
    requires ListsOk(c) && s in c.sites
  {
    if c.sites[s].closed then (c, Unavailable)
    else
      var (c1, found) := Get(c, s, key, now);
      GetLists(c, s, key, now);
      if found.Some? then (c1, Hit(found.value))
      else if s !in c1.sites then (c1, Unavailable)
      else if key in c1.sites[s].flights then (c1, Wait(c1.sites[s].flights[key]))
      else
        var (c2, reserved) := Reserve(c1, s, key);
        if reserved == 0 || s !in c2.sites then (c2, Unavailable)
        else
          var f := c2.nextId;
          (WithSite(c2, s, c2.sites[s].(flights := c2.sites[s].flights[key := f]))
             .(flights := c2.flights[f := Flight(s, key, reserved, false, false, 0)], nextId := c2.nextId + 1), Lead(f))
  }

  lemma GetLists(c: Cache, s: nat, key: Key, now: int)
    requires ListsOk(c) && s in c.sites
    ensures ListsOk(Get(c, s, key, now).0)
  {
    hide Restrict, Remove, Touch;
    if key in c.sites[s].entries {
      var id := c.sites[s].entries[key];
      assert SiteLinked(c, s);
      RemoveLists(c, id);
      TouchLists(c, s, id);
    }
  }

  predicate InTable(c: Cache, f: nat) {
    && f in c.flights && c.flights[f].site in c.sites
    && var site := c.sites[c.flights[f].site];
    && c.flights[f].key in site.flights && site.flights[c.flights[f].key] == f
  }

  function BeginCapture(c: Cache, f: nat): (Cache, bool) {
    if InTable(c, f) && !c.sites[c.flights[f].site].closed && c.flights[f].reserved > 0 then
      (c.(flights := c.flights[f := c.flights[f].(started := true)]), true)
    else (c, false)
  }

  /** Gives a flight's reservation back, once. */
  function Release(c: Cache, f: nat): Cache {
    if f !in c.flights || c.flights[f].site !in c.sites then c
    else
      Refund(c, c.flights[f].site, c.flights[f].reserved).(flights := c.flights[f := c.flights[f].(reserved := 0)])
  }

  predicate CaptureFits(fl: Flight, x: Captured) {
    x.cost <= fl.reserved && KeyBytes(fl.key) <= fl.reserved - x.cost
  }

  /** Takes a flight out of the table and wakes its waiters. */
  function Land(c: Cache, f: nat, stored: bool): Cache
    requires f in c.flights && c.flights[f].site in c.sites
  {
    var fl := c.flights[f];
    var site := c.sites[fl.site];
    WithSite(c, fl.site, site.(flights := site.flights - {fl.key}))
      .(flights := c.flights[f := fl.(stored := stored, done := fl.done + 1)])
  }

  function FinishFlight(c: Cache, f: nat, x: Option<Captured>, now: int): Cache
    requires ListsOk(c) && FreshId(c)
  {
    if !InTable(c, f) then Release(c, f)
    else
      var fl := c.flights[f];
      var c1 := Release(c, f);
      ReleaseLists(c, f);
      if x.Some? && CaptureFits(fl, x.value) then
        var (c2, stored) := Store(c1, fl.site, fl.key, x.value, now);
        if f in c2.flights && c2.flights[f].site in c2.sites then Land(c2, f, stored) else c2
      else Land(c1, f, false)
  }

  lemma ReleaseLists(c: Cache, f: nat)
    requires ListsOk(c)
    ensures ListsOk(Release(c, f)) && (FreshId(c) ==> FreshId(Release(c, f)))
    ensures Release(c, f).sites.Keys == c.sites.Keys
  {
    hide Restrict;
    ListsKept(c, Release(c, f));
  }

  // ---------- closing a site ----------

  function RemoveAll(c: Cache, s: nat): (q: Cache)
    requires ListsOk(c) && s in c.sites
    ensures ListsOk(q)
    decreases |c.order|
  {
    if c.sites[s].lru == [] then c
    else
      var id := Last(c.sites[s].lru);
      LruLinked(c, s);
      RemoveEffect(c, id);
      RemoveLists(c, id);
      RemoveAll(Remove(c, id), s)
  }

  /** Ends the flights in the given order; a capture that runs keeps its bytes until it is done. */
  function EndFlights(c: Cache, order: seq<nat>): Cache
    decreases |order|
  {
    if order == [] then c
    else
      var f := order[0];
      if !InTable(c, f) then EndFlights(c, order[1..])
      else
        var c1 := if c.flights[f].started then c else Release(c, f);
        if InTable(c1, f) then EndFlights(Land(c1, f, c1.flights[f].stored), order[1..]) else EndFlights(c1, order[1..])
  }

  function Close(c: Cache, s: nat, order: seq<nat>): Cache
    requires ListsOk(c) && s in c.sites
  {
    if c.sites[s].closed then c
    else
      var c1 := WithSite(c, s, c.sites[s].(closed := true));
      ListsKept(c, c1);
      EndFlights(RemoveAll(c1, s), order)
  }

  function NewSite(c: Cache): (Cache, nat) {
    (WithSite(c, c.nextId, Site(false, map[], map[], 0, [])).(nextId := c.nextId + 1), c.nextId)
  }
}
