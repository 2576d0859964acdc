/**
 The heap lists and tables against the model on values: with entries and sites
 numbered, every list operation on the heap is the operation of that model.
 */
module ImageCacheRefinement {
  import opened Wrappers
  import Spec = ImageCacheSpec
  import opened ImageCacheLists

  type Names = map<ImageCacheEntry, nat>

  type Numbers = map<ImageCacheSite, nat>

  /** What a site holds on the heap. */
  datatype Held = Held(lru: seq<ImageCacheEntry>, entries: map<Spec.Key, ImageCacheEntry>)

  ghost predicate Named(order: seq<ImageCacheEntry>, names: Names) {
    forall i :: 0 <= i < |order| ==> order[i] in names
  }

  ghost predicate Apart(names: Names) {
    forall a, b :: a in names && b in names && names[a] == names[b] ==> a == b
  }

  ghost function Ids(order: seq<ImageCacheEntry>, names: Names): (ids: seq<nat>)
    requires Named(order, names)
    ensures |ids| == |order| && forall i :: 0 <= i < |order| ==> ids[i] == names[order[i]]
  {
    seq(|order|, i requires 0 <= i < |order| => names[order[i]])
  }

  lemma {:induction false} IdsWithout(order: seq<ImageCacheEntry>, names: Names, e: ImageCacheEntry)
    requires Named(order, names) && e in names && Apart(names)
    ensures Named(Without(order, e), names)
    ensures Ids(Without(order, e), names) == Spec.Dropped(Ids(order, names), names[e])
    decreases |order|
  {
    if order != [] {
      var rest := order[1..];
      IdsWithout(rest, names, e);
      assert Ids(order, names)[1..] == Ids(rest, names);
      var kept := Without(rest, e);
      if order[0] != e {
        IdsFront(kept, names, order[0]);
      }
    }
  }

  lemma IdsFront(order: seq<ImageCacheEntry>, names: Names, e: ImageCacheEntry)
    requires Named(order, names) && e in names
    ensures Named([e] + order, names) && Ids([e] + order, names) == [names[e]] + Ids(order, names)
  {
  }

  /** The process list restricted to one site reads the same in both models. */
  lemma {:induction false} IdsOwned(order: seq<ImageCacheEntry>, names: Names, numbers: Numbers,
                                    store: map<nat, Spec.Entry>, s: ImageCacheSite)
    requires Named(order, names) && s in numbers && ApartSites(numbers)
    requires forall i :: 0 <= i < |order| ==> EntryShown(order[i], names, numbers, store)
    ensures Named(OwnedBy(order, s), names)
    ensures Ids(OwnedBy(order, s), names) == Spec.Restrict(Ids(order, names), store, numbers[s])
    decreases |order|
  {
    if order != [] {
      var rest := order[1..];
      IdsOwned(rest, names, numbers, store, s);
      assert Ids(order, names)[1..] == Ids(rest, names);
      assert EntryShown(order[0], names, numbers, store);
      if order[0].owner == s {
        IdsFront(OwnedBy(rest, s), names, order[0]);
      }
    }
  }

  ghost predicate ApartSites(numbers: Numbers) {
    forall a, b :: a in numbers && b in numbers && numbers[a] == numbers[b] ==> a == b
  }

  ghost predicate EntryShown(e: ImageCacheEntry, names: Names, numbers: Numbers, store: map<nat, Spec.Entry>) {
    && e in names && e.owner in numbers && names[e] in store
    && store[names[e]].owner == numbers[e.owner] && store[names[e]].key == e.key
  }

  /** One site on the heap and its record in the model on values. */
  ghost predicate SiteShown(held: Held, names: Names, site: Spec.Site) {
    && Named(held.lru, names) && Ids(held.lru, names) == site.lru
    && held.entries.Keys == site.entries.Keys
    && forall k :: k in held.entries ==> held.entries[k] in names && names[held.entries[k]] == site.entries[k]
  }

  /** The lists and tables of the heap are those of c. */
  ghost predicate Shown(order: seq<ImageCacheEntry>, held: map<ImageCacheSite, Held>, names: Names, numbers: Numbers,
                        c: Spec.Cache)
  {
    && Apart(names) && ApartSites(numbers) && held.Keys == numbers.Keys
    && Named(order, names) && Ids(order, names) == c.order
    && (forall s :: s in held ==> numbers[s] in c.sites && SiteShown(held[s], names, c.sites[numbers[s]]))
    && (forall e :: e in order ==> EntryShown(e, names, numbers, c.store))
  }

  ghost function HeldBy(sites: set<ImageCacheSite>): (held: map<ImageCacheSite, Held>)
    reads sites
    ensures held.Keys == sites
  {
    map s | s in sites :: Held(s.lru, s.entries)
  }

  lemma TouchShown(order: seq<ImageCacheEntry>, held: map<ImageCacheSite, Held>, names: Names, numbers: Numbers,
                   c: Spec.Cache, e: ImageCacheEntry)
    requires Shown(order, held, names, numbers, c) && e in order && e.owner in held && e in held[e.owner].lru
    ensures numbers[e.owner] in c.sites
    ensures Shown([e] + Without(order, e),
                  held[e.owner := held[e.owner].(lru := [e] + Without(held[e.owner].lru, e))], names, numbers,
                  Spec.Touch(c, numbers[e.owner], names[e]))
  {
    hide Without, Spec.Dropped, Ids, Named, Apart;
    var s := e.owner;
    NamedAt(order, names, e);
    IdsWithout(order, names, e);
    IdsFront(Without(order, e), names, e);
    IdsWithout(held[s].lru, names, e);
    IdsFront(Without(held[s].lru, e), names, e);
    SameMembers(e, order);
  }

  lemma NamedAt(order: seq<ImageCacheEntry>, names: Names, e: ImageCacheEntry)
    requires Named(order, names) && e in order
    ensures e in names
  {
  }

  lemma RemoveShown(order: seq<ImageCacheEntry>, held: map<ImageCacheSite, Held>, names: Names, numbers: Numbers,
                    c: Spec.Cache, e: ImageCacheEntry)
    requires Shown(order, held, names, numbers, c) && e in order && e.owner in held
    requires e.key in held[e.owner].entries && held[e.owner].entries[e.key] == e
    ensures Shown(Without(order, e),
                  held[e.owner := Held(Without(held[e.owner].lru, e), held[e.owner].entries - {e.key})], names, numbers,
                  Spec.Remove(c, names[e]))
  {
    hide Without, Spec.Dropped, Ids, Named, Apart;
    var s := e.owner;
    NamedAt(order, names, e);
    assert EntryShown(e, names, numbers, c.store);
    IdsWithout(order, names, e);
    IdsWithout(held[s].lru, names, e);
    WithoutMembers(order, e);
    StillShown(order, names, numbers, c.store, e);
  }

  lemma StillShown(order: seq<ImageCacheEntry>, names: Names, numbers: Numbers, store: map<nat, Spec.Entry>,
                   e: ImageCacheEntry)
    requires Apart(names) && e in names && forall x :: x in order ==> EntryShown(x, names, numbers, store)
    ensures forall x :: x in order && x != e ==> EntryShown(x, names, numbers, store - {names[e]})
  {
  }

  lemma InsertShown(order: seq<ImageCacheEntry>, held: map<ImageCacheSite, Held>, names: Names, numbers: Numbers,
                    c: Spec.Cache, e: ImageCacheEntry, x: Spec.Entry)
    requires Shown(order, held, names, numbers, c) && e !in names && e.owner in held
    requires c.nextId !in c.store && (forall n :: n in names ==> names[n] != c.nextId)
    requires x.owner == numbers[e.owner] && x.key == e.key
    ensures x.owner in c.sites
    ensures Shown([e] + order,
                  held[e.owner := Held([e] + held[e.owner].lru, held[e.owner].entries[e.key := e])],
                  names[e := c.nextId], numbers, Spec.Inserted(c, c.nextId, x))
  {
    hide Ids, Named, Apart, SiteShown, ApartSites, EntryShown;
    var more := names[e := c.nextId];
    var s := e.owner;
    var c1 := Spec.Inserted(c, c.nextId, x);
    var held1 := held[s := Held([e] + held[s].lru, held[s].entries[e.key := e])];
    ApartMore(names, e, c.nextId);
    IdsMore(order, names, e, c.nextId);
    IdsFront(order, more, e);
    forall t | t in held1 ensures numbers[t] in c1.sites && SiteShown(held1[t], more, c1.sites[numbers[t]]) {
      if t == s {
        SiteInserted(held[s], names, c.sites[numbers[s]], e, c.nextId, x.cost);
      } else {
        OtherNumber(numbers, s, t);
        SiteMore(held[t], names, c.sites[numbers[t]], e, c.nextId);
      }
    }
    forall y | y in [e] + order ensures EntryShown(y, more, numbers, c1.store) {
      EntryMore(y, e, names, numbers, c.store, c.nextId, x, order);
    }
  }

  lemma OtherNumber(numbers: Numbers, s: ImageCacheSite, t: ImageCacheSite)
    requires ApartSites(numbers) && s in numbers && t in numbers && s != t
    ensures numbers[s] != numbers[t]
  {
  }

  lemma EntryMore(y: ImageCacheEntry, e: ImageCacheEntry, names: Names, numbers: Numbers, store: map<nat, Spec.Entry>, id: nat,
                  x: Spec.Entry, order: seq<ImageCacheEntry>)
    requires y in [e] + order && e !in names && id !in store && (forall n :: n in names ==> names[n] != id)
    requires y in order ==> EntryShown(y, names, numbers, store)
    requires e.owner in numbers && x.owner == numbers[e.owner] && x.key == e.key
    ensures EntryShown(y, names[e := id], numbers, store[id := x])
  {
  }

  lemma SiteMore(held: Held, names: Names, site: Spec.Site, e: ImageCacheEntry, id: nat)
    requires SiteShown(held, names, site) && e !in names
    ensures SiteShown(held, names[e := id], site)
  {
    IdsMore(held.lru, names, e, id);
    hide Ids, Named;
  }

  lemma SiteInserted(held: Held, names: Names, site: Spec.Site, e: ImageCacheEntry, id: nat, cost: nat)
    requires SiteShown(held, names, site) && e !in names
    ensures SiteShown(Held([e] + held.lru, held.entries[e.key := e]), names[e := id],
                      site.(entries := site.entries[e.key := id], lru := [id] + site.lru, bytes := site.bytes + cost))
  {
    IdsMore(held.lru, names, e, id);
    IdsFront(held.lru, names[e := id], e);
    hide Ids, Named;
  }

  lemma ApartMore(names: Names, e: ImageCacheEntry, id: nat)
    requires Apart(names) && e !in names && forall n :: n in names ==> names[n] != id
    ensures Apart(names[e := id])
  {
  }

  lemma IdsMore(order: seq<ImageCacheEntry>, names: Names, e: ImageCacheEntry, id: nat)
    requires Named(order, names) && e !in names
    ensures Named(order, names[e := id]) && Ids(order, names[e := id]) == Ids(order, names)
  {
  }

  // ---------- the operations on the heap ----------

  /** The heap is what the model on values says. */
  ghost predicate Refines(r: ImageCacheRuntime, sites: set<ImageCacheSite>, names: Names, numbers: Numbers, c: Spec.Cache)
    reads r, r.order, sites
  {
    Coherent(r, sites) && Shown(r.order, HeldBy(sites), names, numbers, c)
  }

  /** A hit is Touch of the model on values. */
  method TouchEntry(r: ImageCacheRuntime, ghost sites: set<ImageCacheSite>, e: ImageCacheEntry, ghost names: Names,
                    ghost numbers: Numbers, ghost c: Spec.Cache)
    requires Refines(r, sites, names, numbers, c) && e in r.order
    modifies r, Members(r.order), sites
    ensures e in names && e.owner in numbers && numbers[e.owner] in c.sites
    ensures Refines(r, sites, names, numbers, Spec.Touch(c, numbers[e.owner], names[e]))
  {
    hide Without, OwnedBy, Shown, GlobalLinks, SiteLinks, Spec.Touch, Coherent;
    ghost var held := HeldBy(sites);
    InLists(r, sites, e);
    TouchShown(r.order, held, names, numbers, c, e);
    NamesOf(r.order, held, names, numbers, c, e);
    Touch(r, sites, e);
    assert HeldBy(sites) == held[e.owner := held[e.owner].(lru := e.owner.lru)];
  }

  /** A removal is Remove of the model on values. */
  method RemoveEntry(r: ImageCacheRuntime, ghost sites: set<ImageCacheSite>, e: ImageCacheEntry, ghost names: Names,
                     ghost numbers: Numbers, ghost c: Spec.Cache)
    requires Refines(r, sites, names, numbers, c) && e in r.order
    modifies r, Members(r.order), sites
    ensures e in names && Refines(r, sites, names, numbers, Spec.Remove(c, names[e]))
  {
    hide Without, OwnedBy, Shown, GlobalLinks, SiteLinks, Spec.Remove, Coherent;
    ghost var held := HeldBy(sites);
    InLists(r, sites, e);
    RemoveShown(r.order, held, names, numbers, c, e);
    NamesOf(r.order, held, names, numbers, c, e);
    Remove(r, sites, e);
    assert HeldBy(sites) == held[e.owner := Held(e.owner.lru, e.owner.entries)];
  }

  /** Linking a stored entry is Inserted of the model on values, under the model's next number. */
  method InsertEntry(r: ImageCacheRuntime, ghost sites: set<ImageCacheSite>, e: ImageCacheEntry, ghost names: Names,
                     ghost numbers: Numbers, ghost c: Spec.Cache, ghost x: Spec.Entry)
    requires Refines(r, sites, names, numbers, c) && e !in names && e.owner in sites && e.key !in e.owner.entries
    requires c.nextId !in c.store && (forall n :: n in names ==> names[n] != c.nextId)
    requires e.owner in numbers && x.owner == numbers[e.owner] && x.key == e.key
    modifies r, Members(r.order), e, sites
    ensures x.owner in c.sites
    ensures Refines(r, sites, names[e := c.nextId], numbers, Spec.Inserted(c, c.nextId, x))
  {
    hide Without, OwnedBy, Shown, GlobalLinks, SiteLinks, Spec.Inserted, Coherent;
    ghost var held := HeldBy(sites);
    NotListed(r.order, held, names, numbers, c, e);
    InsertShown(r.order, held, names, numbers, c, e, x);
    assert Members(e.owner.lru) <= Members(r.order) by { SiteMembers(r, sites, e.owner); }
    Insert(r, sites, e);
    assert HeldBy(sites) == held[e.owner := Held(e.owner.lru, e.owner.entries)];
  }

  lemma IdsLast(order: seq<ImageCacheEntry>, names: Names)
    requires Named(order, names) && order != []
    ensures Spec.Last(Ids(order, names)) == names[order[|order| - 1]]
  {
  }

  /** One round of each eviction of the model on values. */
  lemma Rounds(c: Spec.Cache, s: nat)
    requires Spec.ListsOk(c)
    ensures c.bytes > c.maxProcess && c.order != [] ==>
      var q := Spec.Remove(c, Spec.Last(c.order)); Spec.ListsOk(q) && Spec.EvictProcess(c) == Spec.EvictProcess(q)
    ensures c.bytes <= c.maxProcess || c.order == [] ==> Spec.EvictProcess(c) == c
    ensures s in c.sites && c.sites[s].bytes > c.maxSite && c.sites[s].lru != [] ==>
      var q := Spec.Remove(c, Spec.Last(c.sites[s].lru));
      Spec.ListsOk(q) && s in q.sites && Spec.EvictSite(c, s) == Spec.EvictSite(q, s)
    ensures s in c.sites && (c.sites[s].bytes <= c.maxSite || c.sites[s].lru == []) ==> Spec.EvictSite(c, s) == c
  {
    hide Spec.ListsOk, Spec.Remove;
    if c.order != [] {
      Spec.OrderLinked(c, Spec.Last(c.order));
      Spec.RemoveEffect(c, Spec.Last(c.order));
      Spec.RemoveLists(c, Spec.Last(c.order));
    }
    if s in c.sites && c.sites[s].lru != [] {
      Spec.LruLinked(c, s);
      Spec.RemoveEffect(c, Spec.Last(c.sites[s].lru));
      Spec.RemoveLists(c, Spec.Last(c.sites[s].lru));
    }
  }

  lemma OrderShown(order: seq<ImageCacheEntry>, held: map<ImageCacheSite, Held>, names: Names, numbers: Numbers, c: Spec.Cache)
    requires Shown(order, held, names, numbers, c)
    ensures |c.order| == |order| && (order != [] ==> order[|order| - 1] in names && Spec.Last(c.order) == names[order[|order| - 1]])
  {
    if order != [] {
      IdsLast(order, names);
    }
  }

  lemma LruShown(order: seq<ImageCacheEntry>, held: map<ImageCacheSite, Held>, names: Names, numbers: Numbers, c: Spec.Cache,
                 s: ImageCacheSite)
    requires Shown(order, held, names, numbers, c) && s in held
    ensures var lru := held[s].lru;
      && numbers[s] in c.sites && |c.sites[numbers[s]].lru| == |lru|
      && (lru != [] ==> lru[|lru| - 1] in names && Spec.Last(c.sites[numbers[s]].lru) == names[lru[|lru| - 1]])
  {
    hide Ids, Apart, EntryShown;
    if held[s].lru != [] {
      IdsLast(held[s].lru, names);
    }
  }

  /**
   One round of eviction over the process limit: the entry at the end of the process list
   is the one that the model on values removes, and its eviction goes on from there.
   */
  method EvictProcessEntry(r: ImageCacheRuntime, ghost sites: set<ImageCacheSite>, ghost names: Names, ghost numbers: Numbers,
                           ghost c: Spec.Cache) returns (gone: bool)
    requires Refines(r, sites, names, numbers, c) && Spec.ListsOk(c)
    modifies r, Members(r.order), sites
    ensures gone <==> c.order != []
    ensures gone ==> Refines(r, sites, names, numbers, Spec.Remove(c, Spec.Last(c.order)))
    ensures !gone ==> Refines(r, sites, names, numbers, c)
    ensures gone && c.bytes > c.maxProcess ==>
      var q := Spec.Remove(c, Spec.Last(c.order)); Spec.ListsOk(q) && Spec.EvictProcess(c) == Spec.EvictProcess(q)
    ensures !gone || c.bytes <= c.maxProcess ==> Spec.EvictProcess(c) == c
  {
    hide Without, OwnedBy, Shown, GlobalLinks, SiteLinks, Spec.Remove, Coherent, Spec.ListsOk, Spec.EvictProcess, Spec.EvictSite;
    ghost var held := HeldBy(sites);
    ghost var before := r.order;
    OrderShown(before, held, names, numbers, c);
    Rounds(c, 0);
    if before != [] {
      InLists(r, sites, before[|before| - 1]);
      RemoveShown(before, held, names, numbers, c, before[|before| - 1]);
    }
    var victim := EvictLast(r, sites);
    gone := victim != null;
    if victim != null {
      assert HeldBy(sites) == held[victim.owner := Held(victim.owner.lru, victim.owner.entries)];
    } else {
      assert HeldBy(sites) == held;
    }
  }

  /** One round of eviction over a site's limit, likewise from the end of the site's own list. */
  method EvictSiteEntry(r: ImageCacheRuntime, ghost sites: set<ImageCacheSite>, s: ImageCacheSite, ghost names: Names,
                        ghost numbers: Numbers, ghost c: Spec.Cache) returns (gone: bool)
    requires Refines(r, sites, names, numbers, c) && s in sites && Spec.ListsOk(c)
    modifies r, Members(r.order), sites
    ensures s in numbers && numbers[s] in c.sites && (gone <==> c.sites[numbers[s]].lru != [])
    ensures gone ==> Refines(r, sites, names, numbers, Spec.Remove(c, Spec.Last(c.sites[numbers[s]].lru)))
    ensures !gone ==> Refines(r, sites, names, numbers, c)
    ensures gone && c.sites[numbers[s]].bytes > c.maxSite ==>
      var q := Spec.Remove(c, Spec.Last(c.sites[numbers[s]].lru));
      Spec.ListsOk(q) && numbers[s] in q.sites && Spec.EvictSite(c, numbers[s]) == Spec.EvictSite(q, numbers[s])
    ensures !gone || c.sites[numbers[s]].bytes <= c.maxSite ==> Spec.EvictSite(c, numbers[s]) == c
  {
    hide Without, OwnedBy, Shown, GlobalLinks, SiteLinks, Spec.Remove, Coherent, Spec.ListsOk, Spec.EvictProcess, Spec.EvictSite;
    ghost var held := HeldBy(sites);
    ghost var before, mine := r.order, s.lru;
    NumbersOf(before, held, names, numbers, c);
    LruShown(before, held, names, numbers, c, s);
    Rounds(c, numbers[s]);
    SiteMembers(r, sites, s);
    if mine != [] {
      assert mine[|mine| - 1] in Members(mine);
      LastOwner(r, sites, s);
      InLists(r, sites, mine[|mine| - 1]);
      RemoveShown(before, held, names, numbers, c, mine[|mine| - 1]);
    }
    var victim := EvictSiteLast(r, sites, s);
    gone := victim != null;
    if victim != null {
      assert HeldBy(sites) == held[s := Held(s.lru, s.entries)];
    } else {
      assert HeldBy(sites) == held;
    }
  }

  lemma NumbersOf(order: seq<ImageCacheEntry>, held: map<ImageCacheSite, Held>, names: Names, numbers: Numbers, c: Spec.Cache)
    requires Shown(order, held, names, numbers, c)
    ensures held.Keys == numbers.Keys
  {
  }

  lemma LastOwner(r: ImageCacheRuntime, sites: set<ImageCacheSite>, s: ImageCacheSite)
    requires Coherent(r, sites) && s in sites && s.lru != []
    ensures s.lru[|s.lru| - 1] in r.order && s.lru[|s.lru| - 1].owner == s
  {
    hide Without, OwnedBy, GlobalLinks, SiteLinks, TableMatches;
    assert SiteCoherent(r, s);
    OwnedMembers(r.order, s);
  }

  lemma SiteMembers(r: ImageCacheRuntime, sites: set<ImageCacheSite>, s: ImageCacheSite)
    requires Coherent(r, sites) && s in sites
    ensures Members(s.lru) <= Members(r.order)
  {
    assert SiteCoherent(r, s);
  }

  lemma NotListed(order: seq<ImageCacheEntry>, held: map<ImageCacheSite, Held>, names: Names, numbers: Numbers,
                  c: Spec.Cache, e: ImageCacheEntry)
    requires Shown(order, held, names, numbers, c) && e !in names
    ensures e !in order
  {
  }

  lemma InLists(r: ImageCacheRuntime, sites: set<ImageCacheSite>, e: ImageCacheEntry)
    requires Coherent(r, sites) && e in r.order
    ensures e.owner in sites && e in e.owner.lru && Members(e.owner.lru) <= Members(r.order)
    ensures e.key in e.owner.entries && e.owner.entries[e.key] == e
  {
    hide Without, OwnedBy, GlobalLinks, SiteLinks;
    assert SiteCoherent(r, e.owner);
    OwnedMembers(r.order, e.owner);
    InTable(e.owner.entries, e.owner.lru, e);
  }

  lemma NamesOf(order: seq<ImageCacheEntry>, held: map<ImageCacheSite, Held>, names: Names, numbers: Numbers,
                c: Spec.Cache, e: ImageCacheEntry)
    requires Shown(order, held, names, numbers, c) && e in order
    ensures EntryShown(e, names, numbers, c.store)
  {
  }
}
