/** What every reachable registry keeps about its capability tables. */
module RegistryTables {
  import opened Wrappers
  import opened MapSums
  import opened RegistrySpec
  import opened RegistryAuthorities

  /** Unclaimed entries are published, published ones have given their reservation up, and none was used after its time. */
  ghost predicate EntryOk(t: string, e: Entry) {
    && e.token == t && t != "" && e.cacheKey != "" && e.lastUsed < e.expiresAt
    && (e.pending == 0 ==> e.published) && (e.published ==> e.reservation.None?)
  }

  function Memories(table: map<string, Entry>): map<string, nat> {
    map t | t in table :: EntryMemory(table[t])
  }

  ghost predicate EntriesOk(table: map<string, Entry>) {
    forall t :: t in table ==> EntryOk(t, table[t])
  }

  /** Every index pair names a live entry of that cache key. */
  ghost predicate IndexOk(site: Site) {
    forall k :: k in site.index ==> site.index[k] in site.table && site.table[site.index[k]].cacheKey == k
  }

  ghost predicate SiteOk(site: Site) {
    && EntriesOk(site.table) && IndexOk(site)
    && site.memory == Sum(Memories(site.table))
    && site.memory <= MAX_SITE_MEMORY
    && (site.table != map[] ==> |site.table| <= site.limits.maxCapabilities)
  }

  function Sizes(sites: map<nat, Site>): map<nat, nat> {
    map s | s in sites :: |sites[s].table|
  }

  function SiteMemories(sites: map<nat, Site>): map<nat, nat> {
    map s | s in sites :: sites[s].memory
  }

  /** The process totals are the sums over the open sites, within the process limits. */
  ghost predicate TotalsOk(r: Registry) {
    && r.active == Sum(Sizes(r.sites)) <= MAX_CAPABILITIES
    && r.memory == Sum(SiteMemories(r.sites)) <= MAX_MEMORY
  }

  ghost predicate TablesOk(r: Registry) {
    (forall s :: s in r.sites ==> SiteOk(r.sites[s])) && TotalsOk(r)
  }

  // ---------- operations that leave tables alone ----------

  lemma TablesOkKept(r: Registry, q: Registry)
    requires TablesOk(r) && TablesKept(r, q) && q.sites.Keys == r.sites.Keys
    ensures TablesOk(q)
  {
    hide Sum;
    assert Sizes(q.sites) == Sizes(r.sites);
    assert SiteMemories(q.sites) == SiteMemories(r.sites);
    forall s | s in q.sites ensures SiteOk(q.sites[s]) {
      assert SiteOk(r.sites[s]);
    }
  }

  // ---------- one site changes ----------

  lemma SizesStored(r: Registry, s: nat, site: Site)
    requires s in r.sites && TotalsOk(r)
    ensures Sum(Sizes(r.sites[s := site])) == r.active - |r.sites[s].table| + |site.table|
    ensures |r.sites[s].table| <= r.active
  {
    hide Sum;
    assert Sizes(r.sites[s := site]) == Sizes(r.sites)[s := |site.table|];
    SumStore(Sizes(r.sites), s, |site.table|);
    SumAtLeast(Sizes(r.sites), s);
  }

  lemma MemoriesStored(r: Registry, s: nat, site: Site)
    requires s in r.sites && TotalsOk(r)
    ensures Sum(SiteMemories(r.sites[s := site])) == r.memory - r.sites[s].memory + site.memory
    ensures r.sites[s].memory <= r.memory
  {
    hide Sum;
    assert SiteMemories(r.sites[s := site]) == SiteMemories(r.sites)[s := site.memory];
    SumStore(SiteMemories(r.sites), s, site.memory);
    SumAtLeast(SiteMemories(r.sites), s);
  }

  /** Storing a site whose table is in order, with the totals moved accordingly. */
  lemma SiteStored(r: Registry, s: nat, site: Site, active: nat, memory: nat)
    requires TablesOk(r) && s in r.sites && SiteOk(site)
    requires active == r.active - |r.sites[s].table| + |site.table| && active <= MAX_CAPABILITIES
    requires memory == r.memory - r.sites[s].memory + site.memory && memory <= MAX_MEMORY
    ensures TablesOk(WithSite(r, s, site).(active := active, memory := memory))
  {
    hide Sum, SiteOk, Sizes, SiteMemories;
    SizesStored(r, s, site);
    MemoriesStored(r, s, site);
  }

  lemma TableSize(table: map<string, Entry>, t: string, e: Entry)
    ensures |table[t := e]| == |table| + (if t in table then 0 else 1)
    ensures t in table ==> |table - {t}| == |table| - 1
  {
    assert table[t := e].Keys == table.Keys + {t};
    assert |table[t := e]| == |table[t := e].Keys| && |table| == |table.Keys|;
    if t in table {
      assert (table - {t}).Keys == table.Keys - {t};
      assert |table - {t}| == |(table - {t}).Keys|;
    }
  }

  lemma MemoryStored(table: map<string, Entry>, t: string, e: Entry)
    ensures Sum(Memories(table[t := e])) == Sum(Memories(table)) - (if t in table then EntryMemory(table[t]) else 0) + EntryMemory(e)
    ensures t in table ==> Sum(Memories(table - {t})) == Sum(Memories(table)) - EntryMemory(table[t])
    ensures t in table ==> EntryMemory(table[t]) <= Sum(Memories(table))
  {
    hide Sum, EntryMemory;
    assert Memories(table[t := e]) == Memories(table)[t := EntryMemory(e)];
    SumStore(Memories(table), t, EntryMemory(e));
    if t in table {
      assert Memories(table - {t}) == Memories(table) - {t};
      SumSplit(Memories(table), t);
    }
  }

  lemma SiteUpdated(site: Site, t: string, e: Entry)
    requires SiteOk(site) && t in site.table && EntryOk(t, e) && e.cacheKey == site.table[t].cacheKey
    ensures SiteOk(site.(table := site.table[t := e]))
  {
    hide Sum, Memories;
    assert EntryOk(t, site.table[t]);
    TableSize(site.table, t, e);
    MemoryStored(site.table, t, e);
  }

  /** An entry is replaced by one for the same token and cache key. */
  lemma EntryUpdated(r: Registry, s: nat, t: string, e: Entry)
    requires TablesOk(r) && s in r.sites && t in r.sites[s].table && EntryOk(t, e)
    requires e.cacheKey == r.sites[s].table[t].cacheKey
    ensures TablesOk(WithSite(r, s, r.sites[s].(table := r.sites[s].table[t := e])))
  {
    hide Sum, SiteOk, EntryOk, TotalsOk, TablesOk;
    SiteAt(r, s);
    SiteUpdated(r.sites[s], t, e);
    TableSize(r.sites[s].table, t, e);
    SiteStored(r, s, r.sites[s].(table := r.sites[s].table[t := e]), r.active, r.memory);
  }

  lemma SiteAt(r: Registry, s: nat)
    requires TablesOk(r) && s in r.sites
    ensures SiteOk(r.sites[s]) && |r.sites[s].table| <= r.active <= MAX_CAPABILITIES
    ensures r.sites[s].memory <= r.memory <= MAX_MEMORY
  {
    hide Sum, SiteOk;
    SizesStored(r, s, r.sites[s]);
    MemoriesStored(r, s, r.sites[s]);
  }

  lemma SiteIndexDropped(site: Site, k: string)
    requires SiteOk(site)
    ensures SiteOk(site.(index := site.index - {k}))
  {
    hide Sum, Memories, EntriesOk;
  }

  lemma IndexDropped(r: Registry, s: nat, k: string)
    requires TablesOk(r) && s in r.sites
    ensures TablesOk(WithSite(r, s, r.sites[s].(index := r.sites[s].index - {k})))
  {
    hide Sum, SiteOk, TotalsOk, TablesOk;
    SiteAt(r, s);
    SiteIndexDropped(r.sites[s], k);
    SiteStored(r, s, r.sites[s].(index := r.sites[s].index - {k}), r.active, r.memory);
  }

  lemma SiteInserted(site: Site, e: Entry)
    requires SiteOk(site) && e.token !in site.table && EntryOk(e.token, e) && e.cacheKey !in site.index
    requires |site.table| < site.limits.maxCapabilities && site.memory + EntryMemory(e) <= MAX_SITE_MEMORY
    ensures SiteOk(site.(table := site.table[e.token := e], index := site.index[e.cacheKey := e.token],
                         memory := site.memory + EntryMemory(e)))
  {
    hide Sum, Memories, EntryMemory;
    TableSize(site.table, e.token, e);
    MemoryStored(site.table, e.token, e);
  }

  lemma EntryInserted(r: Registry, s: nat, e: Entry)
    requires TablesOk(r) && s in r.sites && e.token !in r.sites[s].table && EntryOk(e.token, e)
    requires e.cacheKey !in r.sites[s].index
    requires |r.sites[s].table| < r.sites[s].limits.maxCapabilities && r.active < MAX_CAPABILITIES
    requires r.sites[s].memory + EntryMemory(e) <= MAX_SITE_MEMORY && r.memory + EntryMemory(e) <= MAX_MEMORY
    ensures var site := r.sites[s];
      TablesOk(WithSite(r, s, site.(table := site.table[e.token := e], index := site.index[e.cacheKey := e.token],
                                    memory := site.memory + EntryMemory(e)))
                 .(active := r.active + 1, memory := r.memory + EntryMemory(e)))
  {
    hide Sum, SiteOk, TotalsOk, TablesOk, EntryOk, EntryMemory;
    var site := r.sites[s];
    SiteAt(r, s);
    SiteInserted(site, e);
    TableSize(site.table, e.token, e);
    SiteStored(r, s, site.(table := site.table[e.token := e], index := site.index[e.cacheKey := e.token],
                           memory := site.memory + EntryMemory(e)), r.active + 1, r.memory + EntryMemory(e));
  }

  lemma SiteDeleted(site: Site, e: Entry)
    requires SiteOk(site) && e.token in site.table && e.cacheKey == site.table[e.token].cacheKey
    ensures EntryMemory(e) <= site.memory
    ensures SiteOk(site.(table := site.table - {e.token}, index := WithoutIndex(site.index, e),
                         memory := site.memory - EntryMemory(e)))
  {
    hide Sum, Memories;
    assert EntryOk(e.token, site.table[e.token]);
    assert EntryMemory(e) == EntryMemory(site.table[e.token]);
    hide EntryMemory;
    MemoryStored(site.table, e.token, e);
    TableSize(site.table, e.token, e);
    var index := WithoutIndex(site.index, e);
    forall k | k in index ensures index[k] in site.table && index[k] != e.token && site.table[index[k]].cacheKey == k {
      assert site.index[k] in site.table && site.table[site.index[k]].cacheKey == k;
    }
  }

  /** Deleting an entry never meets a clamp. */
  lemma EntryDeleted(r: Registry, s: nat, e: Entry)
    requires TablesOk(r) && s in r.sites && e.token in r.sites[s].table
    requires e.cacheKey == r.sites[s].table[e.token].cacheKey
    ensures EntryMemory(e) <= r.sites[s].memory && EntryMemory(e) <= r.memory && 1 <= r.active
    ensures var site := r.sites[s];
      TablesOk(WithSite(r, s, site.(table := site.table - {e.token}, index := WithoutIndex(site.index, e),
                                    memory := site.memory - EntryMemory(e)))
                 .(memory := r.memory - EntryMemory(e), active := r.active - 1))
  {
    hide Sum, SiteOk, TotalsOk, TablesOk, EntryMemory, WithoutIndex;
    var site := r.sites[s];
    SiteAt(r, s);
    SiteDeleted(site, e);
    TableSize(site.table, e.token, e);
    SiteStored(r, s, site.(table := site.table - {e.token}, index := WithoutIndex(site.index, e),
                           memory := site.memory - EntryMemory(e)), r.active - 1, r.memory - EntryMemory(e));
  }

  /** Closing a site takes exactly its share out of the process totals. */
  lemma ClosedTotals(r: Registry, s: nat)
    requires TablesOk(r)
    ensures TablesOk(CloseSite(r, s))
    ensures s in r.sites ==> |r.sites[s].table| <= r.active && r.sites[s].memory <= r.memory
  {
    hide Sum, SiteOk;
    if s in r.sites {
      SiteAt(r, s);
      assert Sizes(r.sites - {s}) == Sizes(r.sites) - {s};
      assert SiteMemories(r.sites - {s}) == SiteMemories(r.sites) - {s};
      SumSplit(Sizes(r.sites), s);
      SumSplit(SiteMemories(r.sites), s);
    }
  }

  lemma NewSiteOk(limits: Limits)
    ensures SiteOk(Site(limits, map[], map[], map[], 0, []))
  {
    assert Memories(map[]) == map[];
    SumZero<string>(map[]);
  }

  lemma OpenedTotals(r: Registry, limits: Limits)
    requires TablesOk(r) && r.nextId !in r.sites
    ensures TablesOk(OpenSite(r, limits).0)
  {
    hide Sum, SiteOk, Sizes, SiteMemories;
    NewSiteOk(limits);
    OpenedSums(r, Site(limits, map[], map[], map[], 0, []));
  }

  lemma OpenedSums(r: Registry, site: Site)
    requires r.nextId !in r.sites && site.table == map[] && site.memory == 0
    ensures Sum(Sizes(r.sites[r.nextId := site])) == Sum(Sizes(r.sites))
    ensures Sum(SiteMemories(r.sites[r.nextId := site])) == Sum(SiteMemories(r.sites))
  {
    hide Sum;
    var s := r.nextId;
    assert Sizes(r.sites[s := site]) == Sizes(r.sites)[s := 0];
    assert SiteMemories(r.sites[s := site]) == SiteMemories(r.sites)[s := 0];
    SumStore(Sizes(r.sites), s, 0);
    SumStore(SiteMemories(r.sites), s, 0);
  }

  // ---------- the operations ----------

  ghost predicate RegistryOk(r: Registry) {
    AuthoritiesOk(r) && TablesOk(r)
  }

  /** Sites other than s keep their tables, and s gets this one. */
  ghost predicate TableBecomes(r: Registry, q: Registry, s: nat, table: map<string, Entry>) {
    && q.sites.Keys == r.sites.Keys && s in q.sites && q.sites[s].table == table && q.nextId == r.nextId
    && (forall t :: t in r.sites && t != s ==> q.sites[t].table == r.sites[t].table)
    && (forall t :: t in r.sites ==> q.sites[t].limits == r.sites[t].limits)
  }

  function Without(pending: map<nat, Reservation>, id: Option<nat>): map<nat, Reservation> {
    if id.None? then pending else pending - {id.value}
  }

  lemma FinishOptionOk(r: Registry, id: Option<nat>, commit: bool)
    requires RegistryOk(r)
    ensures var q := FinishOption(r, id, commit);
      && RegistryOk(q) && q.pending == Without(r.pending, id) && q.sites.Keys == r.sites.Keys && TablesKept(r, q)
      && q.nextId == r.nextId
  {
    hide AuthoritiesOk, TablesOk, Finish;
    if id.Some? {
      FinishOk(r, id.value, commit);
      FinishFrame(r, id.value, commit);
      TablesOkKept(r, Finish(r, id.value, commit));
    }
  }

  lemma TakeOutOk(r: Registry, s: nat, e: Entry)
    requires RegistryOk(r) && s in r.sites && e.token in r.sites[s].table
    requires e.cacheKey == r.sites[s].table[e.token].cacheKey
    ensures var q := TakeOut(r, s, e);
      RegistryOk(q) && TableBecomes(r, q, s, r.sites[s].table - {e.token}) && q.pending == r.pending
  {
    hide AuthoritiesOk, TablesOk, WithoutIndex, EntryMemory;
    EntryDeleted(r, s, e);
    AuthoritiesKept(r, TakeOut(r, s, e));
  }

  lemma DeleteOk(r: Registry, s: nat, e: Entry)
    requires RegistryOk(r) && s in r.sites && e.token in r.sites[s].table
    requires e.cacheKey == r.sites[s].table[e.token].cacheKey
    ensures var q := Delete(r, s, e);
      && RegistryOk(q) && TableBecomes(r, q, s, r.sites[s].table - {e.token}) && q.pending == Without(r.pending, e.reservation)
  {
    hide RegistryOk, FinishOption, TakeOut;
    FinishOptionOk(r, e.reservation, false);
    TakeOutOk(FinishOption(r, e.reservation, false), s, e);
  }

  lemma SetEntryOk(r: Registry, s: nat, t: string, e: Entry)
    requires RegistryOk(r) && s in r.sites && t in r.sites[s].table && EntryOk(t, e)
    requires e.cacheKey == r.sites[s].table[t].cacheKey
    ensures var q := SetEntry(r, s, t, e);
      RegistryOk(q) && TableBecomes(r, q, s, r.sites[s].table[t := e]) && q.pending == r.pending
  {
    hide AuthoritiesOk, TablesOk, EntryOk;
    EntryUpdated(r, s, t, e);
    AuthoritiesKept(r, SetEntry(r, s, t, e));
  }

  lemma ClaimOk(r: Registry, s: nat, t: string)
    requires RegistryOk(r) && s in r.sites && t in r.sites[s].table
    ensures var q := Claim(r, s, t); var e := r.sites[s].table[t];
      && RegistryOk(q) && q.pending == r.pending
      && TableBecomes(r, q, s, r.sites[s].table[t := e.(pending := e.pending + 1)])
  {
    hide RegistryOk, SetEntry;
    TokenOf(r, s, t);
    var e := r.sites[s].table[t];
    SetEntryOk(r, s, t, e.(pending := e.pending + 1));
  }

  lemma DropIndexOk(r: Registry, s: nat, cacheKey: string)
    requires RegistryOk(r) && s in r.sites
    ensures RegistryOk(DropIndex(r, s, cacheKey)) && Removed(r, DropIndex(r, s, cacheKey), s)
    ensures DropIndex(r, s, cacheKey).sites[s].table == r.sites[s].table
  {
    hide AuthoritiesOk, TablesOk;
    IndexDropped(r, s, cacheKey);
    AuthoritiesKept(r, DropIndex(r, s, cacheKey));
  }

  lemma InsertOk(r: Registry, s: nat, e: Entry)
    requires RegistryOk(r) && s in r.sites && e.token !in r.sites[s].table && EntryOk(e.token, e)
    requires e.cacheKey !in r.sites[s].index && Fits(r, s, e)
    ensures var q := Insert(r, s, e);
      RegistryOk(q) && q.pending == r.pending && TableBecomes(r, q, s, r.sites[s].table[e.token := e])
  {
    hide AuthoritiesOk, TablesOk, EntryOk, EntryMemory;
    EntryInserted(r, s, e);
    AuthoritiesKept(r, Insert(r, s, e));
  }

  /** A capability that is found again is claimed once more; a stale one is forgotten. */
  lemma ReuseOk(r: Registry, s: nat, cacheKey: string, now: int)
    requires RegistryOk(r) && s in r.sites
    ensures var (q, token) := Reuse(r, s, cacheKey, now);
      && RegistryOk(q) && q.pending == r.pending
      && (token.Some? ==>
           && token.value in r.sites[s].table && q == Claim(r, s, token.value)
           && r.sites[s].table[token.value].cacheKey == cacheKey
           && EntryValid(r.sites[s].table[token.value], now, r.sites[s].limits.idle))
      && (token.None? ==> Removed(r, q, s))
  {
    hide RegistryOk, Delete, EntryValid, Claim, DropIndex;
    var site := r.sites[s];
    var token := IndexedToken(site, cacheKey);
    NothingRemoved(r, s);
    if cacheKey != "" {
      if token !in site.table || site.table[token].cacheKey != cacheKey
         || !EntryValid(site.table[token], now, site.limits.idle) {
        DropIndexOk(r, s, cacheKey);
        if token in site.table && site.table[token].pending == 0 {
          RemoveIdle(r, DropIndex(r, s, cacheKey), s, token);
        }
      } else {
        ClaimOk(r, s, token);
      }
    }
  }

  /** At most entries that nobody claims and that own no reservation are gone. */
  ghost predicate Removed(r: Registry, q: Registry, s: nat) {
    && s in r.sites && s in q.sites && q.sites.Keys == r.sites.Keys && q.pending == r.pending && q.nextId == r.nextId
    && (forall t :: t in r.sites && t != s ==> q.sites[t].table == r.sites[t].table)
    && (forall t :: t in r.sites ==> q.sites[t].limits == r.sites[t].limits)
    && (forall t :: t in q.sites[s].table ==> t in r.sites[s].table && q.sites[s].table[t] == r.sites[s].table[t])
    && (forall t :: t in r.sites[s].table && t !in q.sites[s].table ==>
          r.sites[s].table[t].pending == 0 && r.sites[s].table[t].reservation.None?)
  }

  lemma NothingRemoved(r: Registry, s: nat)
    requires s in r.sites
    ensures Removed(r, r, s)
  {
  }

  /** An entry nobody claims is published, so it owns no reservation when it is deleted. */
  lemma RemoveIdle(r: Registry, d: Registry, s: nat, token: string)
    requires RegistryOk(d) && s in r.sites && s in d.sites && token in d.sites[s].table && d.sites[s].table[token].pending == 0
    requires d.sites[s].table == r.sites[s].table && Removed(r, d, s)
    ensures RegistryOk(Delete(d, s, d.sites[s].table[token])) && Removed(r, Delete(d, s, d.sites[s].table[token]), s)
    ensures token !in Delete(d, s, d.sites[s].table[token]).sites[s].table
  {
    hide AuthoritiesOk, TablesOk, Delete;
    SiteAt(d, s);
    var e := d.sites[s].table[token];
    assert EntryOk(token, e);
    DeleteOk(d, s, e);
  }

  lemma RegisterOk(r: Registry, s: nat, token: string, cacheKey: string, expiresAt: int, now: int, reservation: Option<nat>)
    requires RegistryOk(r) && s in r.sites && token !in r.sites[s].table
    ensures var (q, result) := Register(r, s, token, cacheKey, expiresAt, now, reservation);
      && RegistryOk(q) && q.pending == r.pending
      && (result.None? ==> Removed(r, q, s))
      && (result == Some(token) ==>
            TableBecomes(r, q, s, r.sites[s].table[token := Entry(expiresAt, now, token, cacheKey, 1, false, reservation)]))
      && (result.Some? && result != Some(token) ==> result.value in r.sites[s].table && q == Claim(r, s, result.value))
  {
    hide RegistryOk, Claim, DropIndex, Insert, Fits;
    var site := r.sites[s];
    var existing := IndexedToken(site, cacheKey);
    NothingRemoved(r, s);
    if token != "" && cacheKey != "" && expiresAt > now {
      if existing in site.table && site.table[existing].cacheKey == cacheKey {
        ClaimOk(r, s, existing);
      } else {
        var e := Entry(expiresAt, now, token, cacheKey, 1, false, reservation);
        DropIndexOk(r, s, cacheKey);
        if Fits(r, s, e) {
          FitsDropped(r, s, cacheKey, e);
          InsertOk(DropIndex(r, s, cacheKey), s, e);
        }
      }
    }
  }

  lemma FitsDropped(r: Registry, s: nat, cacheKey: string, e: Entry)
    requires s in r.sites && Fits(r, s, e)
    ensures Fits(DropIndex(r, s, cacheKey), s, e) && cacheKey !in DropIndex(r, s, cacheKey).sites[s].index
    ensures DropIndex(r, s, cacheKey).sites[s].table == r.sites[s].table
  {
  }

  lemma HasOk(r: Registry, s: nat, token: string, now: int)
    requires RegistryOk(r) && s in r.sites
    ensures RegistryOk(Has(r, s, token, now).0) && Removed(r, Has(r, s, token, now).0, s)
    ensures Has(r, s, token, now).1 ==>
      && token in r.sites[s].table && r.sites[s].table[token].published
      && EntryValid(r.sites[s].table[token], now, r.sites[s].limits.idle) && Has(r, s, token, now).0 == r
  {
    hide AuthoritiesOk, TablesOk, Delete;
    NothingRemoved(r, s);
    if token != "" && token in r.sites[s].table {
      SiteAt(r, s);
      assert EntryOk(token, r.sites[s].table[token]);
      if r.sites[s].table[token].pending == 0 {
        RemoveIdle(r, r, s, token);
      }
    }
  }

  lemma UseOk(r: Registry, s: nat, token: string, now: int)
    requires RegistryOk(r) && s in r.sites
    ensures RegistryOk(Use(r, s, token, now).0) && Use(r, s, token, now).0.pending == r.pending
    ensures Use(r, s, token, now).1 ==>
      && token in r.sites[s].table
      && TableBecomes(r, Use(r, s, token, now).0, s, r.sites[s].table[token := r.sites[s].table[token].(lastUsed := now)])
    ensures !Use(r, s, token, now).1 ==> Removed(r, Use(r, s, token, now).0, s)
  {
    hide RegistryOk, Has, SetEntry;
    HasOk(r, s, token, now);
    if Has(r, s, token, now).1 {
      TokenOf(r, s, token);
      var e := r.sites[s].table[token];
      SetEntryOk(r, s, token, e.(lastUsed := now));
    }
  }

  // ---------- pruning ----------

  lemma RemovedTwice(r: Registry, q: Registry, p: Registry, s: nat)
    requires Removed(r, q, s) && Removed(q, p, s)
    ensures Removed(r, p, s)
  {
  }

  /** Deleting unclaimed entries in any order. */
  lemma {:induction false} DeleteAllOk(r: Registry, s: nat, order: seq<string>)
    requires RegistryOk(r) && s in r.sites
    requires forall t :: t in order && t in r.sites[s].table ==> r.sites[s].table[t].pending == 0
    ensures var q := DeleteAll(r, s, order);
      && RegistryOk(q) && Removed(r, q, s)
      && (forall t :: t in q.sites[s].table <==> t in r.sites[s].table && t !in order)
    decreases |order|
  {
    hide RegistryOk, Delete;
    NothingRemoved(r, s);
    if order != [] {
      if order[0] in r.sites[s].table {
        var t := order[0];
        var e := r.sites[s].table[t];
        RemoveIdle(r, r, s, t);
        TokenOf(r, s, t);
        var q := Delete(r, s, e);
        DeletedTable(r, s, t);
        DeleteAllOk(q, s, order[1..]);
        RemovedTwice(r, q, DeleteAll(q, s, order[1..]), s);
      } else {
        DeleteAllOk(r, s, order[1..]);
      }
    }
  }

  lemma TokenOf(r: Registry, s: nat, t: string)
    requires RegistryOk(r) && s in r.sites && t in r.sites[s].table
    ensures EntryOk(t, r.sites[s].table[t])
  {
    hide AuthoritiesOk;
    SiteAt(r, s);
  }

  lemma DeletedTable(r: Registry, s: nat, t: string)
    requires RegistryOk(r) && s in r.sites && t in r.sites[s].table
    ensures s in Delete(r, s, r.sites[s].table[t]).sites
    ensures Delete(r, s, r.sites[s].table[t]).sites[s].table == r.sites[s].table - {t}
  {
    hide RegistryOk, Delete;
    TokenOf(r, s, t);
    DeleteOk(r, s, r.sites[s].table[t]);
  }

  /** An entry with claims on it survives pruning, however old it is. */
  lemma PruneKeepsClaimed(r: Registry, s: nat, order: seq<string>, now: int)
    requires RegistryOk(r) && s in r.sites && Enumerates(order, Dead(r.sites[s], now))
    ensures var q := DeleteAll(r, s, order);
      && RegistryOk(q) && Removed(r, q, s)
      && (forall t :: t in r.sites[s].table && r.sites[s].table[t].pending > 0 ==>
            t in q.sites[s].table && q.sites[s].table[t] == r.sites[s].table[t])
      && (forall t :: t in q.sites[s].table ==>
            q.sites[s].table[t].pending > 0 || EntryValid(q.sites[s].table[t], now, r.sites[s].limits.idle))
  {
    hide RegistryOk, DeleteAll, EntryValid;
    DeleteAllOk(r, s, order);
  }
}
