/** Without a session there is as much room as with it, and more by what only the session keeps. */
module RegistryRoom {
  import opened Wrappers
  import opened MapSums
  import opened RegistrySpec
  import opened RegistryAuthorities
  import opened RegistryTables
  import opened RegistrySessions
  import opened RegistryRuns
  import opened RegistryTransactions
  import opened RegistryCore
  import opened RegistryCells
  import opened RegistryEffects
  import opened RegistryBeside

  /** Fewer entries, of the same memory each. */
  ghost predicate Among(x: map<string, Entry>, y: map<string, Entry>) {
    forall t :: t in x ==> t in y && EntryMemory(x[t]) == EntryMemory(y[t])
  }

  lemma AmongLess(x: map<string, Entry>, y: map<string, Entry>)
    requires Among(x, y)
    ensures |x| <= |y| && Sum(Memories(x)) <= Sum(Memories(y))
  {
    hide Sum, EntryMemory;
    assert x.Keys <= y.Keys;
    SubsetSize(x.Keys, y.Keys);
    assert |x| == |x.Keys| && |y| == |y.Keys|;
    SumLess(Memories(x), Memories(y));
  }

  lemma RelAmong(a: Site, b: Site, mine: seq<string>, time: int)
    requires SiteRel(a, b, mine, time)
    ensures Among(b.table, a.table)
  {
    hide CountOf;
    forall t | t in b.table ensures t in a.table && EntryMemory(b.table[t]) == EntryMemory(a.table[t]) {
      assert Cell(a, b, t, CountOf(mine, t), time);
    }
  }

  /** What the second table lacks is room in it. */
  lemma AmongWithout(x: map<string, Entry>, y: map<string, Entry>, t: string)
    requires Among(x, y) && t in y && t !in x
    ensures |x| + 1 <= |y| && Sum(Memories(x)) + EntryMemory(y[t]) <= Sum(Memories(y))
  {
    hide Sum, EntryMemory;
    AmongLess(x, y - {t});
    TableSize(y, t, y[t]);
    MemoryStored(y, t, y[t]);
  }

  /** Totals follow the sites. */
  lemma TotalsLess(r: Registry, q: Registry, s: nat, entries: nat, bytes: nat)
    requires TotalsOk(r) && TotalsOk(q) && q.sites.Keys == r.sites.Keys && s in r.sites
    requires forall u :: u in r.sites ==> |q.sites[u].table| <= |r.sites[u].table| && q.sites[u].memory <= r.sites[u].memory
    requires |q.sites[s].table| + entries <= |r.sites[s].table| && q.sites[s].memory + bytes <= r.sites[s].memory
    ensures q.active + entries <= r.active && q.memory + bytes <= r.memory
  {
    hide Sum;
    SumRoom(Sizes(q.sites), Sizes(r.sites), s, entries);
    SumRoom(SiteMemories(q.sites), SiteMemories(r.sites), s, bytes);
  }

  lemma SiteBooks(w: World, u: nat)
    requires Inv(w) && u in w.r.sites
    ensures TotalsOk(w.r) && w.r.active <= MAX_CAPABILITIES && w.r.memory <= MAX_MEMORY
    ensures w.r.sites[u].memory == Sum(Memories(w.r.sites[u].table)) <= MAX_SITE_MEMORY
    ensures w.r.sites[u].table != map[] ==> |w.r.sites[u].table| <= w.r.sites[u].limits.maxCapabilities
  {
    hide Sum, AuthoritiesOk, ClaimsOk, OwnersOk;
    assert SiteOk(w.r.sites[u]);
  }

  lemma SitesLess(w: World, g: World, i: nat, time: int)
    requires Rel(w, g, i, time)
    ensures g.r.sites.Keys == w.r.sites.Keys
    ensures forall u :: u in w.r.sites ==>
      |g.r.sites[u].table| <= |w.r.sites[u].table| && g.r.sites[u].memory <= w.r.sites[u].memory
  {
    hide Rel, Inv, Sum, SiteRel, Among;
    RelParts(w, g, i, time);
    forall u | u in w.r.sites
      ensures |g.r.sites[u].table| <= |w.r.sites[u].table| && g.r.sites[u].memory <= w.r.sites[u].memory
    {
      RelSite(w, g, i, time, u);
      RelAmong(w.r.sites[u], g.r.sites[u], Mine(w.sessions, i, u), time);
      AmongLess(g.r.sites[u].table, w.r.sites[u].table);
      SiteBooks(w, u);
      SiteBooks(g, u);
    }
  }

  /** What fits in, fits in without the session. */
  lemma FitsBoth(w: World, g: World, i: nat, time: int, s: nat, e: Entry)
    requires Rel(w, g, i, time) && s in w.r.sites && s in g.r.sites && Fits(w.r, s, e)
    ensures Fits(g.r, s, e)
  {
    hide Rel, Inv, Sum, SiteRel, EntryMemory, TotalsOk, RegistryOk, OwnersOk, EntriesOk, IndexOk, Memories;
    RelParts(w, g, i, time);
    RelSite(w, g, i, time, s);
    LimitsRel(w.r.sites[s], g.r.sites[s], Mine(w.sessions, i, s), time);
    SitesLess(w, g, i, time);
    SiteBooks(w, s);
    SiteBooks(g, s);
    TotalsLess(w.r, g.r, s, 0, 0);
  }

  /** What only the session keeps has its place taken by whoever enters it instead. */
  lemma FitsInstead(w: World, g: World, i: nat, time: int, s: nat, t: string)
    requires Rel(w, g, i, time) && s in w.r.sites && s in g.r.sites && t in w.r.sites[s].table && t !in g.r.sites[s].table
    ensures Fits(g.r, s, w.r.sites[s].table[t])
  {
    hide Rel, Inv, Sum, SiteRel, EntryMemory, Among, TotalsOk, RegistryOk, OwnersOk, EntriesOk, IndexOk, Memories;
    RelParts(w, g, i, time);
    RelSite(w, g, i, time, s);
    LimitsRel(w.r.sites[s], g.r.sites[s], Mine(w.sessions, i, s), time);
    RelAmong(w.r.sites[s], g.r.sites[s], Mine(w.sessions, i, s), time);
    AmongWithout(g.r.sites[s].table, w.r.sites[s].table, t);
    SitesLess(w, g, i, time);
    SiteBooks(w, s);
    SiteBooks(g, s);
    assert w.r.sites[s].table != map[];
    TotalsLess(w.r, g.r, s, 1, EntryMemory(w.r.sites[s].table[t]));
  }

  lemma LimitsRel(a: Site, b: Site, mine: seq<string>, time: int)
    requires SiteRel(a, b, mine, time)
    ensures a.limits == b.limits
  {
  }
}
