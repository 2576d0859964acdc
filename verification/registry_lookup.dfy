/** Looking a cache key up, in both runs. */
module RegistryLookup {
  import opened Wrappers
  import opened RegistrySpec
  import opened RegistryAuthorities
  import opened RegistryTables
  import opened RegistrySessions
  import opened RegistryRuns
  import opened RegistryTransactions
  import opened RegistryCore
  import opened RegistryCells
  import opened RegistryEffects
  import opened RegistryBeside

  ghost predicate Found(x: Site, k: string, now: int, t: string) {
    k in x.index && x.index[k] == t && t in x.table && EntryValid(x.table[t], now, x.limits.idle)
  }

  lemma ReuseFinds(r: Registry, s: nat, k: string, now: int)
    requires RegistryOk(r) && s in r.sites
    ensures var answer := Reuse(r, s, k, now).1;
      (answer.Some? ==> Found(r.sites[s], k, now, answer.value)) && (answer.None? ==> forall t :: !Found(r.sites[s], k, now, t))
  {
    hide RegistryOk, Delete, EntryValid, Claim, DropIndex;
    SiteFacts(r, s);
    EmptyTokenAbsent(r, s);
    if k in r.sites[s].index {
      IndexLeads(r.sites[s], k);
      TokenFacts(r, s, r.sites[s].index[k]);
    }
  }

  /** A key leads to the same valid capability in both, unless that is one that only the session has claimed. */
  lemma FoundBoth(a: Site, b: Site, mine: seq<string>, k: string, t: string, time: int, now: int)
    requires SiteRel(a, b, mine, time) && IndexOk(b)
    ensures Found(b, k, now, t) ==> Found(a, k, now, t)
    ensures Found(a, k, now, t) && t in b.table ==> Found(b, k, now, t)
    ensures Found(a, k, now, t) && t !in b.table ==> k !in b.index && (time <= now ==> !a.table[t].published)
  {
    hide CountOf;
    assert IndexCell(a, b, k);
    assert Cell(a, b, t, CountOf(mine, t), time);
  }

  /** What is looked up in vain is not found without the session either. */
  lemma NoneToo(w: World, g: World, i: nat, s: nat, k: string, now: int, time: int)
    requires Rel(w, g, i, time) && s in w.r.sites && s in g.r.sites && Reuse(w.r, s, k, now).1.None?
    ensures Reuse(g.r, s, k, now).1.None?
  {
    hide Rel, Inv, Reuse, SiteRel, RegistryOk, OwnersOk, Found;
    RelParts(w, g, i, time);
    RelSite(w, g, i, time, s);
    ReuseFinds(w.r, s, k, now);
    ReuseFinds(g.r, s, k, now);
    var answer := Reuse(g.r, s, k, now).1;
    if answer.Some? {
      FoundBoth(w.r.sites[s], g.r.sites[s], Mine(w.sessions, i, s), k, answer.value, time, now);
    }
  }

  /** A lookup in vain, in both. */
  lemma NoneBoth(w: World, w1: World, g: World, g1: World, i: nat, s: nat, k: string, now: int, time: int, late: int)
    requires Rel(w, g, i, time) && s in w.r.sites && s in g.r.sites && time <= late && now <= late && Inv(w1) && Inv(g1)
    requires Reuse(w.r, s, k, now).1.None?
    requires w1 == w.(r := Reuse(w.r, s, k, now).0) && g1 == g.(r := Reuse(g.r, s, k, now).0)
    ensures Rel(w1, g1, i, late)
  {
    hide Rel, Inv, Reuse, Core, SiteRel, EntryValid, RegistryOk, OwnersOk, Elsewhere, IndexOk, Thinned, LedTo, IndexCell;
    RelParts(w, g, i, time);
    RelSite(w, g, i, time, s);
    NoneToo(w, g, i, s, k, now, time);
    CoreReuse(w.r, s, k, now);
    CoreReuse(g.r, s, k, now);
    ReuseNoneEffect(w.r, s, k, now);
    ReuseNoneEffect(g.r, s, k, now);
    LedToBoth(w.r.sites[s], g.r.sites[s], Mine(w.sessions, i, s), k, time);
    ThinnedRel(w, w1, g, g1, i, s, LedTo(w.r.sites[s], k), LedTo(g.r.sites[s], k), {k}, now, time, late);
  }

  lemma LedToBoth(a: Site, b: Site, mine: seq<string>, k: string, time: int)
    requires SiteRel(a, b, mine, time)
    ensures forall t :: t in LedTo(a, k) && t in b.table ==> t in LedTo(b, k)
  {
    hide Cell, CountOf;
    assert IndexCell(a, b, k);
  }

  lemma NextReuseNone(g: World, x: Step)
    requires x.ReuseKey? && Enabled(g, x) && Answer(g, x).None?
    ensures Next(g, x) == g.(r := Reuse(g.r, g.sessions[x.i].site, x.cacheKey, x.now).0)
  {
    hide Reuse;
  }
}
