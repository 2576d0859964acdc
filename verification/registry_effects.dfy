/** What each operation does to the table and the index of one site, and to no other. */
module RegistryEffects {
  import opened Wrappers
  import opened RegistrySpec
  import opened RegistryAuthorities
  import opened RegistryTables
  import opened RegistrySessions
  import opened RegistryRuns
  import opened RegistryTransactions
  import opened RegistryCore
  import opened RegistryCells

  /** Sites other than s keep their tables and indexes. */
  ghost predicate Elsewhere(r: Registry, q: Registry, s: nat) {
    q.sites.Keys == r.sites.Keys && forall u :: u in r.sites && u != s ==> SameShow(r.sites[u], q.sites[u])
  }

  lemma ElsewhereTwice(a: Registry, b: Registry, c: Registry, s: nat)
    requires Elsewhere(a, b, s) && Elsewhere(b, c, s)
    ensures Elsewhere(a, c, s)
  {
    forall u | u in a.sites && u != s ensures SameShow(a.sites[u], c.sites[u]) {
      assert SameShow(a.sites[u], b.sites[u]) && SameShow(b.sites[u], c.sites[u]);
    }
  }

  lemma FinishShows(r: Registry, id: Option<nat>, commit: bool)
    ensures var q := FinishOption(r, id, commit);
      q.sites.Keys == r.sites.Keys && forall u :: u in r.sites ==> SameShow(r.sites[u], q.sites[u])
  {
    hide Finish;
    if id.Some? {
      FinishFrame(r, id.value, commit);
      assert forall u :: u in r.sites ==> SameTable(r.sites[u], FinishOption(r, id, commit).sites[u]);
    }
  }

  lemma ReserveShows(r: Registry, s: nat, a: string, now: int)
    requires s in r.sites && RegistryOk(r)
    ensures var q := Reserve(r, s, a, now).registry;
      q.sites.Keys == r.sites.Keys && forall u :: u in r.sites ==> SameShow(r.sites[u], q.sites[u])
  {
    hide Reserve;
    ReserveFrame(r, s, a, now);
    assert forall u :: u in r.sites ==> SameTable(r.sites[u], Reserve(r, s, a, now).registry.sites[u]);
  }

  lemma ClaimEffect(r: Registry, s: nat, t: string)
    requires s in r.sites && t in r.sites[s].table
    ensures var q := Claim(r, s, t); Elsewhere(r, q, s) && q.sites[s] == Claimed(r.sites[s], t)
  {
  }

  lemma DeleteEffect(r: Registry, s: nat, e: Entry)
    requires s in r.sites
    ensures var q := Delete(r, s, e);
      Elsewhere(r, q, s) && s in q.sites && q.sites[s].limits == r.sites[s].limits
      && q.sites[s].table == r.sites[s].table - {e.token} && q.sites[s].index == WithoutIndex(r.sites[s].index, e)
  {
    hide FinishOption, EntryMemory, WithoutIndex;
    FinishShows(r, e.reservation, false);
    var r1 := FinishOption(r, e.reservation, false);
    assert SameShow(r.sites[s], r1.sites[s]);
    forall u | u in r.sites && u != s ensures SameShow(r.sites[u], TakeOut(r1, s, e).sites[u]) {
      assert SameShow(r.sites[u], r1.sites[u]);
    }
  }

  lemma DropEffect(r: Registry, s: nat, k: string)
    requires s in r.sites
    ensures var q := DropIndex(r, s, k); Elsewhere(r, q, s) && q.sites[s] == r.sites[s].(index := r.sites[s].index - {k})
  {
  }

  /** The entry that a key leads to. */
  function LedTo(x: Site, k: string): set<string> {
    if k in x.index then {x.index[k]} else {}
  }

  lemma DroppedThin(x: Site, k: string, now: int)
    requires forall t :: t in LedTo(x, k) ==> !Dying(x, t, now)
    ensures Thinned(x, x.(index := x.index - {k}), LedTo(x, k), {k}, now)
  {
    hide LedTo, Dying;
  }

  lemma DroppedDeleted(x: Site, y: Site, k: string, now: int)
    requires IndexOk(x) && k in x.index && y.limits == x.limits
    requires var e := x.table[x.index[k]];
      && e.token == x.index[k] && e.pending == 0 && !EntryValid(e, now, x.limits.idle)
      && y.table == x.table - {e.token} && y.index == WithoutIndex(x.index - {k}, e)
    ensures Thinned(x, y, LedTo(x, k), {k}, now)
  {
    hide EntryValid;
    assert x.table[x.index[k]].cacheKey == k;
    assert y.index == x.index - {k};
    forall j | j in x.index && j != k ensures x.index[j] != x.index[k] {
      assert x.table[x.index[j]].cacheKey == j;
    }
  }

  /** A key that leads to nothing usable loses its pair, and an entry that nobody claims goes with it. */
  lemma ReuseNoneEffect(r: Registry, s: nat, k: string, now: int)
    requires RegistryOk(r) && s in r.sites && Reuse(r, s, k, now).1.None?
    ensures var q := Reuse(r, s, k, now).0;
      && Elsewhere(r, q, s) && s in q.sites && Thinned(r.sites[s], q.sites[s], LedTo(r.sites[s], k), {k}, now)
  {
    hide RegistryOk, Delete, EntryValid, DropIndex, Thinned, IndexOk, EntriesOk, WithoutIndex;
    SiteFacts(r, s);
    EmptyTokenAbsent(r, s);
    var x := r.sites[s];
    var dropped := DropIndex(r, s, k);
    DropEffect(r, s, k);
    if k in x.index {
      IndexLeads(x, k);
      var e := x.table[x.index[k]];
      TokenFacts(r, s, x.index[k]);
      DeleteEffect(dropped, s, e);
      ElsewhereTwice(r, dropped, Delete(dropped, s, e), s);
      if e.pending == 0 {
        DroppedDeleted(x, Delete(dropped, s, e).sites[s], k, now);
      } else {
        DroppedThin(x, k, now);
      }
    } else {
      DroppedThin(x, k, now);
      assert x.index - {k} == x.index && x.(index := x.index) == x;
    }
  }

  lemma IndexLeads(x: Site, k: string)
    requires IndexOk(x) && k in x.index
    ensures x.index[k] in x.table && x.table[x.index[k]].cacheKey == k
  {
  }

  lemma SiteFacts(r: Registry, s: nat)
    requires RegistryOk(r) && s in r.sites
    ensures IndexOk(r.sites[s]) && EntriesOk(r.sites[s].table)
  {
    hide AuthoritiesOk;
    SiteAt(r, s);
  }

  lemma InsertEffect(r: Registry, s: nat, e: Entry)
    requires s in r.sites
    ensures var q := Insert(r, s, e); Elsewhere(r, q, s) && SameShow(Entered1(r.sites[s], e), q.sites[s])
  {
    hide EntryMemory;
  }

  lemma HasEffect(r: Registry, s: nat, t: string, now: int)
    requires RegistryOk(r) && s in r.sites
    ensures var q := Has(r, s, t, now).0;
      Elsewhere(r, q, s) && s in q.sites && Thinned(r.sites[s], q.sites[s], {t}, {}, now)
  {
    hide RegistryOk, Delete, EntryValid;
    SiteFacts(r, s);
    if t in r.sites[s].table {
      TokenFacts(r, s, t);
      DeleteEffect(r, s, r.sites[s].table[t]);
    }
  }

  lemma UseEffect(r: Registry, s: nat, t: string, now: int)
    requires RegistryOk(r) && s in r.sites
    ensures var q := Use(r, s, t, now).0;
      && Elsewhere(r, q, s) && s in q.sites
      && (Use(r, s, t, now).1 ==>
            t in r.sites[s].table && EntryValid(r.sites[s].table[t], now, r.sites[s].limits.idle)
            && q.sites[s] == UsedAt(r.sites[s], t, now))
      && (!Use(r, s, t, now).1 ==> Thinned(r.sites[s], q.sites[s], {t}, {}, now))
  {
    hide RegistryOk, Has, EntryValid;
    HasEffect(r, s, t, now);
    HasOk(r, s, t, now);
  }

  lemma {:induction false} DeleteAllElsewhere(r: Registry, s: nat, order: seq<string>)
    requires s in r.sites
    ensures Elsewhere(r, DeleteAll(r, s, order), s) && s in DeleteAll(r, s, order).sites
    ensures DeleteAll(r, s, order).sites[s].limits == r.sites[s].limits
    decreases |order|
  {
    hide Delete;
    if order != [] {
      if order[0] !in r.sites[s].table {
        DeleteAllElsewhere(r, s, order[1..]);
      } else {
        var e := r.sites[s].table[order[0]];
        DeleteEffect(r, s, e);
        DeleteAllElsewhere(Delete(r, s, e), s, order[1..]);
        ElsewhereTwice(r, Delete(r, s, e), DeleteAll(Delete(r, s, e), s, order[1..]), s);
      }
    }
  }

  lemma PruneEffect(r: Registry, s: nat, order: seq<string>, now: int)
    requires RegistryOk(r) && s in r.sites && Enumerates(order, Dead(r.sites[s], now))
    ensures var q := DeleteAll(r, s, order);
      Elsewhere(r, q, s) && s in q.sites && Thinned(r.sites[s], q.sites[s], r.sites[s].table.Keys, {}, now)
  {
    hide RegistryOk, DeleteAll, EntryValid;
    assert forall t :: t in order <==> t in Dead(r.sites[s], now);
    DeleteAllElsewhere(r, s, order);
    DeleteAllOk(r, s, order);
    CoreDeleteAll(r, s, order);
    ReleasedIndex(r, DeleteAll(r, s, order), s);
  }

  // ---------- settling ----------

  lemma SettleOneElsewhere(r: Registry, s: nat, t: string, count: nat, publishing: bool)
    requires s in r.sites
    ensures Elsewhere(r, SettleOne(r, s, t, count, publishing), s) && s in SettleOne(r, s, t, count, publishing).sites
  {
    hide Delete, FinishOption;
    if t in r.sites[s].table && r.sites[s].table[t].pending >= count {
      var e := r.sites[s].table[t];
      var after := e.(pending := e.pending - count);
      DeleteEffect(r, s, after);
      FinishShows(r, e.reservation, true);
      var r1 := FinishOption(r, e.reservation, true);
      forall u | u in r.sites && u != s
        ensures SameShow(r.sites[u], SetEntry(r1, s, t, after.(published := true, reservation := None)).sites[u])
      {
        assert SameShow(r.sites[u], r1.sites[u]);
      }
    }
  }

  lemma {:induction false} SettleEachElsewhere(r: Registry, s: nat, order: seq<string>, tokens: seq<string>, publishing: bool)
    requires s in r.sites
    ensures Elsewhere(r, SettleEach(r, s, order, tokens, publishing), s)
    ensures s in SettleEach(r, s, order, tokens, publishing).sites
    decreases |order|
  {
    hide SettleOne, CountOf;
    if order != [] {
      var r1 := SettleOne(r, s, order[0], CountOf(tokens, order[0]), publishing);
      SettleOneElsewhere(r, s, order[0], CountOf(tokens, order[0]), publishing);
      SettleEachElsewhere(r1, s, order[1..], tokens, publishing);
      ElsewhereTwice(r, r1, SettleEach(r1, s, order[1..], tokens, publishing), s);
    }
  }

  lemma SettleEffect(r: Registry, callers: set<nat>, s: nat, order: seq<string>, tokens: seq<string>, publishing: bool)
    requires RegistryOk(r) && OwnersOk(r, callers) && s in r.sites
    requires Enumerates(order, set t | t in tokens)
    requires forall t :: t in order ==> Covered(r.sites[s].table, tokens, t)
    ensures var q := SettleEach(r, s, order, tokens, publishing);
      Elsewhere(r, q, s) && s in q.sites && AllSettled(r.sites[s], q.sites[s], order, tokens, publishing)
  {
    hide RegistryOk, OwnersOk, SettleEach, CountOf;
    SettleEachElsewhere(r, s, order, tokens, publishing);
    CoveredFacts(r.sites[s].table, tokens, order);
    SettleEachOk(r, callers, s, order, tokens, publishing);
    SettleEachIndex(r, callers, s, order, tokens, publishing);
  }
}
