/**
 What each operation does to the part of the registry outside the capability tables,
 and to the index: authorities depend on the tables only through the reservations
 that entries own.
 */
module RegistryCore {
  import opened Wrappers
  import opened MapSums
  import opened RegistrySpec
  import opened RegistryAuthorities
  import opened RegistryTables
  import opened RegistrySessions
  import opened RegistryRuns
  import opened RegistryTransactions

  function Blank(site: Site): Site {
    site.(table := map[], index := map[], memory := 0)
  }

  /** The registry without its capability tables. */
  function Core(r: Registry): Registry {
    r.(sites := map u | u in r.sites :: Blank(r.sites[u]), active := 0, memory := 0)
  }

  lemma CoreSite(r: Registry, s: nat, site: Site)
    requires s in r.sites
    ensures Core(WithSite(r, s, site)) == WithSite(Core(r), s, Blank(site))
  {
  }

  lemma CoreFinish(r: Registry, id: nat, commit: bool)
    ensures Core(Finish(r, id, commit)) == Finish(Core(r), id, commit)
  {
    hide ReleaseHolder;
    if id in r.pending {
      var p := r.pending[id];
      if p.site in r.sites && p.authority in r.sites[p.site].authorities
         && r.sites[p.site].authorities[p.authority].id == p.entry {
        var site := r.sites[p.site];
        var a := site.authorities[p.authority];
        var after := a.(inFlight := Minus(a.inFlight, 1), committed := a.committed || commit);
        CoreSite(r, p.site, site.(authorities := site.authorities[p.authority := after]));
        CoreSite(r, p.site, site.(authorities := site.authorities - {p.authority}));
      }
    }
  }

  lemma CoreFinishOption(r: Registry, id: Option<nat>, commit: bool)
    ensures Core(FinishOption(r, id, commit)) == FinishOption(Core(r), id, commit)
  {
    hide Finish;
    if id.Some? {
      CoreFinish(r, id.value, commit);
    }
  }

  lemma CoreReserveKnown(r: Registry, s: nat, a: string, now: int)
    requires s in r.sites && a in r.sites[s].authorities
    ensures var x, y := Reserve(r, s, a, now), Reserve(Core(r), s, a, now);
      x.Granted? == y.Granted? && Core(x.registry) == y.registry && (x.Granted? ==> x.id == y.id)
  {
    var site := r.sites[s];
    var x := site.authorities[a];
    CoreSite(r, s, site.(authorities := site.authorities[a := x.(inFlight := x.inFlight + 1)]));
  }

  lemma CoreEntered(r: Registry, s: nat, a: string, now: int, siteRecent: seq<int>, recent: seq<int>, held: nat)
    requires s in r.sites
    ensures Core(Entered(r.(recent := recent), s, a, now, siteRecent, held))
         == Entered(Core(r).(recent := recent), s, a, now, siteRecent, held)
  {
    var site := r.sites[s];
    CoreSite(r.(recent := recent), s,
             site.(authorities := site.authorities[a := Authority(r.nextId, 1, false)], recent := siteRecent + [now]));
  }

  lemma CoreReserve(r: Registry, s: nat, a: string, now: int)
    requires s in r.sites
    ensures var x, y := Reserve(r, s, a, now), Reserve(Core(r), s, a, now);
      x.Granted? == y.Granted? && Core(x.registry) == y.registry && (x.Granted? ==> x.id == y.id)
  {
    hide HeldBy, RateWindow, Entered;
    var site := r.sites[s];
    assert Core(r).sites[s] == Blank(site);
    if a in site.authorities {
      CoreReserveKnown(r, s, a, now);
    } else {
      var siteRecent, recent := RateWindow(site.recent, now), RateWindow(r.recent, now);
      CoreSite(r, s, site.(recent := siteRecent));
      CoreEntered(r, s, a, now, siteRecent, recent, HeldBy(r.holders, a));
    }
  }

  lemma CoreOpen(r: Registry, limits: Limits)
    ensures Core(OpenSite(r, limits).0) == OpenSite(Core(r), limits).0
  {
  }

  lemma CoreClose(r: Registry, q: Registry, s: nat)
    requires Core(r) == Core(q)
    ensures Core(CloseSite(r, s)) == Core(CloseSite(q, s))
  {
    hide ReleaseHolders;
    CoreKeys(r, q);
    if s in r.sites {
      CoreAt(r, q, s);
      assert Core(r).holders == r.holders && Core(q).holders == q.holders;
      assert Core(CloseSite(r, s)).sites == Core(r).sites - {s};
      assert Core(CloseSite(q, s)).sites == Core(q).sites - {s};
    }
  }

  lemma CoreKeys(r: Registry, q: Registry)
    requires Core(r) == Core(q)
    ensures r.sites.Keys == q.sites.Keys && r.pending == q.pending && r.nextId == q.nextId
  {
    assert Core(r).sites.Keys == r.sites.Keys && Core(q).sites.Keys == q.sites.Keys;
    assert Core(r).pending == r.pending && Core(q).pending == q.pending;
    assert Core(r).nextId == r.nextId && Core(q).nextId == q.nextId;
  }

  lemma CoreAt(r: Registry, q: Registry, s: nat)
    requires Core(r) == Core(q) && s in r.sites && s in q.sites
    ensures r.sites[s].limits == q.sites[s].limits && r.sites[s].authorities == q.sites[s].authorities
  {
    assert Core(r).sites[s] == Blank(r.sites[s]) && Core(q).sites[s] == Blank(q.sites[s]);
  }

  lemma CoreSame(r: Registry, q: Registry)
    requires q.sites.Keys == r.sites.Keys && forall u :: u in r.sites ==> Blank(q.sites[u]) == Blank(r.sites[u])
    requires q.holders == r.holders && q.recent == r.recent && q.pending == r.pending && q.nextId == r.nextId
    ensures Core(q) == Core(r)
  {
    hide Blank;
    assert Core(q).sites == Core(r).sites;
  }

  lemma CoreSetEntry(r: Registry, s: nat, t: string, e: Entry)
    requires s in r.sites
    ensures Core(SetEntry(r, s, t, e)) == Core(r)
  {
    hide Core;
    CoreSame(r, SetEntry(r, s, t, e));
  }

  lemma CoreInsert(r: Registry, s: nat, e: Entry)
    requires s in r.sites
    ensures Core(Insert(r, s, e)) == Core(r)
  {
    hide EntryMemory, Core;
    CoreSame(r, Insert(r, s, e));
  }

  lemma CoreDropIndex(r: Registry, s: nat, k: string)
    requires s in r.sites
    ensures Core(DropIndex(r, s, k)) == Core(r)
  {
    hide Core;
    CoreSame(r, DropIndex(r, s, k));
  }

  lemma CoreTakeOut(r: Registry, s: nat, e: Entry)
    requires s in r.sites
    ensures Core(TakeOut(r, s, e)) == Core(r)
  {
    hide EntryMemory, WithoutIndex, Core;
    CoreSame(r, TakeOut(r, s, e));
  }

  lemma CoreClaim(r: Registry, s: nat, t: string)
    requires s in r.sites && t in r.sites[s].table
    ensures Core(Claim(r, s, t)) == Core(r)
  {
    hide SetEntry;
    CoreSetEntry(r, s, t, r.sites[s].table[t].(pending := r.sites[s].table[t].pending + 1));
  }

  lemma CoreDelete(r: Registry, s: nat, e: Entry)
    requires s in r.sites
    ensures Core(Delete(r, s, e)) == FinishOption(Core(r), e.reservation, false)
  {
    hide TakeOut, FinishOption;
    CoreFinishOption(r, e.reservation, false);
    var r1 := FinishOption(r, e.reservation, false);
    if s in r1.sites {
      CoreTakeOut(r1, s, e);
    }
  }

  lemma CoreReuse(r: Registry, s: nat, k: string, now: int)
    requires RegistryOk(r) && s in r.sites
    ensures Core(Reuse(r, s, k, now).0) == Core(r)
  {
    hide RegistryOk, Delete, DropIndex, Claim, EntryValid;
    var token := IndexedToken(r.sites[s], k);
    CoreDropIndex(r, s, k);
    DropIndexOk(r, s, k);
    var dropped := DropIndex(r, s, k);
    if token in r.sites[s].table {
      TokenFacts(r, s, token);
      CoreClaim(r, s, token);
      CoreDelete(dropped, s, r.sites[s].table[token]);
    }
  }

  lemma CoreHas(r: Registry, s: nat, t: string, now: int)
    requires RegistryOk(r) && s in r.sites
    ensures Core(Has(r, s, t, now).0) == Core(r)
  {
    hide RegistryOk, Delete, EntryValid;
    if t in r.sites[s].table {
      TokenFacts(r, s, t);
      CoreDelete(r, s, r.sites[s].table[t]);
    }
  }

  lemma CoreUse(r: Registry, s: nat, t: string, now: int)
    requires RegistryOk(r) && s in r.sites
    ensures Core(Use(r, s, t, now).0) == Core(r)
  {
    hide RegistryOk, Has, SetEntry, EntryValid;
    CoreHas(r, s, t, now);
    if Has(r, s, t, now).1 {
      HasOk(r, s, t, now);
      CoreSetEntry(r, s, t, r.sites[s].table[t].(lastUsed := now));
    }
  }

  lemma {:induction false} CoreDeleteAll(r: Registry, s: nat, order: seq<string>)
    requires RegistryOk(r) && s in r.sites
    requires forall t :: t in order && t in r.sites[s].table ==> r.sites[s].table[t].pending == 0
    ensures Core(DeleteAll(r, s, order)) == Core(r) && Released(r, DeleteAll(r, s, order), s)
    decreases |order|
  {
    hide RegistryOk, Delete, Released, Core;
    if order == [] {
      ReleasedSelf(r, s);
    } else if order[0] !in r.sites[s].table {
      CoreDeleteAll(r, s, order[1..]);
    } else {
      var e := r.sites[s].table[order[0]];
      TokenFacts(r, s, order[0]);
      DeleteOk(r, s, e);
      DeleteReleases(r, s, e);
      CoreDelete(r, s, e);
      var r1 := Delete(r, s, e);
      assert forall t :: t in order[1..] && t in r1.sites[s].table ==> t in order && r1.sites[s].table[t].pending == 0;
      CoreDeleteAll(r1, s, order[1..]);
      ReleasedTwice(r, r1, DeleteAll(r1, s, order[1..]), s);
    }
  }

  // ---------- settling ----------

  /** What settling one token does to the rest of the registry. */
  function CoreSettled(core: Registry, e: Entry, count: nat, publishing: bool): Registry {
    if publishing then FinishOption(core, e.reservation, true)
    else if e.pending == count && !e.published then FinishOption(core, e.reservation, false)
    else core
  }

  lemma CoreSettleOne(r: Registry, s: nat, t: string, count: nat, publishing: bool)
    requires RegistryOk(r) && s in r.sites && t in r.sites[s].table && count <= r.sites[s].table[t].pending
    ensures Core(SettleOne(r, s, t, count, publishing)) == CoreSettled(Core(r), r.sites[s].table[t], count, publishing)
  {
    hide RegistryOk, Delete, SetEntry, FinishOption;
    var e := r.sites[s].table[t];
    var after := e.(pending := e.pending - count);
    if publishing {
      FinishOptionOk(r, e.reservation, true);
      CoreFinishOption(r, e.reservation, true);
      CoreSetEntry(FinishOption(r, e.reservation, true), s, t, after.(published := true, reservation := None));
    } else {
      CoreDelete(r, s, after);
      CoreSetEntry(r, s, t, after);
    }
  }

  /** Settling entry after entry; each is what it was when the settlement began. */
  function CoreSettledAll(core: Registry, table: map<string, Entry>, order: seq<string>, tokens: seq<string>,
                          publishing: bool): Registry
    decreases |order|
  {
    if order == [] then core
    else if order[0] !in table then CoreSettledAll(core, table, order[1..], tokens, publishing)
    else CoreSettledAll(CoreSettled(core, table[order[0]], CountOf(tokens, order[0]), publishing), table, order[1..], tokens,
                        publishing)
  }

  lemma {:induction false} CoreSettledSame(core: Registry, a: map<string, Entry>, b: map<string, Entry>, order: seq<string>,
                                           tokens: seq<string>, publishing: bool)
    requires forall t :: t in order ==>
      t in a && t in b && SettledAlike(a[t], b[t], CountOf(tokens, t), publishing)
    ensures CoreSettledAll(core, a, order, tokens, publishing) == CoreSettledAll(core, b, order, tokens, publishing)
    decreases |order|
  {
    hide CountOf, FinishOption, SettledAlike;
    if order != [] {
      var t := order[0];
      assert t in a && t in b && SettledAlike(a[t], b[t], CountOf(tokens, t), publishing);
      AlikeSettled(core, a[t], b[t], CountOf(tokens, t), publishing);
      CoreSettledSame(CoreSettled(core, a[t], CountOf(tokens, t), publishing), a, b, order[1..], tokens, publishing);
    }
  }

  /** Settling one or the other ends the same reservation. */
  ghost predicate SettledAlike(x: Entry, y: Entry, count: nat, publishing: bool) {
    if publishing then x.reservation == y.reservation
    else
      var xs := if x.pending == count && !x.published then x.reservation else None;
      var ys := if y.pending == count && !y.published then y.reservation else None;
      xs == ys
  }

  lemma AlikeSettled(core: Registry, x: Entry, y: Entry, count: nat, publishing: bool)
    requires SettledAlike(x, y, count, publishing)
    ensures CoreSettled(core, x, count, publishing) == CoreSettled(core, y, count, publishing)
  {
    hide Finish;
  }

  lemma {:induction false} CoreSettleEach(r: Registry, callers: set<nat>, s: nat, order: seq<string>, tokens: seq<string>,
                                          publishing: bool)
    requires RegistryOk(r) && OwnersOk(r, callers) && s in r.sites
    requires forall i, j :: 0 <= i < j < |order| ==> order[i] != order[j]
    requires forall t :: t in order ==> Covered(r.sites[s].table, tokens, t)
    ensures Core(SettleEach(r, s, order, tokens, publishing))
         == CoreSettledAll(Core(r), r.sites[s].table, order, tokens, publishing)
    decreases |order|
  {
    hide RegistryOk, OwnersOk, SettleOne, CountOf, CoreSettled, Core;
    if order != [] {
      var t, rest := order[0], order[1..];
      assert Covered(r.sites[s].table, tokens, t);
      var count := CountOf(tokens, t);
      SettleOneOk(r, callers, s, t, count, publishing);
      CoreSettleOne(r, s, t, count, publishing);
      var r1 := SettleOne(r, s, t, count, publishing);
      CoveredLater(r, r1, s, order, tokens, publishing);
      CoreSettleEach(r1, callers, s, rest, tokens, publishing);
      CoreSettledTables(Core(r1), r.sites[s].table, r1.sites[s].table, rest, tokens, publishing);
    }
  }

  lemma {:induction false} CoreSettledTables(core: Registry, a: map<string, Entry>, b: map<string, Entry>,
                                             order: seq<string>, tokens: seq<string>, publishing: bool)
    requires forall t :: t in order ==> t in a && t in b && a[t] == b[t]
    ensures CoreSettledAll(core, a, order, tokens, publishing) == CoreSettledAll(core, b, order, tokens, publishing)
    decreases |order|
  {
    hide CountOf, CoreSettled;
    if order != [] {
      var t := order[0];
      assert t in a && t in b && a[t] == b[t];
      CoreSettledTables(CoreSettled(core, a[t], CountOf(tokens, t), publishing), a, b, order[1..], tokens, publishing);
    }
  }

  lemma PublishReleases(r: Registry, s: nat, t: string, count: nat)
    requires RegistryOk(r) && s in r.sites && t in r.sites[s].table
    ensures IndexLess(r, SettleOne(r, s, t, count, true), s)
  {
    hide RegistryOk, Finish;
    FinishOptionOk(r, r.sites[s].table[t].reservation, true);
  }

  lemma IndexLessTwice(a: Registry, b: Registry, c: Registry, s: nat)
    requires IndexLess(a, b, s) && IndexLess(b, c, s)
    ensures IndexLess(a, c, s)
  {
  }

  lemma ReleasedIndex(r: Registry, q: Registry, s: nat)
    requires Released(r, q, s)
    ensures IndexLess(r, q, s)
  {
  }

  /** Pairs of the index are lost only with the entries that they name. */
  lemma {:induction false} SettleEachIndex(r: Registry, callers: set<nat>, s: nat, order: seq<string>, tokens: seq<string>,
                                           publishing: bool)
    requires RegistryOk(r) && OwnersOk(r, callers) && s in r.sites
    requires forall i, j :: 0 <= i < j < |order| ==> order[i] != order[j]
    requires forall t :: t in order ==> Covered(r.sites[s].table, tokens, t)
    ensures IndexLess(r, SettleEach(r, s, order, tokens, publishing), s)
    decreases |order|
  {
    hide RegistryOk, OwnersOk, IndexLess, SettleOne, CountOf, Released;
    if order == [] {
      ReleasedSelf(r, s);
      ReleasedIndex(r, r, s);
    } else {
      var t, rest := order[0], order[1..];
      assert Covered(r.sites[s].table, tokens, t);
      SettleOneOk(r, callers, s, t, CountOf(tokens, t), publishing);
      var r1 := SettleOne(r, s, t, CountOf(tokens, t), publishing);
      if publishing {
        PublishReleases(r, s, t, CountOf(tokens, t));
      } else {
        SettleOneReleases(r, s, t, CountOf(tokens, t));
        ReleasedIndex(r, r1, s);
      }
      CoveredLater(r, r1, s, order, tokens, publishing);
      SettleEachIndex(r1, callers, s, rest, tokens, publishing);
      IndexLessTwice(r, r1, SettleEach(r1, s, rest, tokens, publishing), s);
    }
  }

  lemma CoveredLater(r: Registry, r1: Registry, s: nat, order: seq<string>, tokens: seq<string>, publishing: bool)
    requires order != [] && s in r.sites && s in r1.sites
    requires forall i, j :: 0 <= i < j < |order| ==> order[i] != order[j]
    requires forall t :: t in order ==> Covered(r.sites[s].table, tokens, t)
    requires forall u :: u != order[0] ==> TokenSettled(r.sites[s].table, r1.sites[s].table, u, 0, false, publishing)
    ensures forall u :: u in order[1..] ==> u != order[0] && u in order && u in r.sites[s].table
                                            && Covered(r1.sites[s].table, tokens, u) && r1.sites[s].table[u] == r.sites[s].table[u]
  {
    hide CountOf;
    forall u | u in order[1..]
      ensures u != order[0] && u in order && u in r.sites[s].table && Covered(r1.sites[s].table, tokens, u) && r1.sites[s].table[u] == r.sites[s].table[u]
    {
      assert Covered(r.sites[s].table, tokens, u);
      assert TokenSettled(r.sites[s].table, r1.sites[s].table, u, 0, false, publishing);
    }
  }
}
