/** The registry with its mutable state; every public method is one critical section. */
module DynamicRegistry {
  import opened Wrappers
  import opened RegistrySpec
  import opened RegistryAuthorities
  import opened RegistryTables

  class DynamicRuntime {
    var sites: map<nat, Site>
    var holders: map<string, nat>
    var active: nat
    var memory: nat
    var recent: seq<int>
    var pending: map<nat, Reservation>
    var nextId: nat

    constructor ()
      ensures View() == Registry(map[], map[], 0, 0, [], map[], 0)
    {
      sites, holders, active, memory, recent, pending, nextId := map[], map[], 0, 0, [], map[], 0;
    }

    ghost function View(): Registry
      reads this
    {
      Registry(sites, holders, active, memory, recent, pending, nextId)
    }

    method OpenSiteState(limits: Limits) returns (s: nat)
      modifies this
      ensures (View(), s) == OpenSite(old(View()), limits)
    {
      s := nextId;
      nextId := nextId + 1;
      sites := sites[s := Site(limits, map[], map[], map[], 0, [])];
    }

    method PruneWindow(times: seq<int>, now: int) returns (window: seq<int>)
      ensures window == RateWindow(times, now)
    {
      var first := 0;
      while first < |times| && times[first] <= now - MINUTE
        invariant 0 <= first <= |times|
        invariant RateWindow(times, now) == RateWindow(times[first..], now)
      {
        assert times[first..][1..] == times[first + 1..];
        first := first + 1;
      }
      window := times[first..];
    }

    method ReserveAuthority(s: nat, authority: string, now: int) returns (id: Option<nat>, reason: Option<Reason>)
      requires s in sites
      modifies this
      ensures var r := Reserve(old(View()), s, authority, now);
        View() == r.registry && (if r.Granted? then id == Some(r.id) && reason == None else id == None && reason == Some(r.reason))
    {
      hide RateWindow;
      if authority == "" {
        return None, Some(Unavailable);
      }
      var site := sites[s];
      if authority in site.authorities {
        var entry := site.authorities[authority];
        entry := entry.(inFlight := entry.inFlight + 1);
        sites := sites[s := site.(authorities := site.authorities[authority := entry])];
        pending := pending[nextId := Reservation(s, authority, entry.id)];
        nextId := nextId + 1;
        return Some(nextId - 1), None;
      }
      id, reason := AdmitAuthority(s, authority, now);
    }

    /** A new authority has to fit the counts and the rates of its site and of the process. */
    method AdmitAuthority(s: nat, authority: string, now: int) returns (id: Option<nat>, reason: Option<Reason>)
      requires s in sites && authority != "" && authority !in sites[s].authorities
      modifies this
      ensures var r := Reserve(old(View()), s, authority, now);
        View() == r.registry && (if r.Granted? then id == Some(r.id) && reason == None else id == None && reason == Some(r.reason))
    {
      hide RateWindow, HeldBy, Entered;
      var site := sites[s];
      var siteRecent := PruneWindow(site.recent, now);
      recent := PruneWindow(recent, now);
      var held := HeldBy(holders, authority);
      if |site.authorities| >= site.limits.maxAuthorities || (held == 0 && |holders| >= MAX_AUTHORITIES) {
        sites := sites[s := site.(recent := siteRecent)];
        return None, Some(Capacity);
      }
      if |siteRecent| >= site.limits.maxNewAuthorities || (held == 0 && |recent| >= MAX_NEW_AUTHORITIES) {
        sites := sites[s := site.(recent := siteRecent)];
        return None, Some(Rate);
      }
      id := EnterAuthority(s, authority, now, siteRecent, held);
      reason := None;
    }

    method EnterAuthority(s: nat, authority: string, now: int, siteRecent: seq<int>, held: nat) returns (id: Option<nat>)
      requires s in sites
      modifies this
      ensures id == Some(old(nextId) + 1)
      ensures View() == Entered(old(View()), s, authority, now, siteRecent, held)
    {
      var site := sites[s];
      var entry := Authority(nextId, 1, false);
      sites := sites[s := site.(authorities := site.authorities[authority := entry], recent := siteRecent + [now])];
      if held == 0 {
        recent := recent + [now];
      }
      holders := holders[authority := held + 1];
      pending := pending[nextId + 1 := Reservation(s, authority, nextId)];
      nextId := nextId + 2;
      return Some(nextId - 1);
    }

    method FinishReservation(id: nat, commit: bool)
      modifies this
      ensures View() == Finish(old(View()), id, commit)
    {
      if id !in pending {
        return;
      }
      var p := pending[id];
      pending := pending - {id};
      if p.site !in sites || p.authority !in sites[p.site].authorities
         || sites[p.site].authorities[p.authority].id != p.entry {
        return;
      }
      var site := sites[p.site];
      var entry := site.authorities[p.authority];
      if commit {
        entry := entry.(committed := true);
      }
      if entry.inFlight > 0 {
        entry := entry.(inFlight := entry.inFlight - 1);
      }
      if entry.committed || entry.inFlight > 0 {
        sites := sites[p.site := site.(authorities := site.authorities[p.authority := entry])];
        return;
      }
      sites := sites[p.site := site.(authorities := site.authorities - {p.authority})];
      if HeldBy(holders, p.authority) <= 1 {
        holders := holders - {p.authority};
      } else {
        holders := holders[p.authority := holders[p.authority] - 1];
      }
    }

    method DeleteCapability(s: nat, e: Entry)
      requires s in sites
      modifies this
      ensures View() == Delete(old(View()), s, e)
    {
      hide Finish;
      if e.reservation.Some? {
        FinishReservation(e.reservation.value, false);
      }
      if s !in sites {
        return;
      }
      var site := sites[s];
      var index := site.index;
      if e.cacheKey != "" && e.cacheKey in index && index[e.cacheKey] == e.token {
        index := index - {e.cacheKey};
      }
      var size := EntryMemory(e);
      var left := Minus(site.memory, size);
      sites := sites[s := site.(table := site.table - {e.token}, index := index, memory := left)];
      memory := if size <= memory then memory - size else 0;
      if active > 0 {
        active := active - 1;
      }
    }

    method ReuseCapability(s: nat, cacheKey: string, now: int) returns (token: Option<string>)
      requires s in sites
      modifies this
      ensures (View(), token) == Reuse(old(View()), s, cacheKey, now)
    {
      hide Delete, EntryValid;
      if cacheKey == "" {
        return None;
      }
      var site := sites[s];
      var found := if cacheKey in site.index then site.index[cacheKey] else "";
      if found !in site.table || site.table[found].cacheKey != cacheKey || !EntryValid(site.table[found], now, site.limits.idle) {
        sites := sites[s := site.(index := site.index - {cacheKey})];
        if found in site.table && site.table[found].pending == 0 {
          DeleteCapability(s, site.table[found]);
        }
        return None;
      }
      var entry := site.table[found];
      sites := sites[s := site.(table := site.table[found := entry.(pending := entry.pending + 1)])];
      return Some(found);
    }

    method RegisterCapability(s: nat, token: string, cacheKey: string, expiresAt: int, now: int, reservation: Option<nat>)
      returns (registered: Option<string>)
      requires s in sites
      modifies this
      ensures (View(), registered) == Register(old(View()), s, token, cacheKey, expiresAt, now, reservation)
    {
      hide EntryMemory;
      if token == "" || cacheKey == "" || expiresAt <= now {
        return None;
      }
      var site := sites[s];
      var existing := if cacheKey in site.index then site.index[cacheKey] else "";
      if existing in site.table && site.table[existing].cacheKey == cacheKey {
        var entry := site.table[existing];
        sites := sites[s := site.(table := site.table[existing := entry.(pending := entry.pending + 1)])];
        return Some(existing);
      }
      site := site.(index := site.index - {cacheKey});
      sites := sites[s := site];
      var entry := Entry(expiresAt, now, token, cacheKey, 1, false, reservation);
      var size := EntryMemory(entry);
      if |site.table| >= site.limits.maxCapabilities || active >= MAX_CAPABILITIES
         || site.memory + size > MAX_SITE_MEMORY || memory + size > MAX_MEMORY || token in site.table {
        return None;
      }
      sites := sites[s := site.(table := site.table[token := entry], index := site.index[cacheKey := token],
                                memory := site.memory + size)];
      active := active + 1;
      memory := memory + size;
      return Some(token);
    }

    method SettleToken(s: nat, token: string, count: nat, publishing: bool)
      modifies this
      ensures View() == SettleOne(old(View()), s, token, count, publishing)
    {
      hide Finish, Delete;
      if s !in sites || token !in sites[s].table || sites[s].table[token].pending < count {
        return;
      }
      var entry := sites[s].table[token];
      entry := entry.(pending := entry.pending - count);
      if publishing {
        if entry.reservation.Some? {
          FinishReservation(entry.reservation.value, true);
        }
        if s in sites {
          sites := sites[s := sites[s].(table := sites[s].table[token := entry.(published := true, reservation := None)])];
        }
        return;
      }
      if entry.pending == 0 && !entry.published {
        DeleteCapability(s, entry);
      } else {
        sites := sites[s := sites[s].(table := sites[s].table[token := entry])];
      }
    }

    /** Counts the claims to settle per token and checks that all of them can be. */
    method CountClaims(s: nat, tokens: seq<string>, publish: bool, now: int) returns (counts: map<string, nat>, valid: bool)
      requires s in sites
      ensures counts.Keys == (set t | t in tokens) && forall t :: t in counts ==> counts[t] == CountOf(tokens, t)
      ensures valid == Settleable(sites[s], tokens, publish, now)
    {
      hide EntryValid, CountOf;
      var site := sites[s];
      valid := true;
      counts := map[];
      var i := 0;
      NothingToSettle(site, publish, now);
      while i < |tokens|
        invariant 0 <= i <= |tokens|
        invariant counts.Keys == set t | t in tokens[..i]
        invariant forall t :: t in counts ==> counts[t] == CountOf(tokens[..i], t)
        invariant valid == Settleable(site, tokens[..i], publish, now)
      {
        var token := tokens[i];
        SettleableSnoc(site, tokens[..i], token, publish, now);
        assert tokens[..i + 1] == tokens[..i] + [token];
        CountKeys(tokens[..i], token);
        counts := counts[token := (if token in counts then counts[token] else 0) + 1];
        if token !in site.table || site.table[token].pending < counts[token]
           || (publish && !EntryValid(site.table[token], now, site.limits.idle)) {
          valid := false;
        }
        i := i + 1;
      }
      assert tokens[..i] == tokens;
    }

    /** order is the order in which the program happens to visit the tokens. */
    method SettleCapabilities(s: nat, tokens: seq<string>, publish: bool, now: int) returns (ok: bool, ghost order: seq<string>)
      modifies this
      ensures Enumerates(order, set t | t in tokens)
      ensures (View(), ok) == Settle(old(View()), s, tokens, order, publish, now)
    {
      hide SettleOne, EntryValid, Settleable;
      order := [];
      if tokens == [] {
        return true, [];
      }
      if s !in sites {
        order := AnyOrder(set t | t in tokens);
        return false, order;
      }
      var counts, valid := CountClaims(s, tokens, publish, now);
      var rest := counts.Keys;
      while rest != {}
        invariant rest <= counts.Keys && Enumerates(order, counts.Keys - rest)
        invariant View() == SettleEach(old(View()), s, order, tokens, publish && valid)
        decreases |rest|
      {
        var token :| token in rest;
        SettleSnoc(old(View()), s, order, token, tokens, publish && valid);
        EnumeratesSnoc(order, counts.Keys - rest, token);
        SettleToken(s, token, counts[token], publish && valid);
        assert counts.Keys - (rest - {token}) == (counts.Keys - rest) + {token};
        rest := rest - {token};
        order := order + [token];
      }
      assert counts.Keys - {} == counts.Keys;
      ok := valid;
    }

    method HasCapability(s: nat, token: string, now: int) returns (valid: bool)
      requires s in sites
      modifies this
      ensures (View(), valid) == Has(old(View()), s, token, now)
    {
      hide Delete, EntryValid;
      if token == "" || token !in sites[s].table {
        return false;
      }
      var entry := sites[s].table[token];
      valid := entry.published && EntryValid(entry, now, sites[s].limits.idle);
      if !valid && entry.pending == 0 {
        DeleteCapability(s, entry);
      }
    }

    method UseCapability(s: nat, token: string, now: int) returns (valid: bool)
      requires s in sites
      modifies this
      ensures (View(), valid) == Use(old(View()), s, token, now)
    {
      hide Delete, EntryValid;
      if token == "" || token !in sites[s].table {
        return false;
      }
      var site := sites[s];
      var entry := site.table[token];
      if !entry.published || !EntryValid(entry, now, site.limits.idle) {
        if entry.pending == 0 {
          DeleteCapability(s, entry);
        }
        return false;
      }
      sites := sites[s := site.(table := site.table[token := entry.(lastUsed := now)])];
      return true;
    }

    /** Deletes what nobody claims and nobody can use any more; order is the order of the visits. */
    method PruneSite(s: nat, now: int) returns (ghost order: seq<string>)
      requires s in sites && RegistryOk(View())
      modifies this
      ensures Enumerates(order, Dead(old(sites)[s], now))
      ensures View() == DeleteAll(old(View()), s, order)
    {
      hide RegistryOk, Delete, EntryValid, DeleteAll;
      var all := sites[s].table.Keys;
      var idle := sites[s].limits.idle;
      var rest := all;
      order := [];
      DeleteNone(View(), s);
      while rest != {}
        invariant rest <= all && s in sites && RegistryOk(View())
        invariant Enumerates(order, Dead(old(sites)[s], now) - rest)
        invariant View() == DeleteAll(old(View()), s, order)
        invariant sites[s].limits == old(sites)[s].limits
        invariant forall t :: t in rest ==> t in sites[s].table && sites[s].table[t] == old(sites)[s].table[t]
        decreases |rest|
      {
        var token :| token in rest;
        var entry := sites[s].table[token];
        if entry.pending == 0 && !EntryValid(entry, now, idle) {
          TokenOf(View(), s, token);
          DeleteOk(View(), s, entry);
          DeleteSnoc(old(View()), s, order, token);
          EnumeratesSnoc(order, Dead(old(sites)[s], now) - rest, token);
          DeleteCapability(s, entry);
          assert Dead(old(sites)[s], now) - (rest - {token}) == (Dead(old(sites)[s], now) - rest) + {token};
          order := order + [token];
        } else {
          assert Dead(old(sites)[s], now) - (rest - {token}) == Dead(old(sites)[s], now) - rest;
        }
        rest := rest - {token};
      }
      assert Dead(old(sites)[s], now) - {} == Dead(old(sites)[s], now);
    }

    /** Gives back a closed site's share of its authorities. */
    method ReleaseAuthorities(authorities: set<string>)
      modifies this`holders
      ensures holders == ReleaseHolders(old(holders), authorities)
    {
      hide ReleaseHolders;
      var rest := authorities;
      ReleaseNone(holders);
      assert authorities - rest == {};
      while rest != {}
        invariant rest <= authorities
        invariant holders == ReleaseHolders(old(holders), authorities - rest)
        decreases |rest|
      {
        var authority :| authority in rest;
        ReleaseOneMore(old(holders), authorities - rest, authority);
        if HeldBy(holders, authority) <= 1 {
          holders := holders - {authority};
        } else {
          holders := holders[authority := holders[authority] - 1];
        }
        assert authorities - (rest - {authority}) == (authorities - rest) + {authority};
        rest := rest - {authority};
      }
      assert authorities - {} == authorities;
    }

    method CloseSiteState(s: nat)
      modifies this
      ensures View() == CloseSite(old(View()), s)
    {
      hide ReleaseHolders;
      if s !in sites {
        return;
      }
      var site := sites[s];
      sites := sites - {s};
      ReleaseAuthorities(site.authorities.Keys);
      active := Minus(active, |site.table|);
      memory := Minus(memory, site.memory);
    }
  }

  // ---------- what the loops rely on ----------

  ghost method AnyOrder(all: set<string>) returns (order: seq<string>)
    ensures Enumerates(order, all)
  {
    order := [];
    var rest := all;
    while rest != {}
      invariant rest <= all && Enumerates(order, all - rest)
      decreases |rest|
    {
      var t :| t in rest;
      EnumeratesSnoc(order, all - rest, t);
      assert all - (rest - {t}) == (all - rest) + {t};
      rest := rest - {t};
      order := order + [t];
    }
    assert all - {} == all;
  }

  lemma EnumeratesSnoc(order: seq<string>, all: set<string>, t: string)
    requires Enumerates(order, all) && t !in all
    ensures Enumerates(order + [t], all + {t})
  {
    var longer := order + [t];
    forall i, j | 0 <= i < j < |longer| ensures longer[i] != longer[j] {
      if j == |order| {
        assert order[i] in order;
      }
    }
  }

  lemma CountKeys(tokens: seq<string>, token: string)
    ensures (set t | t in tokens + [token]) == (set t | t in tokens) + {token}
    ensures forall t :: CountOf(tokens + [token], t) == CountOf(tokens, t) + if t == token then 1 else 0
    ensures token !in tokens ==> CountOf(tokens, token) == 0
  {
    forall t ensures CountOf(tokens + [token], t) == CountOf(tokens, t) + if t == token then 1 else 0 {
      assert multiset(tokens + [token]) == multiset(tokens) + multiset{token};
    }
  }

  lemma SettleableSnoc(site: Site, tokens: seq<string>, token: string, publish: bool, now: int)
    ensures Settleable(site, tokens + [token], publish, now)
      <==> (Settleable(site, tokens, publish, now)
            && token in site.table && site.table[token].pending >= CountOf(tokens, token) + 1
            && (publish ==> EntryValid(site.table[token], now, site.limits.idle)))
  {
    hide EntryValid, CountOf;
    CountKeys(tokens, token);
    assert forall t :: t in tokens + [token] <==> t in tokens || t == token;
  }

  lemma {:induction false} SettleSnoc(r: Registry, s: nat, order: seq<string>, token: string, tokens: seq<string>, publishing: bool)
    ensures SettleEach(r, s, order + [token], tokens, publishing)
         == SettleOne(SettleEach(r, s, order, tokens, publishing), s, token, CountOf(tokens, token), publishing)
    decreases |order|
  {
    hide SettleOne, CountOf;
    if order == [] {
      assert [token][1..] == [];
    } else {
      var r1 := SettleOne(r, s, order[0], CountOf(tokens, order[0]), publishing);
      SettleSnoc(r1, s, order[1..], token, tokens, publishing);
      assert (order + [token])[1..] == order[1..] + [token];
    }
  }

  lemma DeleteNone(r: Registry, s: nat)
    ensures DeleteAll(r, s, []) == r
  {
  }

  lemma {:induction false} DeleteSnoc(r: Registry, s: nat, order: seq<string>, token: string)
    requires s in DeleteAll(r, s, order).sites && token in DeleteAll(r, s, order).sites[s].table
    ensures DeleteAll(r, s, order + [token])
         == Delete(DeleteAll(r, s, order), s, DeleteAll(r, s, order).sites[s].table[token])
    decreases |order|
  {
    hide Delete;
    if order == [] {
      assert [token][1..] == [];
    } else if s in r.sites {
      var r1 := if order[0] in r.sites[s].table then Delete(r, s, r.sites[s].table[order[0]]) else r;
      DeleteSnoc(r1, s, order[1..], token);
      assert (order + [token])[1..] == order[1..] + [token];
    }
  }

  lemma ReleaseNone(holders: map<string, nat>)
    ensures ReleaseHolders(holders, {}) == holders
  {
  }

  lemma NothingToSettle(site: Site, publish: bool, now: int)
    ensures Settleable(site, [], publish, now)
  {
  }

  lemma ReleaseOneMore(holders: map<string, nat>, gone: set<string>, a: string)
    requires a !in gone
    ensures ReleaseHolders(holders, gone + {a}) == ReleaseHolder(ReleaseHolders(holders, gone), a)
  {
  }
}
