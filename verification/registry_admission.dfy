/** What a site and the process do with an authority that is asked for, in terms of the registry's fields. */
module RegistryAdmission {
  import opened Wrappers
  import opened RegistrySpec
  import opened RegistryRate

  /** Of this window, exactly the first n times have been forgotten at time now: a minute has passed since each of them. */
  ghost predicate Forgets(times: seq<int>, n: nat, now: int) {
    n <= |times| && (forall i :: 0 <= i < n ==> times[i] <= now - MINUTE) && (n < |times| ==> now - MINUTE < times[n])
  }

  lemma {:induction false} ForgetsSome(times: seq<int>, now: int) returns (n: nat)
    ensures Forgets(times, n, now)
  {
    if times == [] || now - MINUTE < times[0] {
      n := 0;
    } else {
      var m := ForgetsSome(times[1..], now);
      n := m + 1;
      assert forall i :: 0 < i < n ==> times[i] == times[1..][i - 1];
    }
  }

  lemma {:induction false} WindowExactly(times: seq<int>, n: nat, now: int)
    requires Forgets(times, n, now)
    ensures RateWindow(times, now) == times[n..]
    decreases n
  {
    if n > 0 {
      assert times[0] <= now - MINUTE;
      assert forall i :: 0 <= i < |times[1..]| ==> times[1..][i] == times[i + 1];
      WindowExactly(times[1..], n - 1, now);
      assert times[1..][n - 1..] == times[n..];
    }
  }

  /** All other sites, and all of this site but its authorities and its window, are as before. */
  ghost predicate OnlyAuthorities(r: Registry, q: Registry, s: nat) {
    && s in r.sites && q.sites.Keys == r.sites.Keys && q.active == r.active && q.memory == r.memory
    && (forall u :: u in r.sites && u != s ==> q.sites[u] == r.sites[u])
    && q.sites[s].limits == r.sites[s].limits && q.sites[s].table == r.sites[s].table && q.sites[s].index == r.sites[s].index
    && q.sites[s].memory == r.sites[s].memory
  }

  /**
   An authority that the site holds is granted whatever the counts and rates: it is in
   flight once more, the new reservation is one of this entry, and nothing else is asked
   or counted.
   */
  lemma HeldIsGranted(r: Registry, s: nat, authority: string, now: int)
    requires s in r.sites && authority != "" && authority in r.sites[s].authorities
    ensures var x := Reserve(r, s, authority, now);
      && x.Granted?
      && var q, was := x.registry, r.sites[s].authorities[authority];
      && OnlyAuthorities(r, q, s)
      && q.sites[s].authorities == r.sites[s].authorities[authority := Authority(was.id, was.inFlight + 1, was.committed)]
      && q.pending == r.pending[x.id := Reservation(s, authority, was.id)] && r.nextId <= x.id < q.nextId
      && q.holders == r.holders && q.recent == r.recent && q.sites[s].recent == r.sites[s].recent
  {
  }

  /**
   An authority that the site does not hold is granted if and only if the site has room
   for it and, if nobody holds it, the process has; and the windows, without what they
   forget, have room as well. Too little room comes before too high a rate. When it is
   granted it is in flight once, counted in both windows where it is new, and held by one
   site more; when it is refused, the windows forget and nothing else happens.
   */
  lemma NewIsGranted(r: Registry, s: nat, authority: string, now: int, n: nat, m: nat)
    requires s in r.sites && authority != "" && authority !in r.sites[s].authorities
    requires Forgets(r.sites[s].recent, n, now) && Forgets(r.recent, m, now)
    ensures var x := Reserve(r, s, authority, now);
      var site, q := r.sites[s], x.registry;
      var held := if authority in r.holders then r.holders[authority] else 0;
      var full := |site.authorities| >= site.limits.maxAuthorities || (held == 0 && |r.holders| >= MAX_AUTHORITIES);
      var busy := |site.recent| - n >= site.limits.maxNewAuthorities || (held == 0 && |r.recent| - m >= MAX_NEW_AUTHORITIES);
      && OnlyAuthorities(r, q, s) && (x.Granted? <==> !full && !busy)
      && (x.Refused? ==>
            && x.reason == (if full then Capacity else Rate)
            && q.sites[s].authorities == site.authorities && q.holders == r.holders && q.pending == r.pending
            && q.sites[s].recent == site.recent[n..] && q.recent == r.recent[m..] && q.nextId == r.nextId)
      && (x.Granted? ==>
            && authority in q.sites[s].authorities
            && var made := q.sites[s].authorities[authority];
            && q.sites[s].authorities == site.authorities[authority := made] && made.inFlight == 1 && !made.committed
            && r.nextId <= made.id < q.nextId && r.nextId <= x.id < q.nextId && x.id != made.id
            && q.pending == r.pending[x.id := Reservation(s, authority, made.id)]
            && q.holders == r.holders[authority := held + 1]
            && q.sites[s].recent == site.recent[n..] + [now]
            && q.recent == r.recent[m..] + if held == 0 then [now] else [])
  {
    hide RateWindow, Entered, OnlyAuthorities;
    WindowExactly(r.sites[s].recent, n, now);
    WindowExactly(r.recent, m, now);
    assert r.recent[m..] + [] == r.recent[m..];
    EnteredFields(r, s, authority, now, r.sites[s].recent[n..], r.recent[m..], HeldBy(r.holders, authority));
    PrunedFields(r, s, r.sites[s].recent[n..], r.recent[m..]);
  }

  lemma EnteredFields(r: Registry, s: nat, authority: string, now: int, window: seq<int>, recent: seq<int>, held: nat)
    requires s in r.sites
    ensures var q := Entered(r.(recent := recent), s, authority, now, window, held);
      && OnlyAuthorities(r, q, s)
      && q.sites[s].authorities == r.sites[s].authorities[authority := Authority(r.nextId, 1, false)]
      && q.pending == r.pending[r.nextId + 1 := Reservation(s, authority, r.nextId)] && q.nextId == r.nextId + 2
      && q.holders == r.holders[authority := held + 1] && q.sites[s].recent == window + [now]
      && q.recent == if held == 0 then recent + [now] else recent
  {
  }

  lemma PrunedFields(r: Registry, s: nat, window: seq<int>, recent: seq<int>)
    requires s in r.sites
    ensures OnlyAuthorities(r, WithSite(r, s, r.sites[s].(recent := window)).(recent := recent), s)
  {
  }

  /** Without a name there is nothing to reserve. */
  lemma NamelessRefused(r: Registry, s: nat, now: int)
    requires s in r.sites
    ensures Reserve(r, s, "", now) == Refused(r, Unavailable)
  {
  }

  // ---------- settling ----------

  /** n claims on a token can be settled; to be published it must have neither expired nor idled out. */
  predicate CanSettle(site: Site, t: string, n: nat, publish: bool, now: int) {
    && t in site.table && n <= site.table[t].pending
    && (publish ==>
          && site.table[t].token != "" && now < site.table[t].expiresAt
          && 0 < site.limits.idle && now < site.table[t].lastUsed + site.limits.idle)
  }

  /** Tokens are settled together or not at all, each with as many claims as it is named. */
  lemma SettlesExactly(r: Registry, s: nat, tokens: seq<string>, order: seq<string>, publish: bool, now: int)
    ensures Settle(r, s, tokens, order, publish, now).1
      <==> tokens == [] || (s in r.sites && forall t :: t in tokens ==> CanSettle(r.sites[s], t, multiset(tokens)[t], publish, now))
  {
    if tokens != [] && s in r.sites {
      forall t | t in tokens
        ensures CanSettle(r.sites[s], t, multiset(tokens)[t], publish, now)
          <==> t in r.sites[s].table && r.sites[s].table[t].pending >= CountOf(tokens, t)
               && (publish ==> EntryValid(r.sites[s].table[t], now, r.sites[s].limits.idle))
      {
      }
    }
  }
}
