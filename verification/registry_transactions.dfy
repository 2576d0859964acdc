/** A rewrite session is a transaction: it is published as a whole or leaves nothing behind. */
module RegistryTransactions {
  import opened Wrappers
  import opened MapSums
  import opened RegistrySpec
  import opened RegistryAuthorities
  import opened RegistryTables
  import opened RegistrySessions
  import opened RegistryRuns

  // ---------- what the counters say in every reachable state ----------

  /** The counters of a registry are exact, in terms a reader can check without the invariant. */
  lemma AccountingExact(steps: seq<Step>)
    requires Runs(Fresh(), steps)
    ensures var w := After(Fresh(), steps); var r := w.r;
      && r.active == Sum(Sizes(r.sites)) && r.memory == Sum(SiteMemories(r.sites))
      && r.active <= MAX_CAPABILITIES && r.memory <= MAX_MEMORY && |r.holders| <= MAX_AUTHORITIES
      && (forall s :: s in r.sites ==> r.sites[s].memory == Sum(Memories(r.sites[s].table)) <= MAX_SITE_MEMORY)
      && (forall s :: s in r.sites && r.sites[s].table != map[] ==> |r.sites[s].table| <= r.sites[s].limits.maxCapabilities)
      && (forall s :: s in r.sites && r.sites[s].authorities != map[] ==>
            |r.sites[s].authorities| <= r.sites[s].limits.maxAuthorities)
      && (forall id :: id in r.pending ==> ReservationOk(r.sites, r.pending[id]))
      && (forall s, a :: s in r.sites && a in r.sites[s].authorities ==>
            AuthorityOk(r.pending, s, a, r.sites[s].authorities[a]))
      && (forall a :: HolderOk(r.sites, r.holders, a))
      && (forall s :: s in r.sites ==> IndexOk(r.sites[s]))
      && (forall s, t :: ClaimsExact(r.sites, w.sessions, s, t))
  {
    hide Sum, Runs, After;
    FreshOk();
    ReachableOk(Fresh(), steps);
    var w := After(Fresh(), steps);
    assert forall s :: s in w.r.sites ==> SiteOk(w.r.sites[s]);
  }

  // ---------- commit ----------

  /**
   Committing a session publishes all its capabilities or none. It fails only
   because one of them has expired; it never fails because one is missing, even if
   other sessions share tokens with this one.
   */
  lemma CommitAllOrNothing(w: World, i: nat, order: seq<string>, now: int)
    requires Inv(w) && OpenSession(w, i) && Enumerates(order, set t | t in w.sessions[i].minted)
    ensures var s := w.sessions[i].site; var tokens := w.sessions[i].minted;
      var (q, ok) := Settle(w.r, s, tokens, order, true, now);
      && (forall t :: t in tokens ==> t in w.r.sites[s].table)
      && (ok <==> forall t :: t in tokens ==> EntryValid(w.r.sites[s].table[t], now, w.r.sites[s].limits.idle))
      && s in q.sites
      && (ok ==> forall t :: t in tokens ==> t in q.sites[s].table && q.sites[s].table[t].published)
      && (!ok ==> forall t :: t in q.sites[s].table ==>
            t in w.r.sites[s].table && q.sites[s].table[t].published == w.r.sites[s].table[t].published)
  {
    hide RegistryOk, ClaimsOk, OwnersOk, SettleEach, EntryValid;
    var s, tokens := w.sessions[i].site, w.sessions[i].minted;
    assert multiset(tokens) == multiset(tokens) + multiset([]);
    SettleReady(w, i, tokens, [], order);
    assert forall t :: t in tokens ==> t in order && Covered(w.r.sites[s].table, tokens, t);
    if tokens != [] {
      var ok := Settleable(w.r.sites[s], tokens, true, now);
      SettleEachOk(w.r, w.callers, s, order, tokens, ok);
      var q := SettleEach(w.r, s, order, tokens, ok);
      forall t ensures t in q.sites[s].table ==> (
        && t in w.r.sites[s].table
        && ((t in order && ok) || q.sites[s].table[t].published == w.r.sites[s].table[t].published))
      {
        assert TokenSettled(w.r.sites[s].table, q.sites[s].table, t, if t in order then CountOf(tokens, t) else 0, t in order, ok);
      }
      forall t | t in tokens && ok ensures t in q.sites[s].table && q.sites[s].table[t].published {
        assert TokenSettled(w.r.sites[s].table, q.sites[s].table, t, CountOf(tokens, t), true, ok);
      }
    }
  }

  // ---------- what a session adds ----------

  /** One token of a site between the start of a session and now; n is how often the session claimed it. */
  ghost predicate GrownAt(before: map<string, Entry>, after: map<string, Entry>, t: string, n: nat) {
    if t in before then t in after && after[t] == before[t].(pending := before[t].pending + n)
    else if n == 0 then t !in after
    else t in after && after[t].pending == n && !after[t].published
  }

  ghost predicate IndexGrown(before: Site, after: Site) {
    && (forall k :: k in before.index ==> k in after.index && after.index[k] == before.index[k])
    && (forall k :: k in after.index && k !in before.index ==> after.index[k] !in before.table)
  }

  ghost predicate TablesGrown(r0: Registry, r: Registry, s: nat, minted: seq<string>) {
    && s in r0.sites && r.sites.Keys == r0.sites.Keys
    && (forall u :: u in r0.sites && u != s ==> r.sites[u].table == r0.sites[u].table)
    && (forall t :: GrownAt(r0.sites[s].table, r.sites[s].table, t, CountOf(minted, t)))
    && IndexGrown(r0.sites[s], r.sites[s])
  }

  /** The same authorities are committed. */
  ghost predicate CommittedSame(r0: Registry, r: Registry) {
    && r.sites.Keys == r0.sites.Keys
    && (forall u, a :: CommittedAt(r0, u, a) <==> CommittedAt(r, u, a))
  }

  ghost predicate CommittedAt(r: Registry, u: nat, a: string) {
    u in r.sites && a in r.sites[u].authorities && r.sites[u].authorities[a].committed
  }

  /** Reservations that are there in both states are the same. */
  ghost predicate PendingAgrees(r0: Registry, r: Registry) {
    r0.nextId <= r.nextId && forall i :: i in r.pending && i < r0.nextId ==> i in r0.pending && r.pending[i] == r0.pending[i]
  }

  // ---------- the steps of a session ----------

  /** Nothing in the table has expired or idled out. */
  ghost predicate AllValid(site: Site, now: int) {
    forall t :: t in site.table ==> EntryValid(site.table[t], now, site.limits.idle)
  }

  /**
   The steps by which a rewrite works for session i: it reserves authorities and
   drops them again, claims capabilities and enters new ones, while nothing expires.
   */
  ghost predicate Working(w0: World, w: World, i: nat, x: Step) {
    match x
    case ReserveAuthority(s, _, _) => true
    case FinishReservation(id, commit) => !commit && id !in w0.callers
    case ReuseKey(j, _, now) => j == i && OpenSession(w, i) && AllValid(w.r.sites[w.sessions[i].site], now)
    case RegisterToken(j, _, _, _, _, res) => j == i && (res.Some? ==> res.value !in w0.callers)
    case _ => false
  }

  ghost predicate Worked(w0: World, w: World, i: nat) {
    && Inv(w0) && Inv(w) && OpenSession(w0, i) && OpenSession(w, i)
    && w0.sessions[i].minted == [] && w.sessions[i].site == w0.sessions[i].site
    && w.sessions.Keys == w0.sessions.Keys && (forall j :: j in w.sessions && j != i ==> w.sessions[j] == w0.sessions[j])
    && TablesGrown(w0.r, w.r, w0.sessions[i].site, w.sessions[i].minted)
    && CommittedSame(w0.r, w.r) && PendingAgrees(w0.r, w.r) && w0.callers <= w.callers
  }

  lemma WorkStarts(w: World, i: nat)
    requires Inv(w) && OpenSession(w, i) && w.sessions[i].minted == []
    ensures Worked(w, w, i)
  {
    hide RegistryOk, ClaimsOk, OwnersOk;
    forall t ensures GrownAt(w.r.sites[w.sessions[i].site].table, w.r.sites[w.sessions[i].site].table, t, CountOf([], t)) {
      assert CountOf([], t) == 0;
    }
    PendingBelow(w.r);
  }

  lemma PendingBelow(r: Registry)
    requires RegistryOk(r)
    ensures forall i :: i in r.pending ==> i < r.nextId
  {
  }

  // one more claim on t

  lemma CountMinted(minted: seq<string>, t: string, v: string)
    ensures CountOf(minted + [t], v) == CountOf(minted, v) + (if v == t then 1 else 0)
  {
  }

  lemma ClaimGrows(r0: Registry, r: Registry, s: nat, minted: seq<string>, t: string)
    requires TablesGrown(r0, r, s, minted) && s in r.sites && t in r.sites[s].table
    ensures TablesGrown(r0, Claim(r, s, t), s, minted + [t])
  {
    hide CountOf, IndexGrown;
    var q := Claim(r, s, t);
    forall v ensures GrownAt(r0.sites[s].table, q.sites[s].table, v, CountOf(minted + [t], v)) {
      assert GrownAt(r0.sites[s].table, r.sites[s].table, v, CountOf(minted, v));
      CountMinted(minted, t, v);
    }
    assert q.sites[s].index == r.sites[s].index;
    IndexGrownSame(r0.sites[s], r.sites[s], q.sites[s]);
  }

  lemma IndexGrownSame(before: Site, a: Site, b: Site)
    requires IndexGrown(before, a) && a.index == b.index
    ensures IndexGrown(before, b)
  {
  }

  lemma InsertGrows(r0: Registry, r: Registry, s: nat, minted: seq<string>, e: Entry)
    requires TablesGrown(r0, r, s, minted) && s in r.sites && e.token !in r.sites[s].table && e.pending == 1 && !e.published
    requires e.cacheKey !in r.sites[s].index
    ensures TablesGrown(r0, Insert(r, s, e), s, minted + [e.token])
  {
    hide CountOf, EntryMemory;
    var q := Insert(r, s, e);
    assert GrownAt(r0.sites[s].table, r.sites[s].table, e.token, CountOf(minted, e.token));
    forall v ensures GrownAt(r0.sites[s].table, q.sites[s].table, v, CountOf(minted + [e.token], v)) {
      assert GrownAt(r0.sites[s].table, r.sites[s].table, v, CountOf(minted, v));
      CountMinted(minted, e.token, v);
    }
  }

  /** Dropping an index pair that is not there changes nothing. */
  lemma DropNothing(r: Registry, s: nat, cacheKey: string)
    requires s in r.sites && cacheKey !in r.sites[s].index
    ensures DropIndex(r, s, cacheKey) == r
  {
    assert r.sites[s].index - {cacheKey} == r.sites[s].index;
    assert r.sites[s := r.sites[s]] == r.sites;
  }

  /** While nothing expires, an indexed capability is always found. */
  lemma IndexedIsUsable(r: Registry, s: nat, cacheKey: string)
    requires RegistryOk(r) && s in r.sites && cacheKey in r.sites[s].index
    ensures var t := r.sites[s].index[cacheKey]; t in r.sites[s].table && r.sites[s].table[t].cacheKey == cacheKey
  {
    hide AuthoritiesOk, TablesOk;
    SiteAt(r, s);
  }

  lemma EmptyTokenAbsent(r: Registry, s: nat)
    requires RegistryOk(r) && s in r.sites
    ensures "" !in r.sites[s].table
  {
    hide RegistryOk;
    if "" in r.sites[s].table {
      TokenFacts(r, s, "");
    }
  }

  lemma ReuseQuiet(r: Registry, s: nat, cacheKey: string, now: int)
    requires RegistryOk(r) && s in r.sites && AllValid(r.sites[s], now)
    ensures var (q, token) := Reuse(r, s, cacheKey, now);
      && (token.None? ==> q == r)
      && (token.Some? ==> token.value in r.sites[s].table && q == Claim(r, s, token.value))
  {
    hide RegistryOk, EntryValid, Delete, Claim, DropIndex;
    EmptyTokenAbsent(r, s);
    if cacheKey in r.sites[s].index {
      IndexedIsUsable(r, s, cacheKey);
    } else {
      DropNothing(r, s, cacheKey);
    }
  }

  lemma RegisterQuiet(r: Registry, s: nat, token: string, cacheKey: string, expiresAt: int, now: int, res: Option<nat>)
    requires RegistryOk(r) && s in r.sites && token !in r.sites[s].table
    ensures var (q, result) := Register(r, s, token, cacheKey, expiresAt, now, res);
      && (result.None? ==> q == r)
      && (result.Some? && result.value in r.sites[s].table ==> q == Claim(r, s, result.value))
      && (result.Some? && result.value !in r.sites[s].table ==>
           && result == Some(token) && cacheKey !in r.sites[s].index
           && q == Insert(r, s, Entry(expiresAt, now, token, cacheKey, 1, false, res)))
  {
    hide RegistryOk, Claim, DropIndex, Insert, Fits;
    EmptyTokenAbsent(r, s);
    if cacheKey in r.sites[s].index {
      IndexedIsUsable(r, s, cacheKey);
    } else {
      DropNothing(r, s, cacheKey);
    }
  }

  lemma GrownKept(r0: Registry, r: Registry, q: Registry, s: nat, minted: seq<string>)
    requires TablesGrown(r0, r, s, minted) && TablesKept(r, q) && q.sites.Keys == r.sites.Keys
    ensures TablesGrown(r0, q, s, minted)
  {
    hide CountOf, GrownAt, IndexGrown;
    assert SameTable(r.sites[s], q.sites[s]);
    IndexGrownSame(r0.sites[s], r.sites[s], q.sites[s]);
  }

  lemma ReserveCommits(r: Registry, s: nat, a: string, now: int)
    requires s in r.sites && AuthoritiesOk(r)
    ensures CommittedSame(r, Reserve(r, s, a, now).registry)
    ensures PendingAgrees(r, Reserve(r, s, a, now).registry)
  {
    hide CountsOk, HoldersOk, AuthorityLimits, RateWindow, HeldBy;
    assert IdsOk(r);
  }

  lemma RollbackCommits(r: Registry, id: nat)
    ensures CommittedSame(r, Finish(r, id, false))
    ensures PendingAgrees(r, Finish(r, id, false))
  {
    hide ReleaseHolder;
  }

  lemma CommittedTwice(a: Registry, b: Registry, c: Registry)
    requires CommittedSame(a, b) && CommittedSame(b, c)
    ensures CommittedSame(a, c)
  {
    hide CommittedAt;
    forall u, x ensures CommittedAt(a, u, x) <==> CommittedAt(c, u, x) {
      assert CommittedAt(a, u, x) <==> CommittedAt(b, u, x);
    }
  }

  lemma AgreesTwice(a: Registry, b: Registry, c: Registry)
    requires PendingAgrees(a, b) && PendingAgrees(b, c)
    ensures PendingAgrees(a, c)
  {
  }

  ghost predicate AuthoritiesSame(r: Registry, q: Registry) {
    q.pending == r.pending && q.nextId == r.nextId && q.sites.Keys == r.sites.Keys
    && forall u :: u in r.sites ==> q.sites[u].authorities == r.sites[u].authorities
  }

  lemma SameCommits(r0: Registry, r: Registry, q: Registry)
    requires CommittedSame(r0, r) && PendingAgrees(r0, r) && AuthoritiesSame(r, q)
    ensures CommittedSame(r0, q) && PendingAgrees(r0, q)
  {
    forall u, x ensures CommittedAt(r0, u, x) <==> CommittedAt(q, u, x) {
      assert CommittedAt(r0, u, x) <==> CommittedAt(r, u, x);
    }
  }

  lemma ClaimAuthorities(r: Registry, s: nat, t: string)
    requires s in r.sites && t in r.sites[s].table
    ensures AuthoritiesSame(r, Claim(r, s, t))
  {
  }

  lemma InsertAuthorities(r: Registry, s: nat, e: Entry)
    requires s in r.sites
    ensures AuthoritiesSame(r, Insert(r, s, e))
  {
  }

  lemma WorkReserve(w0: World, w: World, i: nat, x: Step)
    requires Worked(w0, w, i) && x.ReserveAuthority? && Enabled(w, x) && Inv(Next(w, x))
    ensures Worked(w0, Next(w, x), i)
  {
    hide Inv, Reserve, TablesGrown, CommittedSame, PendingAgrees;
    InvRegistry(w);
    WorkReserveParts(w0, w, x.s, x.authority, x.now, w0.sessions[i].site, w.sessions[i].minted);
  }

  lemma WorkReserveParts(w0: World, w: World, s: nat, a: string, now: int, u: nat, minted: seq<string>)
    requires s in w.r.sites && RegistryOk(w.r)
    requires TablesGrown(w0.r, w.r, u, minted) && CommittedSame(w0.r, w.r) && PendingAgrees(w0.r, w.r)
    ensures var q := Reserve(w.r, s, a, now).registry;
      TablesGrown(w0.r, q, u, minted) && CommittedSame(w0.r, q) && PendingAgrees(w0.r, q) && q.sites.Keys == w.r.sites.Keys
  {
    hide AuthoritiesOk, TablesOk, Reserve, TablesGrown, CommittedSame, PendingAgrees;
    var q := Reserve(w.r, s, a, now).registry;
    ReserveFrame(w.r, s, a, now);
    ReserveCommits(w.r, s, a, now);
    GrownKept(w0.r, w.r, q, u, minted);
    CommittedTwice(w0.r, w.r, q);
    AgreesTwice(w0.r, w.r, q);
  }

  lemma WorkFinish(w0: World, w: World, i: nat, x: Step)
    requires Worked(w0, w, i) && x.FinishReservation? && Working(w0, w, i, x) && Enabled(w, x) && Inv(Next(w, x))
    ensures Worked(w0, Next(w, x), i)
  {
    hide Inv, Finish, TablesGrown, CommittedSame, PendingAgrees;
    var q := Finish(w.r, x.id, false);
    FinishFrame(w.r, x.id, false);
    RollbackCommits(w.r, x.id);
    GrownKept(w0.r, w.r, q, w0.sessions[i].site, w.sessions[i].minted);
    CommittedTwice(w0.r, w.r, q);
    AgreesTwice(w0.r, w.r, q);
  }

  lemma WorkClaim(w0: World, w: World, i: nat, t: string, q: World)
    requires Worked(w0, w, i) && t in w.r.sites[w.sessions[i].site].table && Inv(q)
    requires q == Minting(w, i, Some(t), Claim(w.r, w.sessions[i].site, t)).(callers := q.callers) && w0.callers <= q.callers
    ensures Worked(w0, q, i)
  {
    hide Inv, Claim, TablesGrown, CommittedSame, PendingAgrees;
    var s := w.sessions[i].site;
    ClaimGrows(w0.r, w.r, s, w.sessions[i].minted, t);
    ClaimAuthorities(w.r, s, t);
    SameCommits(w0.r, w.r, q.r);
  }

  lemma WorkInsert(w0: World, w: World, i: nat, e: Entry, q: World)
    requires Worked(w0, w, i) && Inv(q) && e.token !in w.r.sites[w.sessions[i].site].table && e.pending == 1 && !e.published
    requires e.cacheKey !in w.r.sites[w.sessions[i].site].index
    requires q == Minting(w, i, Some(e.token), Insert(w.r, w.sessions[i].site, e)).(callers := q.callers)
    requires w0.callers <= q.callers
    ensures Worked(w0, q, i)
  {
    hide Inv, Insert, TablesGrown, CommittedSame, PendingAgrees;
    var s := w.sessions[i].site;
    InsertGrows(w0.r, w.r, s, w.sessions[i].minted, e);
    InsertAuthorities(w.r, s, e);
    SameCommits(w0.r, w.r, q.r);
  }

  lemma WorkReuse(w0: World, w: World, i: nat, x: Step)
    requires Worked(w0, w, i) && x.ReuseKey? && Working(w0, w, i, x) && Enabled(w, x) && Inv(Next(w, x))
    ensures Worked(w0, Next(w, x), i)
  {
    hide Inv, Reuse, Claim, Worked, AllValid;
    WorkSite(w0, w, i);
    InvRegistry(w);
    var s := w.sessions[i].site;
    ReuseQuiet(w.r, s, x.cacheKey, x.now);
    var token := Reuse(w.r, s, x.cacheKey, x.now).1;
    if token.Some? {
      WorkClaim(w0, w, i, token.value, Next(w, x));
    }
  }

  lemma WorkSite(w0: World, w: World, i: nat)
    requires Worked(w0, w, i)
    ensures Inv(w) && OpenSession(w, i) && w0.callers <= w.callers
  {
    hide Inv, TablesGrown;
  }

  lemma WorkRegister(w0: World, w: World, i: nat, x: Step)
    requires Worked(w0, w, i) && x.RegisterToken? && Working(w0, w, i, x) && Enabled(w, x) && Inv(Next(w, x))
    ensures Worked(w0, Next(w, x), i)
  {
    hide Inv, Register, Claim, Insert, Worked;
    WorkSite(w0, w, i);
    InvRegistry(w);
    var s := w.sessions[i].site;
    RegisterQuiet(w.r, s, x.token, x.cacheKey, x.expiresAt, x.now, x.reservation);
    var result := Register(w.r, s, x.token, x.cacheKey, x.expiresAt, x.now, x.reservation).1;
    var q := Next(w, x);
    if result.Some? {
      if result.value in w.r.sites[s].table {
        WorkClaim(w0, w, i, result.value, q);
      } else {
        WorkInsert(w0, w, i, Entry(x.expiresAt, x.now, x.token, x.cacheKey, 1, false, x.reservation), q);
      }
    }
  }

  /** What a session has added is exactly its claims and its own unpublished entries. */
  lemma WorkStep(w0: World, w: World, i: nat, x: Step)
    requires Worked(w0, w, i) && Working(w0, w, i, x) && Enabled(w, x)
    ensures Worked(w0, Next(w, x), i)
  {
    hide Inv, Next, Worked, Enabled;
    WorkSite(w0, w, i);
    StepKeeps(w, x);
    match x
    case ReserveAuthority(_, _, _) => WorkReserve(w0, w, i, x);
    case FinishReservation(_, _) => WorkFinish(w0, w, i, x);
    case ReuseKey(_, _, _) => WorkReuse(w0, w, i, x);
    case RegisterToken(_, _, _, _, _, _) => WorkRegister(w0, w, i, x);
    case _ =>
  }

  // ---------- rollback ----------

  /** Index pairs are only lost together with the entry they name. */
  ghost predicate IndexLess(r: Registry, q: Registry, s: nat) {
    s in r.sites && s in q.sites
    && (forall k :: k in q.sites[s].index ==> k in r.sites[s].index && q.sites[s].index[k] == r.sites[s].index[k])
    && (forall k :: k in r.sites[s].index && r.sites[s].index[k] in q.sites[s].table ==> k in q.sites[s].index)
    && (forall t :: t in q.sites[s].table ==> t in r.sites[s].table)
  }

  ghost predicate Released(r: Registry, q: Registry, s: nat) {
    IndexLess(r, q, s) && CommittedSame(r, q) && PendingAgrees(r, q)
  }

  lemma ReleasedTwice(a: Registry, b: Registry, c: Registry, s: nat)
    requires Released(a, b, s) && Released(b, c, s)
    ensures Released(a, c, s)
  {
    hide CommittedSame, PendingAgrees;
    CommittedTwice(a, b, c);
    AgreesTwice(a, b, c);
  }

  lemma ReleasedSelf(r: Registry, s: nat)
    requires RegistryOk(r) && s in r.sites
    ensures Released(r, r, s)
  {
    PendingBelow(r);
  }

  lemma TakeOutReleases(r: Registry, s: nat, e: Entry)
    requires s in r.sites && RegistryOk(r)
    ensures Released(r, TakeOut(r, s, e), s)
  {
    hide RegistryOk, EntryMemory;
    PendingBelow(r);
  }

  lemma DeleteReleases(r: Registry, s: nat, e: Entry)
    requires RegistryOk(r) && s in r.sites && e.token in r.sites[s].table
    requires e.cacheKey == r.sites[s].table[e.token].cacheKey
    ensures Released(r, Delete(r, s, e), s)
  {
    hide RegistryOk, TakeOut, Finish, Released;
    FinishOptionOk(r, e.reservation, false);
    var r1 := FinishOption(r, e.reservation, false);
    TakeOutReleases(r1, s, e);
    if e.reservation.Some? {
      FinishReleases(r, s, e.reservation.value);
      ReleasedTwice(r, r1, Delete(r, s, e), s);
    }
  }

  lemma FinishReleases(r: Registry, s: nat, id: nat)
    requires s in r.sites
    ensures Released(r, Finish(r, id, false), s)
  {
    hide Finish, CommittedSame, PendingAgrees;
    FinishFrame(r, id, false);
    RollbackCommits(r, id);
  }

  lemma SetEntryReleases(r: Registry, s: nat, t: string, e: Entry)
    requires RegistryOk(r) && s in r.sites && t in r.sites[s].table
    ensures Released(r, SetEntry(r, s, t, e), s)
  {
    hide RegistryOk;
    PendingBelow(r);
  }

  lemma SettleOneReleases(r: Registry, s: nat, t: string, count: nat)
    requires RegistryOk(r) && s in r.sites
    ensures Released(r, SettleOne(r, s, t, count, false), s)
  {
    hide RegistryOk, Released, Delete, SetEntry;
    ReleasedSelf(r, s);
    if t in r.sites[s].table && r.sites[s].table[t].pending >= count {
      TokenFacts(r, s, t);
      var e := r.sites[s].table[t];
      var after := e.(pending := e.pending - count);
      DeleteReleases(r, s, after);
      SetEntryReleases(r, s, t, after);
    }
  }

  lemma {:induction false} SettleEachReleases(r: Registry, callers: set<nat>, s: nat, order: seq<string>, tokens: seq<string>)
    requires RegistryOk(r) && OwnersOk(r, callers) && s in r.sites
    requires forall i, j :: 0 <= i < j < |order| ==> order[i] != order[j]
    requires forall t :: t in order ==> Covered(r.sites[s].table, tokens, t)
    ensures Released(r, SettleEach(r, s, order, tokens, false), s)
    decreases |order|
  {
    hide RegistryOk, OwnersOk, Released, SettleOne, CountOf;
    if order == [] {
      ReleasedSelf(r, s);
    } else {
      var t, rest := order[0], order[1..];
      assert Covered(r.sites[s].table, tokens, t);
      SettleOneOk(r, callers, s, t, CountOf(tokens, t), false);
      SettleOneReleases(r, s, t, CountOf(tokens, t));
      var r1 := SettleOne(r, s, t, CountOf(tokens, t), false);
      forall u | u in rest ensures Covered(r1.sites[s].table, tokens, u) {
        assert u in order && u != t;
        assert Covered(r.sites[s].table, tokens, u);
        assert TokenSettled(r.sites[s].table, r1.sites[s].table, u, 0, false, false);
      }
      SettleEachReleases(r1, callers, s, rest, tokens);
      ReleasedTwice(r, r1, SettleEach(r1, s, rest, tokens, false), s);
    }
  }

  /** Giving up what was added gives the old table back. */
  lemma TableRestored(r0: Registry, r: Registry, q: Registry, s: nat, minted: seq<string>, order: seq<string>)
    requires RegistryOk(r0) && TablesGrown(r0, r, s, minted) && SettledTo(r, q, s, order, minted, false)
    requires Enumerates(order, set t | t in minted)
    ensures q.sites[s].table == r0.sites[s].table
  {
    hide RegistryOk, CountOf;
    forall t ensures t in q.sites[s].table <==> t in r0.sites[s].table
      ensures t in r0.sites[s].table ==> t in q.sites[s].table && q.sites[s].table[t] == r0.sites[s].table[t]
    {
      TokenRestored(r0, r, q, s, minted, order, t);
    }
  }

  lemma TokenRestored(r0: Registry, r: Registry, q: Registry, s: nat, minted: seq<string>, order: seq<string>, t: string)
    requires RegistryOk(r0) && TablesGrown(r0, r, s, minted) && SettledTo(r, q, s, order, minted, false)
    requires Enumerates(order, set t | t in minted)
    ensures t in q.sites[s].table <==> t in r0.sites[s].table
    ensures t in r0.sites[s].table ==> q.sites[s].table[t] == r0.sites[s].table[t]
  {
    hide RegistryOk;
    var n := CountOf(minted, t);
    assert GrownAt(r0.sites[s].table, r.sites[s].table, t, n);
    assert TokenSettled(r.sites[s].table, q.sites[s].table, t, if t in order then n else 0, t in order, false);
    assert t in order <==> n > 0;
    if t in r0.sites[s].table {
      TokenFacts(r0, s, t);
    }
  }

  /** The index is back as well: pairs are lost exactly with the entries that are lost. */
  lemma IndexRestored(r0: Registry, r: Registry, q: Registry, s: nat)
    requires RegistryOk(r0) && RegistryOk(q) && s in r0.sites && s in r.sites && s in q.sites
    requires IndexGrown(r0.sites[s], r.sites[s]) && IndexLess(r, q, s) && q.sites[s].table == r0.sites[s].table
    ensures q.sites[s].index == r0.sites[s].index
  {
    hide AuthoritiesOk, TablesOk;
    SiteAt(r0, s);
    SiteAt(q, s);
    forall k ensures k in q.sites[s].index <==> k in r0.sites[s].index
      ensures k in r0.sites[s].index && k in q.sites[s].index ==> q.sites[s].index[k] == r0.sites[s].index[k]
    {
      if k in r0.sites[s].index {
        assert r0.sites[s].index[k] in r0.sites[s].table;
        assert r.sites[s].index[k] == r0.sites[s].index[k];
      }
    }
  }

  /** With the same owners the same reservations are left. */
  lemma HoldingRestored(w0: World, q: Registry, u: nat, a: string)
    requires Inv(w0) && OwnersOk(q, w0.callers) && PendingAgrees(w0.r, q) && u in w0.r.sites
    requires q.sites.Keys == w0.r.sites.Keys
    requires forall v :: v in q.sites ==> q.sites[v].table == w0.r.sites[v].table
    ensures Holding(q.pending, u, a) == Holding(w0.r.pending, u, a)
  {
    hide RegistryOk, ClaimsOk;
    InvRegistry(w0);
    PendingBelow(w0.r);
    forall i ensures i in Holding(q.pending, u, a) <==> i in Holding(w0.r.pending, u, a) {
      assert OwnedOk(w0.r, w0.callers, i);
      assert OwnedOk(q, w0.callers, i);
      if i in q.pending && q.pending[i].site == u && i !in w0.callers {
        var t :| Owns(q, u, t, i);
        assert Owns(w0.r, u, t, i);
        assert OwnerOk(w0.r, w0.callers, u, t, i);
      }
      if i in w0.r.pending && w0.r.pending[i].site == u && i !in w0.callers {
        var t :| Owns(w0.r, u, t, i);
        assert Owns(q, u, t, i);
        assert OwnerOk(q, w0.callers, u, t, i);
      }
    }
  }

  /** The authorities of a site: which there are, how many reservations each has, and which are committed. */
  ghost predicate AuthorityRestored(r0: Registry, q: Registry, u: nat, a: string) {
    u in r0.sites && u in q.sites
    && (a in q.sites[u].authorities <==> a in r0.sites[u].authorities)
    && (a in r0.sites[u].authorities ==>
          && q.sites[u].authorities[a].inFlight == r0.sites[u].authorities[a].inFlight
          && q.sites[u].authorities[a].committed == r0.sites[u].authorities[a].committed)
  }

  lemma AuthoritiesRestored(w0: World, q: Registry, u: nat, a: string)
    requires Inv(w0) && RegistryOk(q) && CommittedSame(w0.r, q) && u in w0.r.sites
    requires Holding(q.pending, u, a) == Holding(w0.r.pending, u, a)
    ensures AuthorityRestored(w0.r, q, u, a)
  {
    hide TablesOk, ClaimsOk, OwnersOk, Holding, IdsOk, HoldersOk, AuthorityLimits;
    assert CommittedAt(w0.r, u, a) <==> CommittedAt(q, u, a);
    AuthorityPresence(w0.r, u, a);
    AuthorityPresence(q, u, a);
  }

  lemma AuthorityPresence(r: Registry, u: nat, a: string)
    requires RegistryOk(r) && u in r.sites
    ensures a in r.sites[u].authorities <==> CommittedAt(r, u, a) || Holding(r.pending, u, a) != {}
    ensures a in r.sites[u].authorities ==> r.sites[u].authorities[a].inFlight == |Holding(r.pending, u, a)|
  {
    hide TablesOk, IdsOk, HoldersOk, AuthorityLimits;
    if a in r.sites[u].authorities {
      assert AuthorityOk(r.pending, u, a, r.sites[u].authorities[a]);
    } else {
      NobodyHolds(r, u, a);
    }
  }

  /**
   Rolling a session back restores the registry: the tables, the index, every
   authority and the totals are what they were when the session started, whatever
   it claimed, entered and reserved in between, even on tokens other sessions claim.
   The reservations it made have to be finished or handed over by then.
   */
  lemma RollbackRestores(w0: World, w: World, i: nat, order: seq<string>, now: int)
    requires Worked(w0, w, i) && w.callers == w0.callers
    requires Enumerates(order, set t | t in w.sessions[i].minted)
    ensures var s := w.sessions[i].site;
      var q := Settle(w.r, s, w.sessions[i].minted, order, false, now).0;
      && q.sites.Keys == w0.r.sites.Keys
      && (forall u :: u in q.sites ==> q.sites[u].table == w0.r.sites[u].table)
      && q.sites[s].index == w0.r.sites[s].index
      && (forall u, a :: u in q.sites ==> AuthorityRestored(w0.r, q, u, a))
      && q.active == w0.r.active && q.memory == w0.r.memory
  {
    hide RegistryOk, ClaimsOk, OwnersOk, SettleEach, CommittedSame, PendingAgrees, TablesGrown, Covered, IndexLess;
    var s, tokens := w.sessions[i].site, w.sessions[i].minted;
    var q := Settle(w.r, s, tokens, order, false, now).0;
    RollbackTables(w0, w, i, order, now);
    forall u, a | u in q.sites ensures AuthorityRestored(w0.r, q, u, a) {
      HoldingRestored(w0, q, u, a);
      AuthoritiesRestored(w0, q, u, a);
    }
    TotalsRestored(w0.r, q);
  }

  lemma RollbackTables(w0: World, w: World, i: nat, order: seq<string>, now: int)
    requires Worked(w0, w, i) && w.callers == w0.callers
    requires Enumerates(order, set t | t in w.sessions[i].minted)
    ensures var s := w.sessions[i].site;
      var q := Settle(w.r, s, w.sessions[i].minted, order, false, now).0;
      && RegistryOk(q) && OwnersOk(q, w0.callers) && CommittedSame(w0.r, q) && PendingAgrees(w0.r, q)
      && q.sites.Keys == w0.r.sites.Keys
      && (forall u :: u in q.sites ==> q.sites[u].table == w0.r.sites[u].table)
      && s in q.sites && q.sites[s].index == w0.r.sites[s].index
  {
    hide RegistryOk, ClaimsOk, OwnersOk, SettleEach, CommittedSame, PendingAgrees, Covered, IndexLess, IndexGrown, GrownAt;
    var s, tokens := w.sessions[i].site, w.sessions[i].minted;
    var q := Settle(w.r, s, tokens, order, false, now).0;
    assert multiset(tokens) == multiset(tokens) + multiset([]);
    SettleReady(w, i, tokens, [], order);
    if tokens == [] {
      EmptyOrder(order);
    }
    CoveredFacts(w.r.sites[s].table, tokens, order);
    SettleEachOk(w.r, w.callers, s, order, tokens, false);
    SettleEachReleases(w.r, w.callers, s, order, tokens);
    assert q == SettleEach(w.r, s, order, tokens, false) by { SettledEmpty(w.r, s, tokens, order); }
    TableRestored(w0.r, w.r, q, s, tokens, order);
    IndexRestored(w0.r, w.r, q, s);
    CommittedTwice(w0.r, w.r, q);
    AgreesTwice(w0.r, w.r, q);
  }

  lemma EmptyOrder(order: seq<string>)
    requires Enumerates(order, set t: string | t in [])
    ensures order == []
  {
    if order != [] {
      HasElement(order);
    }
  }

  lemma HasElement(order: seq<string>)
    requires order != []
    ensures exists t :: t in order
  {
    assert order[0] in order;
  }

  lemma SettledEmpty(r: Registry, s: nat, tokens: seq<string>, order: seq<string>)
    requires tokens == [] ==> order == []
    ensures tokens == [] ==> SettleEach(r, s, order, tokens, false) == r
  {
  }

  lemma CoveredFacts(table: map<string, Entry>, tokens: seq<string>, order: seq<string>)
    requires forall t :: t in order ==> Covered(table, tokens, t)
    ensures forall t :: t in order ==> t in table && 0 < CountOf(tokens, t) <= table[t].pending
  {
  }

  lemma TotalsRestored(r0: Registry, q: Registry)
    requires RegistryOk(r0) && RegistryOk(q) && q.sites.Keys == r0.sites.Keys
    requires forall u :: u in q.sites ==> q.sites[u].table == r0.sites[u].table
    ensures q.active == r0.active && q.memory == r0.memory
  {
    hide AuthoritiesOk, Sum;
    assert Sizes(q.sites) == Sizes(r0.sites);
    forall u | u in q.sites ensures q.sites[u].memory == r0.sites[u].memory {
      assert SiteOk(q.sites[u]) && SiteOk(r0.sites[u]);
    }
    assert SiteMemories(q.sites) == SiteMemories(r0.sites);
  }

  // ---------- a whole session ----------

  ghost predicate WorkingRun(w0: World, w: World, i: nat, steps: seq<Step>)
    decreases |steps|
  {
    steps == []
    || (Enabled(w, steps[0]) && Working(w0, w, i, steps[0]) && WorkingRun(w0, Next(w, steps[0]), i, steps[1..]))
  }

  lemma {:induction false} WorkRun(w0: World, w: World, i: nat, steps: seq<Step>)
    requires Worked(w0, w, i) && WorkingRun(w0, w, i, steps)
    ensures Runs(w, steps) && Worked(w0, After(w, steps), i)
    decreases |steps|
  {
    hide Worked, Working, Enabled, Next;
    if steps != [] {
      WorkStep(w0, w, i, steps[0]);
      WorkRun(w0, Next(w, steps[0]), i, steps[1..]);
    }
  }

  /** Whatever a session does, rolling it back leaves the registry as it found it. */
  lemma SessionLeavesNothing(w: World, i: nat, steps: seq<Step>, order: seq<string>, now: int)
    requires Inv(w) && OpenSession(w, i) && w.sessions[i].minted == [] && WorkingRun(w, w, i, steps)
    requires Runs(w, steps) ==> (
      && After(w, steps).callers == w.callers
      && (OpenSession(After(w, steps), i) ==> Enumerates(order, set t | t in After(w, steps).sessions[i].minted)))
    ensures Runs(w, steps) && OpenSession(After(w, steps), i)
    ensures var end := After(w, steps); var s := w.sessions[i].site;
      var q := Settle(end.r, s, end.sessions[i].minted, order, false, now).0;
      && q.sites.Keys == w.r.sites.Keys
      && (forall u :: u in q.sites ==> q.sites[u].table == w.r.sites[u].table)
      && q.sites[s].index == w.r.sites[s].index
      && (forall u, a :: u in q.sites ==> AuthorityRestored(w.r, q, u, a))
      && q.active == w.r.active && q.memory == w.r.memory
  {
    hide Inv, Worked, WorkingRun, Runs, After, Settle, AuthorityRestored, Enumerates;
    WorkStarts(w, i);
    WorkRun(w, w, i, steps);
    WorkSite(w, After(w, steps), i);
    SameSite(w, After(w, steps), i);
    RollbackRestores(w, After(w, steps), i, order, now);
  }

  lemma SameSite(w0: World, w: World, i: nat)
    requires Worked(w0, w, i)
    ensures i in w.sessions && i in w0.sessions && w.sessions[i].site == w0.sessions[i].site
  {
    hide Inv, TablesGrown;
  }
}
