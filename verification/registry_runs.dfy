/** Every run of the registry: reservations, rewrite sessions, expiry and closing sites, in any order. */
module RegistryRuns {
  import opened Wrappers
  import opened MapSums
  import opened RegistrySpec
  import opened RegistryAuthorities
  import opened RegistryTables
  import opened RegistrySessions

  datatype Step =
    | NewSite(limits: Limits)
    | Close(s: nat)
    | Begin(s: nat, i: nat)                                     // a rewrite session starts
    | ReserveAuthority(s: nat, authority: string, now: int)
    | FinishReservation(id: nat, commit: bool)                  // by the caller that made it
    | ReuseKey(i: nat, cacheKey: string, now: int)
    | RegisterToken(i: nat, token: string, cacheKey: string, expiresAt: int, now: int, reservation: Option<nat>)
    | SettleTokens(i: nat, tokens: seq<string>, rest: seq<string>, order: seq<string>, publish: bool, now: int)
    | HasToken(s: nat, token: string, now: int)
    | UseToken(s: nat, token: string, now: int)
    | Prune(s: nat, order: seq<string>, now: int)               // order: the map iteration's

  ghost predicate OpenSession(w: World, i: nat) {
    i in w.sessions && w.sessions[i].site in w.r.sites
  }

  ghost predicate PruneOrder(w: World, s: nat, order: seq<string>, now: int) {
    s in w.r.sites && Enumerates(order, Dead(w.r.sites[s], now))
  }

  /**
   What the callers guarantee: sites are not used after they are closed, a new token
   is fresh, a handed-over reservation is the caller's own and of that site, and a
   session settles tokens that it has claimed.
   */
  ghost predicate Enabled(w: World, x: Step) {
    match x
    case NewSite(_) => true
    case Close(s) => s in w.r.sites
    case Begin(s, i) => s in w.r.sites && i !in w.sessions
    case ReserveAuthority(s, _, _) => s in w.r.sites
    case FinishReservation(id, _) => id in w.callers
    case ReuseKey(i, _, _) => OpenSession(w, i)
    case RegisterToken(i, token, _, _, _, res) =>
      && OpenSession(w, i) && token !in w.r.sites[w.sessions[i].site].table
      && (res.Some? ==> res.value in w.callers && res.value in w.r.pending && w.r.pending[res.value].site == w.sessions[i].site)
    case SettleTokens(i, tokens, rest, order, _, _) =>
      && i in w.sessions && multiset(w.sessions[i].minted) == multiset(tokens) + multiset(rest)
      && Enumerates(order, set t | t in tokens)
    case HasToken(s, _, _) => s in w.r.sites
    case UseToken(s, _, _) => s in w.r.sites
    case Prune(s, order, now) => PruneOrder(w, s, order, now)
  }

  function Minting(w: World, i: nat, token: Option<string>, r: Registry): World
    requires i in w.sessions
  {
    if token.None? then w.(r := r)
    else w.(r := r, sessions := w.sessions[i := w.sessions[i].(minted := w.sessions[i].minted + [token.value])])
  }

  function HandedOver(callers: set<nat>, token: string, result: Option<string>, res: Option<nat>): set<nat> {
    if result == Some(token) && res.Some? then callers - {res.value} else callers
  }

  ghost function Next(w: World, x: Step): World
    requires Enabled(w, x)
  {
    match x
    case NewSite(limits) => w.(r := OpenSite(w.r, limits).0)
    case Close(s) => w.(r := CloseSite(w.r, s))
    case Begin(s, i) => w.(sessions := w.sessions[i := Session(s, [])])
    case ReserveAuthority(s, authority, now) =>
      var reserved := Reserve(w.r, s, authority, now);
      if reserved.Granted? then w.(r := reserved.registry, callers := w.callers + {reserved.id}) else w.(r := reserved.registry)
    case FinishReservation(id, commit) => w.(r := Finish(w.r, id, commit), callers := w.callers - {id})
    case ReuseKey(i, cacheKey, now) =>
      var (r, token) := Reuse(w.r, w.sessions[i].site, cacheKey, now);
      Minting(w, i, token, r)
    case RegisterToken(i, token, cacheKey, expiresAt, now, res) =>
      var (r, result) := Register(w.r, w.sessions[i].site, token, cacheKey, expiresAt, now, res);
      Minting(w, i, result, r).(callers := HandedOver(w.callers, token, result, res))
    case SettleTokens(i, tokens, rest, order, publish, now) =>
      var r := Settle(w.r, w.sessions[i].site, tokens, order, publish, now).0;
      w.(r := r, sessions := w.sessions[i := w.sessions[i].(minted := rest)])
    case HasToken(s, token, now) => w.(r := Has(w.r, s, token, now).0)
    case UseToken(s, token, now) => w.(r := Use(w.r, s, token, now).0)
    case Prune(s, order, now) => w.(r := DeleteAll(w.r, s, order))
  }

  // ---------- claims under each kind of change ----------

  /** One more claim of session i on t, and one more pending use of t. */
  lemma ClaimAdded(w: World, i: nat, t: string, q: Registry)
    requires ClaimsOk(w) && OpenSession(w, i) && q.sites.Keys == w.r.sites.Keys
    requires forall u, v :: u in q.sites ==>
      Pending(q.sites[u], v) == Pending(w.r.sites[u], v) + if u == w.sessions[i].site && v == t then 1 else 0
    ensures ClaimsOk(Minting(w, i, Some(t), q))
  {
    hide Sum;
    var x := w.sessions[i];
    var y := x.(minted := x.minted + [t]);
    var after := w.sessions[i := y];
    forall u, v ensures ClaimsExact(q.sites, after, u, v) {
      assert ClaimsExact(w.r.sites, w.sessions, u, v);
      ClaimsStored(w.sessions, i, y, u, v);
    }
  }

  ghost predicate PendingAt(r: Registry, q: Registry, s: nat, tokens: seq<string>, u: nat, v: string) {
    u in q.sites && u in r.sites ==>
      Pending(q.sites[u], v) == Pending(r.sites[u], v) - if u == s then CountOf(tokens, v) else 0
  }

  /** The pending uses of site s went down by the claims in tokens. */
  ghost predicate PendingLess(r: Registry, q: Registry, s: nat, tokens: seq<string>) {
    forall u: nat, v: string :: PendingAt(r, q, s, tokens, u, v)
  }

  /** Session i gives up its claims on tokens, and the entries their pending uses. */
  lemma ClaimsGivenUp(w: World, i: nat, tokens: seq<string>, rest: seq<string>, q: Registry)
    requires ClaimsOk(w) && i in w.sessions && q.sites.Keys == w.r.sites.Keys
    requires multiset(w.sessions[i].minted) == multiset(tokens) + multiset(rest)
    requires PendingLess(w.r, q, w.sessions[i].site, tokens)
    ensures ClaimsOk(w.(r := q, sessions := w.sessions[i := w.sessions[i].(minted := rest)]))
  {
    hide Sum;
    var y := w.sessions[i].(minted := rest);
    var after := w.sessions[i := y];
    forall u, v ensures ClaimsExact(q.sites, after, u, v) {
      assert ClaimsExact(w.r.sites, w.sessions, u, v);
      ClaimsStored(w.sessions, i, y, u, v);
      assert PendingAt(w.r, q, w.sessions[i].site, tokens, u, v);
      assert multiset(w.sessions[i].minted)[v] == CountOf(tokens, v) + multiset(rest)[v];
    }
  }

  lemma ClaimsSame(w: World, q: Registry)
    requires ClaimsOk(w) && q.sites.Keys <= w.r.sites.Keys
    requires forall u, v :: u in q.sites ==> Pending(q.sites[u], v) == Pending(w.r.sites[u], v)
    ensures ClaimsOk(w.(r := q))
  {
    hide Sum;
    forall u, v ensures ClaimsExact(q.sites, w.sessions, u, v) {
      assert ClaimsExact(w.r.sites, w.sessions, u, v);
    }
  }

  /** Session i can only claim what is in the table. */
  lemma ClaimedIsPending(w: World, i: nat, t: string)
    requires ClaimsOk(w) && OpenSession(w, i)
    ensures multiset(w.sessions[i].minted)[t] <= Pending(w.r.sites[w.sessions[i].site], t)
  {
    hide Sum;
    var s := w.sessions[i].site;
    assert ClaimsExact(w.r.sites, w.sessions, s, t);
    ClaimsStored(w.sessions, i, w.sessions[i], s, t);
  }

  // ---------- each step keeps the invariant ----------

  lemma RemovedKeeps(w: World, q: Registry, s: nat)
    requires Inv(w) && RegistryOk(q) && Removed(w.r, q, s)
    ensures Inv(w.(r := q))
  {
    hide RegistryOk, ClaimsOk, OwnersOk;
    ClaimsSame(w, q);
    assert forall u, t, i :: Owns(q, u, t, i) <==> Owns(w.r, u, t, i);
    OwnersSame(w.r, q, w.callers);
  }

  lemma ReuseKeeps(w: World, i: nat, cacheKey: string, now: int)
    requires Inv(w) && OpenSession(w, i)
    ensures Inv(Next(w, ReuseKey(i, cacheKey, now)))
  {
    hide RegistryOk, ClaimsOk, OwnersOk, Reuse, Claim;
    var s := w.sessions[i].site;
    ReuseOk(w.r, s, cacheKey, now);
    var (q, token) := Reuse(w.r, s, cacheKey, now);
    if token.None? {
      RemovedKeeps(w, q, s);
    } else {
      ClaimKeeps(w, i, token.value);
    }
  }

  lemma ClaimKeeps(w: World, i: nat, t: string)
    requires Inv(w) && OpenSession(w, i) && t in w.r.sites[w.sessions[i].site].table
    ensures Inv(Minting(w, i, Some(t), Claim(w.r, w.sessions[i].site, t)))
  {
    hide RegistryOk, ClaimsOk, OwnersOk, Claim;
    var s := w.sessions[i].site;
    var q := Claim(w.r, s, t);
    ClaimOk(w.r, s, t);
    ClaimAdded(w, i, t, q);
    assert forall u, v, j :: Owns(q, u, v, j) <==> Owns(w.r, u, v, j);
    OwnersSame(w.r, q, w.callers);
  }

  lemma RegisterKeeps(w: World, i: nat, token: string, cacheKey: string, expiresAt: int, now: int, res: Option<nat>)
    requires Inv(w) && Enabled(w, RegisterToken(i, token, cacheKey, expiresAt, now, res))
    ensures Inv(Next(w, RegisterToken(i, token, cacheKey, expiresAt, now, res)))
  {
    hide RegistryOk, ClaimsOk, OwnersOk, Register, Claim;
    var s := w.sessions[i].site;
    RegisterOk(w.r, s, token, cacheKey, expiresAt, now, res);
    var (q, result) := Register(w.r, s, token, cacheKey, expiresAt, now, res);
    if result.None? {
      RemovedKeeps(w, q, s);
    } else if result != Some(token) {
      ClaimKeeps(w, i, result.value);
    } else {
      InsertKeeps(w, i, Entry(expiresAt, now, token, cacheKey, 1, false, res), q);
    }
  }

  lemma InsertKeeps(w: World, i: nat, e: Entry, q: Registry)
    requires Inv(w) && OpenSession(w, i) && RegistryOk(q) && q.pending == w.r.pending && e.pending == 1
    requires e.token !in w.r.sites[w.sessions[i].site].table
    requires TableBecomes(w.r, q, w.sessions[i].site, w.r.sites[w.sessions[i].site].table[e.token := e])
    requires e.reservation.Some? ==> (
      && e.reservation.value in w.callers && e.reservation.value in w.r.pending
      && w.r.pending[e.reservation.value].site == w.sessions[i].site)
    ensures Inv(Minting(w, i, Some(e.token), q).(callers := HandedOver(w.callers, e.token, Some(e.token), e.reservation)))
  {
    hide RegistryOk, ClaimsOk, OwnersOk;
    var s := w.sessions[i].site;
    ClaimAdded(w, i, e.token, q);
    if e.reservation.Some? {
      assert forall u, v, j :: Owns(q, u, v, j) <==> Owns(w.r, u, v, j) || (u == s && v == e.token && j == e.reservation.value);
      OwnersMoved(w.r, q, w.callers, s, e.token, e.reservation.value);
    } else {
      assert forall u, v, j :: Owns(q, u, v, j) <==> Owns(w.r, u, v, j);
      OwnersSame(w.r, q, w.callers);
    }
    assert ClaimsOk(Minting(w, i, Some(e.token), q));
    ClaimsCallers(Minting(w, i, Some(e.token), q), HandedOver(w.callers, e.token, Some(e.token), e.reservation));
  }

  lemma ClaimsCallers(w: World, callers: set<nat>)
    ensures ClaimsOk(w.(callers := callers)) == ClaimsOk(w)
  {
  }

  lemma UseKeeps(w: World, s: nat, token: string, now: int)
    requires Inv(w) && s in w.r.sites
    ensures Inv(w.(r := Use(w.r, s, token, now).0))
  {
    hide RegistryOk, ClaimsOk, OwnersOk, Use;
    UseOk(w.r, s, token, now);
    var (q, valid) := Use(w.r, s, token, now);
    if valid {
      ClaimsSame(w, q);
      assert forall u, v, j :: Owns(q, u, v, j) <==> Owns(w.r, u, v, j);
      OwnersSame(w.r, q, w.callers);
    } else {
      RemovedKeeps(w, q, s);
    }
  }

  lemma SettleKeeps(w: World, i: nat, tokens: seq<string>, rest: seq<string>, order: seq<string>, publish: bool, now: int)
    requires Inv(w) && Enabled(w, SettleTokens(i, tokens, rest, order, publish, now))
    ensures Inv(Next(w, SettleTokens(i, tokens, rest, order, publish, now)))
  {
    hide RegistryOk, ClaimsOk, OwnersOk, SettleEach, Settleable;
    var s := w.sessions[i].site;
    if tokens == [] {
      NothingSettled(w, i, tokens, rest);
    } else if s in w.r.sites {
      var publishing := publish && Settleable(w.r.sites[s], tokens, publish, now);
      SettleReady(w, i, tokens, rest, order);
      SettleEachOk(w.r, w.callers, s, order, tokens, publishing);
      var q := SettleEach(w.r, s, order, tokens, publishing);
      SettledPending(w.r, q, s, order, tokens, publishing);
      ClaimsGivenUp(w, i, tokens, rest, q);
    } else {
      ClaimsOfClosed(w, i, rest);
    }
  }

  lemma NothingSettled(w: World, i: nat, tokens: seq<string>, rest: seq<string>)
    requires ClaimsOk(w) && i in w.sessions && tokens == []
    requires multiset(w.sessions[i].minted) == multiset(tokens) + multiset(rest)
    ensures ClaimsOk(w.(sessions := w.sessions[i := w.sessions[i].(minted := rest)]))
  {
    hide ClaimsOk;
    forall u: nat, v: string ensures PendingAt(w.r, w.r, w.sessions[i].site, tokens, u, v) {
      assert CountOf(tokens, v) == 0;
    }
    ClaimsGivenUp(w, i, tokens, rest, w.r);
    assert w.(r := w.r) == w;
  }

  /** A session's own claims are always there to be settled. */
  lemma SettleReady(w: World, i: nat, tokens: seq<string>, rest: seq<string>, order: seq<string>)
    requires Inv(w) && OpenSession(w, i) && multiset(w.sessions[i].minted) == multiset(tokens) + multiset(rest)
    requires Enumerates(order, set t | t in tokens)
    ensures forall t :: t in order ==> Covered(w.r.sites[w.sessions[i].site].table, tokens, t)
  {
    hide RegistryOk, ClaimsOk, OwnersOk;
    forall t | t in order ensures Covered(w.r.sites[w.sessions[i].site].table, tokens, t) {
      ClaimedIsPending(w, i, t);
      assert t in tokens;
      assert multiset(tokens)[t] > 0;
      assert multiset(w.sessions[i].minted)[t] == CountOf(tokens, t) + multiset(rest)[t];
    }
  }

  /** Enough pending uses of t for the claims in tokens. */
  ghost predicate Covered(table: map<string, Entry>, tokens: seq<string>, t: string) {
    t in table && 0 < CountOf(tokens, t) <= table[t].pending
  }

  lemma SettledPending(r: Registry, q: Registry, s: nat, order: seq<string>, tokens: seq<string>, publishing: bool)
    requires SettledTo(r, q, s, order, tokens, publishing) && Enumerates(order, set t | t in tokens)
    requires forall t :: t in order ==> Covered(r.sites[s].table, tokens, t)
    ensures PendingLess(r, q, s, tokens)
  {
    forall u: nat, v: string ensures PendingAt(r, q, s, tokens, u, v) {
      if u == s {
        TokenPending(r, q, s, order, tokens, publishing, v);
      }
    }
  }

  lemma TokenPending(r: Registry, q: Registry, s: nat, order: seq<string>, tokens: seq<string>, publishing: bool, v: string)
    requires SettledTo(r, q, s, order, tokens, publishing) && Enumerates(order, set t | t in tokens)
    requires v in order ==> Covered(r.sites[s].table, tokens, v)
    ensures Pending(q.sites[s], v) == Pending(r.sites[s], v) - CountOf(tokens, v)
  {
    var count := if v in order then CountOf(tokens, v) else 0;
    assert TokenSettled(r.sites[s].table, q.sites[s].table, v, count, v in order, publishing);
    if v !in order {
      assert v !in tokens;
      assert multiset(tokens)[v] == 0;
    }
  }

  lemma ClaimsOfClosed(w: World, i: nat, rest: seq<string>)
    requires ClaimsOk(w) && i in w.sessions && w.sessions[i].site !in w.r.sites
    ensures ClaimsOk(w.(sessions := w.sessions[i := w.sessions[i].(minted := rest)]))
  {
    hide Sum;
    var y := w.sessions[i].(minted := rest);
    var after := w.sessions[i := y];
    forall u, v ensures ClaimsExact(w.r.sites, after, u, v) {
      assert ClaimsExact(w.r.sites, w.sessions, u, v);
      ClaimsStored(w.sessions, i, y, u, v);
    }
  }

  lemma BeginKeeps(w: World, s: nat, i: nat)
    requires Inv(w) && s in w.r.sites && i !in w.sessions
    ensures Inv(Next(w, Begin(s, i)))
  {
    hide Sum, RegistryOk, OwnersOk;
    SiteBelow(w.r, s);
    var after := w.sessions[i := Session(s, [])];
    forall u, v ensures ClaimsExact(w.r.sites, after, u, v) {
      assert ClaimsExact(w.r.sites, w.sessions, u, v);
      ClaimsStored(w.sessions, i, Session(s, []), u, v);
    }
  }

  lemma SiteBelow(r: Registry, s: nat)
    requires RegistryOk(r) && s in r.sites
    ensures s < r.nextId
  {
  }

  lemma ReserveKeeps(w: World, s: nat, authority: string, now: int)
    requires Inv(w) && s in w.r.sites
    ensures Inv(Next(w, ReserveAuthority(s, authority, now)))
  {
    hide AuthoritiesOk, TablesOk, ClaimsOk, OwnersOk, Reserve;
    var reserved := Reserve(w.r, s, authority, now);
    var q := reserved.registry;
    ReserveOk(w.r, s, authority, now);
    ReserveFrame(w.r, s, authority, now);
    TablesOkKept(w.r, q);
    ClaimsSame(w, q);
    assert forall u, v, j :: Owns(q, u, v, j) <==> Owns(w.r, u, v, j);
    if reserved.Granted? {
      ReservePending(w.r, s, authority, now);
      OwnersCaller(w.r, q, w.callers, w.callers + {reserved.id}, reserved.id);
      ClaimsCallers(w.(r := q), w.callers + {reserved.id});
    } else {
      OwnersSame(w.r, q, w.callers);
    }
  }

  lemma ReserveFrame(r: Registry, s: nat, authority: string, now: int)
    requires s in r.sites && AuthoritiesOk(r)
    ensures var x := Reserve(r, s, authority, now);
      && TablesKept(r, x.registry) && x.registry.sites.Keys == r.sites.Keys && x.registry.nextId >= r.nextId
      && (x.Refused? ==> x.registry.pending == r.pending)
  {
    hide AuthoritiesOk, RateWindow, HeldBy;
  }

  lemma ReservePending(r: Registry, s: nat, authority: string, now: int)
    requires s in r.sites && AuthoritiesOk(r) && Reserve(r, s, authority, now).Granted?
    ensures var x := Reserve(r, s, authority, now);
      x.id !in r.pending && x.id in x.registry.pending && x.registry.pending - {x.id} == r.pending
  {
    hide CountsOk, HoldersOk, AuthorityLimits, RateWindow, HeldBy;
    var x := Reserve(r, s, authority, now);
    assert IdsOk(r);
    PendingGrew(r.pending, x.registry.pending, x.id);
  }

  lemma PendingGrew(before: map<nat, Reservation>, after: map<nat, Reservation>, id: nat)
    requires id !in before && id in after && after == before[id := after[id]]
    ensures after - {id} == before
  {
  }

  lemma FinishKeeps(w: World, id: nat, commit: bool)
    requires Inv(w) && id in w.callers
    ensures Inv(Next(w, FinishReservation(id, commit)))
  {
    hide AuthoritiesOk, TablesOk, ClaimsOk, OwnersOk, Finish;
    var q := Finish(w.r, id, commit);
    FinishOk(w.r, id, commit);
    FinishFrame(w.r, id, commit);
    TablesOkKept(w.r, q);
    ClaimsSame(w, q);
    assert forall u, v, j :: Owns(q, u, v, j) <==> Owns(w.r, u, v, j);
    OwnersCaller(w.r, q, w.callers, w.callers - {id}, id);
    ClaimsCallers(w.(r := q), w.callers - {id});
  }

  lemma CloseKeeps(w: World, s: nat)
    requires Inv(w) && s in w.r.sites
    ensures Inv(Next(w, Close(s)))
  {
    hide AuthoritiesOk, TablesOk, ClaimsOk;
    var q := CloseSite(w.r, s);
    CloseOk(w.r, s);
    ClosedTotals(w.r, s);
    ClaimsSame(w, q);
    forall u, t, i ensures OwnerOk(q, w.callers, u, t, i) {
      assert OwnerOk(w.r, w.callers, u, t, i);
      assert forall u', t' :: Owns(q, u', t', i) ==> Owns(w.r, u', t', i);
    }
    forall i ensures OwnedOk(q, w.callers, i) {
      assert OwnedOk(w.r, w.callers, i);
      if i in q.pending && q.pending[i].site in q.sites && i !in w.callers {
        var t :| Owns(w.r, w.r.pending[i].site, t, i);
        assert Owns(q, q.pending[i].site, t, i);
      }
    }
  }

  lemma NewSiteKeeps(w: World, limits: Limits)
    requires Inv(w)
    ensures Inv(Next(w, NewSite(limits)))
  {
    hide AuthoritiesOk, TablesOk, OwnersOk, Sum;
    var q := OpenSite(w.r, limits).0;
    FreshSite(w.r);
    OpenOk(w.r, limits);
    OpenedTotals(w.r, limits);
    NewSiteOwners(w.r, limits, w.callers);
    forall u, v ensures ClaimsExact(q.sites, w.sessions, u, v) {
      assert ClaimsExact(w.r.sites, w.sessions, u, v);
      if u == w.r.nextId {
        SumZero(ClaimsOn(w.sessions, u, v));
      }
    }
  }

  lemma FreshSite(r: Registry)
    requires RegistryOk(r)
    ensures r.nextId !in r.sites
  {
  }

  lemma NewSiteOwners(r: Registry, limits: Limits, callers: set<nat>)
    requires RegistryOk(r) && OwnersOk(r, callers)
    ensures OwnersOk(OpenSite(r, limits).0, callers)
  {
    hide TablesOk, CountsOk, HoldersOk, AuthorityLimits;
    var q := OpenSite(r, limits).0;
    assert IdsOk(r);
    assert forall u, t, i :: Owns(q, u, t, i) <==> Owns(r, u, t, i);
    forall u, t, i ensures OwnerOk(q, callers, u, t, i) {
      assert OwnerOk(r, callers, u, t, i);
    }
    forall i ensures OwnedOk(q, callers, i) {
      assert OwnedOk(r, callers, i);
      if i in q.pending && q.pending[i].site in q.sites && i !in callers {
        assert q.pending[i].site != r.nextId;
        var t :| Owns(r, r.pending[i].site, t, i);
        assert Owns(q, q.pending[i].site, t, i);
      }
    }
  }

  lemma NextPrune(w: World, x: Step)
    requires x.Prune? && Enabled(w, x)
    ensures Next(w, x) == w.(r := DeleteAll(w.r, x.s, x.order)) && PruneOrder(w, x.s, x.order, x.now)
  {
    hide DeleteAll, PruneOrder;
  }

  lemma PruneKeeps(w: World, x: Step)
    requires Inv(w) && x.Prune? && Enabled(w, x)
    ensures Inv(Next(w, x))
  {
    hide Inv, DeleteAll, PruneOrder, Next, Enabled;
    NextPrune(w, x);
    PrunedInv(w, x.s, x.order, x.now);
  }

  lemma PrunedInv(w: World, s: nat, order: seq<string>, now: int)
    requires Inv(w) && PruneOrder(w, s, order, now)
    ensures Inv(w.(r := DeleteAll(w.r, s, order)))
  {
    hide RegistryOk, Inv, DeleteAll, Dead, Enumerates, Removed;
    PruneRemoves(w, s, order, now);
    RemovedKeeps(w, DeleteAll(w.r, s, order), s);
  }

  lemma PruneRemoves(w: World, s: nat, order: seq<string>, now: int)
    requires Inv(w) && s in w.r.sites && Enumerates(order, Dead(w.r.sites[s], now))
    ensures RegistryOk(DeleteAll(w.r, s, order)) && Removed(w.r, DeleteAll(w.r, s, order), s)
  {
    hide RegistryOk, Inv, DeleteAll, Dead, Removed, Enumerates;
    InvRegistry(w);
    PruneKeepsClaimed(w.r, s, order, now);
  }

  lemma InvRegistry(w: World)
    requires Inv(w)
    ensures RegistryOk(w.r)
  {
  }

  lemma HasKeeps(w: World, x: Step)
    requires Inv(w) && Enabled(w, x) && x.HasToken?
    ensures Inv(Next(w, x))
  {
    hide RegistryOk, ClaimsOk, OwnersOk, Has;
    HasOk(w.r, x.s, x.token, x.now);
    RemovedKeeps(w, Has(w.r, x.s, x.token, x.now).0, x.s);
  }

  /** Accounting, ownership and limits hold after every step. */
  lemma StepKeeps(w: World, x: Step)
    requires Inv(w) && Enabled(w, x)
    ensures Inv(Next(w, x))
  {
    hide Inv, Next;
    match x
    case NewSite(limits) => NewSiteKeeps(w, limits);
    case Close(s) => CloseKeeps(w, s);
    case Begin(s, i) => BeginKeeps(w, s, i);
    case ReserveAuthority(s, authority, now) => ReserveKeeps(w, s, authority, now);
    case FinishReservation(id, commit) => FinishKeeps(w, id, commit);
    case ReuseKey(i, cacheKey, now) => ReuseKeeps(w, i, cacheKey, now);
    case RegisterToken(i, token, cacheKey, expiresAt, now, res) => RegisterKeeps(w, i, token, cacheKey, expiresAt, now, res);
    case SettleTokens(i, tokens, rest, order, publish, now) => SettleKeeps(w, i, tokens, rest, order, publish, now);
    case HasToken(_, _, _) => HasKeeps(w, x);
    case UseToken(_, _, _) => UseKeepsStep(w, x);
    case Prune(_, _, _) => PruneKeeps(w, x);
  }

  lemma UseKeepsStep(w: World, x: Step)
    requires Inv(w) && Enabled(w, x) && x.UseToken?
    ensures Inv(Next(w, x))
  {
    hide Inv, Use;
    UseKeeps(w, x.s, x.token, x.now);
  }

  // ---------- runs ----------

  function Fresh(): World {
    World(Registry(map[], map[], 0, 0, [], map[], 0), map[], {})
  }

  ghost predicate Runs(w: World, steps: seq<Step>)
    decreases |steps|
  {
    steps == [] || (Enabled(w, steps[0]) && Runs(Next(w, steps[0]), steps[1..]))
  }

  ghost function After(w: World, steps: seq<Step>): World
    requires Runs(w, steps)
    decreases |steps|
  {
    if steps == [] then w else After(Next(w, steps[0]), steps[1..])
  }

  lemma FreshOk()
    ensures Inv(Fresh())
  {
    assert Sizes(map[]) == map[] && SiteMemories(map[]) == map[];
    SumZero<nat>(map[]);
    forall a ensures HolderOk(Fresh().r.sites, Fresh().r.holders, a) {
      assert HoldersOf(Fresh().r.sites, a) == {};
    }
  }

  /** Every state that any run can reach is accounted for exactly. */
  lemma {:induction false} ReachableOk(w: World, steps: seq<Step>)
    requires Inv(w) && Runs(w, steps)
    ensures Inv(After(w, steps))
    decreases |steps|
  {
    hide Inv, Next;
    if steps != [] {
      StepKeeps(w, steps[0]);
      ReachableOk(Next(w, steps[0]), steps[1..]);
    }
  }
}
