/** The other steps taken in both runs: settling, using, pruning, authorities and sites. */
module RegistryShared {
  import opened Wrappers
  import opened MapSums
  import opened RegistrySpec
  import opened RegistryAuthorities
  import opened RegistryTables
  import opened RegistrySessions
  import opened RegistryRuns
  import opened RegistryTransactions
  import opened RegistryCore
  import opened RegistryCells
  import opened RegistryEffects
  import opened RegistryBeside
  import opened RegistryLookup
  import opened RegistryOwn
  import opened RegistryOthers

  // ---------- reservations handed back ----------

  lemma LetGoOk(x: Site, gone: set<string>)
    requires SiteOk(x)
    ensures SiteOk(LetGo(x, gone)) && |LetGo(x, gone).table| == |x.table|
  {
    hide Sum, LetGo, Memories, EntriesOk, IndexOk;
    LetGoFrame(x, gone);
    LetGoTable(x, gone);
    LetGoMemories(x, gone);
    NoEntries(x.table, LetGo(x, gone).table);
  }

  lemma NoEntries(a: map<string, Entry>, b: map<string, Entry>)
    requires a.Keys == b.Keys
    ensures |a| == |b| && (a == map[] <==> b == map[])
  {
    assert |a| == |a.Keys| && |b| == |b.Keys|;
  }

  lemma LetGoTable(x: Site, gone: set<string>)
    requires EntriesOk(x.table) && IndexOk(x)
    ensures EntriesOk(LetGo(x, gone).table) && IndexOk(LetGo(x, gone)) && LetGo(x, gone).table.Keys == x.table.Keys
  {
    forall t | t in x.table ensures EntryOk(t, LetGo(x, gone).table[t]) {
      assert EntryOk(t, x.table[t]);
    }
  }

  lemma LetGoMemories(x: Site, gone: set<string>)
    ensures Memories(LetGo(x, gone).table) == Memories(x.table)
  {
  }

  lemma HandBackRegistry(r: Registry, s: nat, gone: set<string>)
    requires RegistryOk(r) && s in r.sites
    ensures RegistryOk(WithSite(r, s, LetGo(r.sites[s], gone)))
    ensures Core(WithSite(r, s, LetGo(r.sites[s], gone))) == Core(r)
  {
    hide AuthoritiesOk, TablesOk, SiteOk, LetGo, Core;
    var q := WithSite(r, s, LetGo(r.sites[s], gone));
    SiteAt(r, s);
    LetGoOk(r.sites[s], gone);
    LetGoFrame(r.sites[s], gone);
    SiteStored(r, s, LetGo(r.sites[s], gone), r.active, r.memory);
    AuthoritiesKept(r, q);
    CoreSame(r, q);
  }

  lemma LetGoFrame(x: Site, gone: set<string>)
    ensures var y := LetGo(x, gone);
      && y.limits == x.limits && y.authorities == x.authorities && y.index == x.index && y.memory == x.memory
      && y.recent == x.recent && Blank(y) == Blank(x)
  {
  }

  /** Handing reservations back keeps every count exact. */
  lemma HandBackInv(g: World, s: nat, gone: set<string>)
    requires Inv(g) && s in g.r.sites
    ensures Inv(HandBack(g, s, gone)) && Core(HandBack(g, s, gone).r) == Core(g.r)
    ensures Elsewhere(g.r, HandBack(g, s, gone).r, s) && g.callers <= HandBack(g, s, gone).callers
  {
    hide RegistryOk, ClaimsOk, OwnersOk, Core;
    var q := HandBack(g, s, gone);
    HandBackRegistry(g.r, s, gone);
    ClaimsSame(g, q.r);
    ClaimsCallers(g.(r := q.r), q.callers);
    assert g.(r := q.r).(callers := q.callers) == q;
    HandBackOwners(g, s, gone);
  }

  lemma HandBackOwners(g: World, s: nat, gone: set<string>)
    requires OwnersOk(g.r, g.callers) && s in g.r.sites
    ensures OwnersOk(HandBack(g, s, gone).r, HandBack(g, s, gone).callers)
  {
    var q := HandBack(g, s, gone);
    forall id | id in q.callers ensures id in q.r.pending {
      if id !in g.callers {
        var t :| t in gone && t in g.r.sites[s].table && g.r.sites[s].table[t].reservation == Some(id);
        assert OwnerOk(g.r, g.callers, s, t, id);
      }
    }
    forall u, t, id ensures OwnerOk(q.r, q.callers, u, t, id) {
      assert OwnerOk(g.r, g.callers, u, t, id);
      if Owns(q.r, u, t, id) {
        assert Owns(g.r, u, t, id);
        forall v | v in gone && Owns(g.r, s, v, id) ensures u == s && t == v {
        }
        assert forall u', t' :: Owns(q.r, u', t', id) ==> Owns(g.r, u', t', id);
      }
    }
    forall id ensures OwnedOk(q.r, q.callers, id) {
      assert OwnedOk(g.r, g.callers, id);
      if id in g.r.pending && g.r.pending[id].site in g.r.sites && id !in q.callers {
        var t :| Owns(g.r, g.r.pending[id].site, t, id);
        assert Owns(q.r, g.r.pending[id].site, t, id);
      }
    }
  }

  // ---------- settling ----------

  lemma SettleIsEach(w: World, x: Step)
    requires x.SettleTokens? && x.i in w.sessions && w.sessions[x.i].site in w.r.sites
    requires Enumerates(x.order, set t | t in x.tokens)
    ensures var s := w.sessions[x.i].site;
      Settle(w.r, s, x.tokens, x.order, x.publish, x.now).0 == SettleEach(w.r, s, x.order, x.tokens, Publishes(w, x))
  {
    hide Settleable;
    if x.tokens == [] {
      EmptyOrder(x.order);
    }
  }

  lemma SettledOnly(x: Site, y: Site, r: Registry, q: Registry, s: nat, order: seq<string>, tokens: seq<string>, publishing: bool)
    requires s in r.sites && s in q.sites && x == r.sites[s] && y == q.sites[s] && Elsewhere(r, q, s)
    requires AllSettled(x, y, order, tokens, publishing)
    ensures OwnsNoMore(r, q)
  {
    hide CountOf, IndexThinned;
    forall u, v, id | Owns(q, u, v, id) ensures Owns(r, u, v, id) {
      if u == s {
        assert TokenSettled(x.table, y.table, v, if v in order then CountOf(tokens, v) else 0, v in order, publishing);
      } else {
        assert SameShow(r.sites[u], q.sites[u]);
      }
    }
  }

  /** Both may publish or neither: the tokens another session has claimed are in both tables, with the same life. */
  lemma PublishesBoth(w: World, g: World, i: nat, x: Step, time: int, gone: set<string>)
    requires Rel(w, g, i, time) && x.SettleTokens? && x.i in w.sessions && x.i in g.sessions && w.sessions[x.i] == g.sessions[x.i]
    requires w.sessions[x.i].site in w.r.sites && w.sessions[x.i].site in g.r.sites
    requires var s := w.sessions[x.i].site;
      && (forall t :: t in x.tokens ==> Covered(w.r.sites[s].table, x.tokens, t) && Covered(g.r.sites[s].table, x.tokens, t))
    ensures Publishes(HandBack(g, w.sessions[x.i].site, gone), x) == Publishes(w, x) == Publishes(g, x)
  {
    hide Inv, Core, HeldAt, CountOf;
    var s := w.sessions[x.i].site;
    RelSite(w, g, i, time, s);
    var a, b, c := w.r.sites[s], g.r.sites[s], HandBack(g, s, gone).r.sites[s];
    forall t | t in x.tokens
      ensures t in a.table && t in b.table && t in c.table && a.table[t].pending >= CountOf(x.tokens, t) && b.table[t].pending >= CountOf(x.tokens, t)
      ensures c.table[t].pending == b.table[t].pending
      ensures EntryValid(a.table[t], x.now, a.limits.idle) == EntryValid(b.table[t], x.now, b.limits.idle)
      ensures EntryValid(c.table[t], x.now, c.limits.idle) == EntryValid(b.table[t], x.now, b.limits.idle)
    {
      assert Covered(a.table, x.tokens, t) && Covered(b.table, x.tokens, t);
      assert Cell(a, b, t, CountOf(Mine(w.sessions, i, s), t), time);
    }
  }

  lemma ReadyBoth(w: World, g: World, i: nat, x: Step, time: int)
    requires Rel(w, g, i, time) && x.SettleTokens? && x.i != i && Enabled(w, x) && OpenSession(w, x.i)
    ensures OpenSession(g, x.i) && g.sessions[x.i] == w.sessions[x.i]
    ensures var s := w.sessions[x.i].site;
      && (forall t :: t in x.order <==> t in x.tokens)
      && (forall t :: t in x.order ==> Covered(w.r.sites[s].table, x.tokens, t) && Covered(g.r.sites[s].table, x.tokens, t))
  {
    hide Rel, Inv, Covered;
    RelParts(w, g, i, time);
    OtherSession(w, g, i, time, x.i);
    SettleReady(w, x.i, x.tokens, x.rest, x.order);
    SettleReady(g, x.i, x.tokens, x.rest, x.order);
  }

  lemma OtherSettle(w: World, g: World, g1: World, i: nat, x: Step, time: int)
    requires Rel(w, g, i, time) && x.SettleTokens? && x.i != i && Enabled(w, x) && OtherStep(w, g, x, g1, time)
    requires Inv(Next(w, x))
    ensures Rel(Next(w, x), g1, i, time)
  {
    hide Rel, Inv, Covered, Settle, HandBack, Enumerates, CountOf, Outlived;
    RelParts(w, g, i, time);
    var s := w.sessions[x.i].site;
    if s in w.r.sites {
      ReadyBoth(w, g, i, x, time);
      var gone := if Publishes(w, x) then {} else Outlived(w, g, s, x.tokens);
      HandBackInv(g, s, gone);
      PublishesBoth(w, g, i, x, time, gone);
      HandBackNothing(g, s);
      HandBackSessions(g, s, gone);
      var g0 := HandBack(g, s, gone);
      assert Moves(g0, x, g1);
      StepKeeps(g0, x);
      SettleIsEach(w, x);
      SettleIsEach(g0, x);
      SettleBoth(w, Next(w, x), g, g0, g1, i, x, gone, time);
    } else {
      OtherSession(w, g, i, time, x.i);
      StepKeeps(g, x);
      ClosedSettle(w, g, x);
      SettledClosed(w, Next(w, x), g, g1, i, x, time);
    }
  }

  lemma HandBackNothing(g: World, s: nat)
    requires s in g.r.sites
    ensures HandBack(g, s, {}) == g
  {
    var x := g.r.sites[s];
    assert LetGo(x, {}).table == x.table;
    assert LetGo(x, {}) == x;
    assert g.r.sites[s := x] == g.r.sites;
    assert ReservationsOf(g.r, s, {}) == {};
  }

  lemma HandBackSessions(g: World, s: nat, gone: set<string>)
    requires s in g.r.sites
    ensures HandBack(g, s, gone).sessions == g.sessions && s in HandBack(g, s, gone).r.sites
    ensures HandBack(g, s, gone).r.sites[s] == LetGo(g.r.sites[s], gone)
    ensures HandBack(g, s, gone).callers == g.callers + ReservationsOf(g.r, s, gone)
  {
  }

  lemma ClosedSettle(w: World, g: World, x: Step)
    requires x.SettleTokens? && Enabled(w, x) && Enabled(g, x) && w.sessions[x.i] == g.sessions[x.i]
    requires w.sessions[x.i].site !in w.r.sites && w.sessions[x.i].site !in g.r.sites
    ensures Next(w, x) == w.(sessions := w.sessions[x.i := w.sessions[x.i].(minted := x.rest)])
    ensures Next(g, x) == g.(sessions := g.sessions[x.i := g.sessions[x.i].(minted := x.rest)])
  {
  }

  lemma SettledClosed(w: World, w1: World, g: World, g1: World, i: nat, x: Step, time: int)
    requires Rel(w, g, i, time) && x.SettleTokens? && x.i != i && x.i in w.sessions && x.i in g.sessions
    requires w.sessions[x.i] == g.sessions[x.i] && Inv(w1) && Inv(g1)
    requires w1 == w.(sessions := w.sessions[x.i := w.sessions[x.i].(minted := x.rest)])
    requires g1 == g.(sessions := g.sessions[x.i := g.sessions[x.i].(minted := x.rest)])
    ensures Rel(w1, g1, i, time)
  {
    hide Inv, Core, HeldAt, SiteRel, Mine, Idle;
    OtherMine(w.sessions, i, x.i, w1.sessions[x.i]);
    forall u | u in w.r.sites ensures SiteRelAt(w1, g1, i, u, time) {
      RelSite(w, g, i, time, u);
    }
    forall u, t ensures HeldAt(w1, g1, u, t) {
      assert HeldAt(w, g, u, t);
      HeldEqual(w, w1, g, g1, u, t);
    }
  }

  lemma HeldEqual(w: World, w1: World, g: World, g1: World, u: nat, t: string)
    requires HeldAt(w, g, u, t) && w1.r == w.r && g1.r == g.r && g1.callers == g.callers
    ensures HeldAt(w1, g1, u, t)
  {
  }

  lemma SettleBoth(w: World, w1: World, g: World, g0: World, g1: World, i: nat, x: Step, gone: set<string>, time: int)
    requires Rel(w, g, i, time) && x.SettleTokens? && x.i != i && Enabled(w, x) && OpenSession(w, x.i) && Inv(w1) && Inv(g1)
    requires var s := w.sessions[x.i].site;
      && s in g.r.sites && g0 == HandBack(g, s, gone) && Inv(g0) && Core(g0.r) == Core(g.r) && Elsewhere(g.r, g0.r, s)
      && gone == (if Publishes(w, x) then {} else Outlived(w, g, s, x.tokens))
      && (forall t :: t in x.order <==> t in x.tokens)
      && (forall t :: t in x.order ==> Covered(w.r.sites[s].table, x.tokens, t) && Covered(g.r.sites[s].table, x.tokens, t))
      && w1 == w.(r := SettleEach(w.r, s, x.order, x.tokens, Publishes(w, x)),
                  sessions := w.sessions[x.i := w.sessions[x.i].(minted := x.rest)])
      && g1 == g0.(r := SettleEach(g0.r, s, x.order, x.tokens, Publishes(w, x)),
                   sessions := g.sessions[x.i := w.sessions[x.i].(minted := x.rest)])
    ensures Rel(w1, g1, i, time)
  {
    hide Inv, Core, HeldAt, SiteRel, Mine, Idle, SettleEach, RegistryOk, OwnersOk, CountOf, AllSettled, SiteRelAt, Owns, Elsewhere,
         OwnsNoMore, Outlived, HandBack, Covered, Settleable;
    var s, pub := w.sessions[x.i].site, Publishes(w, x);
    RelParts(w, g, i, time);
    RelSite(w, g, i, time, s);
    InvRegistry(w1);
    InvRegistry(g1);
    InvRegistry(g0);
    InvOwners(g0);
    HandBackSessions(g, s, gone);
    CoveredAfter(g.r.sites[s], gone, x.order, x.tokens);
    SettleEffect(w.r, w.callers, s, x.order, x.tokens, pub);
    SettleEffect(g0.r, g0.callers, s, x.order, x.tokens, pub);
    OtherMine(w.sessions, i, x.i, w1.sessions[x.i]);
    SettleCores(w, g, g0, i, x, gone, time);
    SettleSites(w, w1, g, g0, g1, i, x, gone, time);
    ElsewhereTwice(g.r, g0.r, g1.r, s);
    AtSite(w, w1, g, g1, i, s, time, time);
    SettledOnly(w.r.sites[s], w1.r.sites[s], w.r, w1.r, s, x.order, x.tokens, pub);
    SettleHeld(w, w1, g, g0, g1, i, x, gone, time);
  }

  lemma InvOwners(w: World)
    requires Inv(w)
    ensures OwnersOk(w.r, w.callers)
  {
    hide OwnersOk, RegistryOk, ClaimsOk;
  }

  lemma CoveredAfter(x: Site, gone: set<string>, order: seq<string>, tokens: seq<string>)
    requires forall t :: t in order ==> Covered(x.table, tokens, t)
    ensures forall t :: t in order ==> Covered(LetGo(x, gone).table, tokens, t)
  {
    hide CountOf;
    forall t | t in order ensures Covered(LetGo(x, gone).table, tokens, t) {
      assert Covered(x.table, tokens, t);
    }
  }

  lemma AlikeCell(a: Site, b: Site, gone: set<string>, t: string, n: nat, count: nat, publishing: bool, time: int)
    requires Cell(a, b, t, n, time) && t in a.table && t in b.table && EntryOk(t, a.table[t]) && EntryOk(t, b.table[t])
    requires count <= b.table[t].pending && (publishing ==> t !in gone)
    requires !publishing ==> (t in gone <==> !b.table[t].published && b.table[t].pending == count < a.table[t].pending)
    ensures SettledAlike(a.table[t], LetGo(b, gone).table[t], count, publishing)
  {
  }

  lemma SettleCores(w: World, g: World, g0: World, i: nat, x: Step, gone: set<string>, time: int)
    requires Rel(w, g, i, time) && x.SettleTokens? && Enabled(w, x) && OpenSession(w, x.i)
    requires var s := w.sessions[x.i].site;
      && s in g.r.sites && s in g0.r.sites && Inv(g0) && Core(g0.r) == Core(g.r) && g0.r.sites[s] == LetGo(g.r.sites[s], gone)
      && gone == (if Publishes(w, x) then {} else Outlived(w, g, s, x.tokens))
      && (forall t :: t in x.order <==> t in x.tokens)
      && (forall t :: t in x.order ==> Covered(w.r.sites[s].table, x.tokens, t) && Covered(g.r.sites[s].table, x.tokens, t))
    ensures var s, pub := w.sessions[x.i].site, Publishes(w, x);
      Core(SettleEach(w.r, s, x.order, x.tokens, pub)) == Core(SettleEach(g0.r, s, x.order, x.tokens, pub))
  {
    hide Inv, Core, HeldAt, SiteRel, SettleEach, RegistryOk, OwnersOk, CountOf, LetGo, SettledAlike, Settleable, Cell, CoreSettledAll;
    var s, pub := w.sessions[x.i].site, Publishes(w, x);
    RelParts(w, g, i, time);
    RelSite(w, g, i, time, s);
    InvRegistry(g0);
    InvOwners(g0);
    CoveredAfter(g.r.sites[s], gone, x.order, x.tokens);
    CoreSettleEach(w.r, w.callers, s, x.order, x.tokens, pub);
    CoreSettleEach(g0.r, g0.callers, s, x.order, x.tokens, pub);
    var a, b := w.r.sites[s].table, g0.r.sites[s].table;
    forall t | t in x.order ensures t in a && t in b && SettledAlike(a[t], b[t], CountOf(x.tokens, t), pub) {
      assert Covered(w.r.sites[s].table, x.tokens, t) && Covered(g.r.sites[s].table, x.tokens, t);
      assert Covered(b, x.tokens, t);
      CellAt(w.r.sites[s], g.r.sites[s], Mine(w.sessions, i, s), time, t);
      assert EntryOk(t, w.r.sites[s].table[t]) && EntryOk(t, g.r.sites[s].table[t]);
      AlikeCell(w.r.sites[s], g.r.sites[s], gone, t, CountOf(Mine(w.sessions, i, s), t), CountOf(x.tokens, t), pub, time);
    }
    CoreSettledSame(Core(w.r), a, b, x.order, x.tokens, pub);
  }

  lemma CellAt(a: Site, b: Site, mine: seq<string>, time: int, t: string)
    requires SiteRel(a, b, mine, time)
    ensures Cell(a, b, t, CountOf(mine, t), time)
  {
    hide Cell, CountOf;
  }

  lemma SettleSites(w: World, w1: World, g: World, g0: World, g1: World, i: nat, x: Step, gone: set<string>, time: int)
    requires Rel(w, g, i, time) && x.SettleTokens? && x.i != i && Enabled(w, x) && OpenSession(w, x.i) && RegistryOk(g1.r)
    requires i in w1.sessions && Mine(w1.sessions, i, w.sessions[x.i].site) == Mine(w.sessions, i, w.sessions[x.i].site)
    requires var s := w.sessions[x.i].site;
      && s in g.r.sites && s in g0.r.sites && s in w1.r.sites && s in g1.r.sites && g0.r.sites[s] == LetGo(g.r.sites[s], gone)
      && gone == (if Publishes(w, x) then {} else Outlived(w, g, s, x.tokens))
      && (forall t :: t in x.order <==> t in x.tokens)
      && (forall t :: t in x.order ==> Covered(w.r.sites[s].table, x.tokens, t) && Covered(g.r.sites[s].table, x.tokens, t))
      && AllSettled(w.r.sites[s], w1.r.sites[s], x.order, x.tokens, Publishes(w, x))
      && AllSettled(g0.r.sites[s], g1.r.sites[s], x.order, x.tokens, Publishes(w, x))
    ensures SiteRelAt(w1, g1, i, w.sessions[x.i].site, time)
  {
    hide Inv, Core, HeldAt, SiteRel, RegistryOk, CountOf, AllSettled, Settleable, Mine, LetGo;
    var s := w.sessions[x.i].site;
    RelSite(w, g, i, time, s);
    SiteFacts(g1.r, s);
    SettledBoth(w.r.sites[s], g.r.sites[s], w1.r.sites[s], g1.r.sites[s], gone, Mine(w.sessions, i, s), time, x.order, x.tokens,
                Publishes(w, x));
  }

  /** What the other session loses while the session's claims keep it has handed its reservation back. */
  lemma SettleHeld(w: World, w1: World, g: World, g0: World, g1: World, i: nat, x: Step, gone: set<string>, time: int)
    requires Rel(w, g, i, time) && x.SettleTokens? && Enabled(w, x) && OpenSession(w, x.i) && OwnsNoMore(w.r, w1.r)
    requires var s := w.sessions[x.i].site;
      && s in g.r.sites && s in g0.r.sites && s in w1.r.sites && s in g1.r.sites && g0.r.sites[s] == LetGo(g.r.sites[s], gone)
      && gone == (if Publishes(w, x) then {} else Outlived(w, g, s, x.tokens))
      && (forall t :: t in x.order <==> t in x.tokens)
      && g1.callers == g.callers + ReservationsOf(g.r, s, gone)
      && Elsewhere(g.r, g1.r, s) && RegistryOk(w1.r)
      && AllSettled(w.r.sites[s], w1.r.sites[s], x.order, x.tokens, Publishes(w, x))
      && AllSettled(g0.r.sites[s], g1.r.sites[s], x.order, x.tokens, Publishes(w, x))
    ensures forall u, t :: HeldAt(w1, g1, u, t)
  {
    hide Inv, Core, SiteRel, RegistryOk, CountOf, AllSettled, Settleable, Outlived, LetGo, ReservationsOf;
    var s := w.sessions[x.i].site;
    forall u, t, id | Owns(w1.r, u, t, id) && u in g1.r.sites && t !in g1.r.sites[u].table ensures id in g1.callers {
      assert Owns(w.r, u, t, id);
      assert HeldAt(w, g, u, t);
      if t in g.r.sites[u].table {
        LostHere(g.r, g1.r, s, u, t);
        SameOwner(w, g, i, time, s, t, id);
        SiteFacts(w1.r, s);
        assert EntryOk(t, w1.r.sites[s].table[t]);
        OutlivedLost(w.r.sites[s], w1.r.sites[s], g.r.sites[s], g1.r.sites[s], gone, x.order, x.tokens, Publishes(w, x), t);
        OutlivedReserved(w, g, s, x.tokens, t, id);
      }
    }
  }

  lemma LostHere(r: Registry, q: Registry, s: nat, u: nat, t: string)
    requires Elsewhere(r, q, s) && u in r.sites && t in r.sites[u].table && t !in q.sites[u].table
    ensures u == s
  {
  }

  lemma OutlivedReserved(w: World, g: World, s: nat, tokens: seq<string>, t: string, id: nat)
    requires s in w.r.sites && s in g.r.sites && Owns(g.r, s, t, id) && t in tokens && t in w.r.sites[s].table
    requires !g.r.sites[s].table[t].published && g.r.sites[s].table[t].pending == CountOf(tokens, t) < w.r.sites[s].table[t].pending
    ensures id in ReservationsOf(g.r, s, Outlived(w, g, s, tokens))
  {
  }

  lemma OutlivedLost(a: Site, a1: Site, b: Site, b1: Site, gone: set<string>, order: seq<string>, tokens: seq<string>,
                     publishing: bool, t: string)
    requires AllSettled(a, a1, order, tokens, publishing) && AllSettled(LetGo(b, gone), b1, order, tokens, publishing)
    requires t in a1.table && !a1.table[t].published && t in b.table && t !in b1.table
    ensures t in order && !publishing && t in a.table
    ensures !b.table[t].published && b.table[t].pending == CountOf(tokens, t) < a.table[t].pending
  {
    hide CountOf, AllSettled;
    SettledAt(a, a1, order, tokens, publishing, t);
    SettledAt(LetGo(b, gone), b1, order, tokens, publishing, t);
  }

  lemma SettledAt(x: Site, y: Site, order: seq<string>, tokens: seq<string>, publishing: bool, t: string)
    requires AllSettled(x, y, order, tokens, publishing)
    ensures TokenSettled(x.table, y.table, t, if t in order then CountOf(tokens, t) else 0, t in order, publishing)
  {
    hide CountOf, TokenSettled;
  }
}
