/** The steps of the session itself: the run without it only looks up in vain and rolls reservations back. */
module RegistryOwn {
  import opened Wrappers
  import opened RegistrySpec
  import opened RegistryAuthorities
  import opened RegistryTables
  import opened RegistrySessions
  import opened RegistryRuns
  import opened RegistryTransactions
  import opened RegistryCore
  import opened RegistryCells
  import opened RegistryEffects
  import opened RegistryBeside
  import opened RegistryLookup

  lemma LaterRel(w: World, g: World, i: nat, time: int, late: int)
    requires Rel(w, g, i, time) && time <= late
    ensures Rel(w, g, i, late)
  {
    hide Inv, HeldAt, Core, SiteRel;
    forall u | u in w.r.sites ensures SiteRelAt(w, g, i, u, late) {
      RelSite(w, g, i, time, u);
      RelLater(w.r.sites[u], g.r.sites[u], Mine(w.sessions, i, u), time, late);
    }
  }

  lemma ElsewhereSelf(r: Registry, s: nat)
    ensures Elsewhere(r, r, s) && OwnsNoMore(r, r) && OwnersStay(r, r)
  {
  }

  lemma ClaimOwners(r: Registry, s: nat, t: string)
    requires s in r.sites && t in r.sites[s].table
    ensures OwnsNoMore(r, Claim(r, s, t)) && OwnersStay(r, Claim(r, s, t))
  {
  }

  lemma MineMinted(sessions: map<nat, Session>, i: nat, t: string)
    requires i in sessions
    ensures var after := sessions[i := sessions[i].(minted := sessions[i].minted + [t])];
      && Idle(after, i) == Idle(sessions, i)
      && Mine(after, i, sessions[i].site) == Mine(sessions, i, sessions[i].site) + [t]
      && forall v :: v != sessions[i].site ==> Mine(after, i, v) == Mine(sessions, i, v)
  {
  }

  lemma OwnClaim(w: World, w1: World, g: World, i: nat, t: string, time: int)
    requires Rel(w, g, i, time) && OpenSession(w, i) && t in w.r.sites[w.sessions[i].site].table && Inv(w1)
    requires w1 == Minting(w, i, Some(t), Claim(w.r, w.sessions[i].site, t))
    ensures Rel(w1, g, i, time)
  {
    hide Inv, Claim, Core, SiteRel, HeldAt, Mine, Idle, OwnsNoMore, OwnersStay, Claimed;
    var s := w.sessions[i].site;
    RelSite(w, g, i, time, s);
    ClaimEffect(w.r, s, t);
    CoreClaim(w.r, s, t);
    MineMinted(w.sessions, i, t);
    ClaimedMine(w.r.sites[s], g.r.sites[s], Mine(w.sessions, i, s), time, t);
    ElsewhereSelf(g.r, s);
    assert SiteRelAt(w1, g, i, s, time);
    AtSite(w, w1, g, g, i, s, time, time);
    ClaimOwners(w.r, s, t);
    HeldLater(w, w1, g, g, i, time);
  }

  lemma OwnEnter(w: World, w1: World, g: World, i: nat, e: Entry, time: int)
    requires Rel(w, g, i, time) && OpenSession(w, i) && Inv(w1) && e.pending == 1 && !e.published
    requires var s := w.sessions[i].site;
      e.token !in w.r.sites[s].table && e.cacheKey !in w.r.sites[s].index
    requires e.reservation.Some? ==> e.reservation.value in w.callers
    requires w1 == Minting(w, i, Some(e.token), Insert(w.r, w.sessions[i].site, e))
                     .(callers := HandedOver(w.callers, e.token, Some(e.token), e.reservation))
    ensures Rel(w1, g, i, time)
  {
    hide Inv, Insert, Core, SiteRel, HeldAt, Mine, Idle, Entered1, CountOf;
    var s := w.sessions[i].site;
    RelSite(w, g, i, time, s);
    InsertEffect(w.r, s, e);
    CoreInsert(w.r, s, e);
    MineMinted(w.sessions, i, e.token);
    MineThere(w, i, s);
    EnteredMine(w.r.sites[s], g.r.sites[s], Mine(w.sessions, i, s), time, e);
    var a1 := Entered1(w.r.sites[s], e);
    RelShow(a1, g.r.sites[s], w1.r.sites[s], g.r.sites[s], Mine(w1.sessions, i, s), time);
    ElsewhereSelf(g.r, s);
    assert SiteRelAt(w1, g, i, s, time);
    AtSite(w, w1, g, g, i, s, time, time);
    InsertHeld(w, w1, g, s, e);
  }

  lemma InsertHeld(w: World, w1: World, g: World, s: nat, e: Entry)
    requires s in w.r.sites && w1.r == Insert(w.r, s, e) && w.callers <= g.callers
    requires e.reservation.Some? ==> e.reservation.value in w.callers
    requires forall u, t :: HeldAt(w, g, u, t)
    ensures forall u, t :: HeldAt(w1, g, u, t)
  {
    hide EntryMemory;
    forall u, t, id | Owns(w1.r, u, t, id) && u in g.r.sites && t !in g.r.sites[u].table ensures id in g.callers {
      assert HeldAt(w, g, u, t);
      assert (u == s && t == e.token && e.reservation == Some(id)) || Owns(w.r, u, t, id);
    }
  }

  lemma OwnReuse(w: World, g: World, g1: World, i: nat, x: Step, time: int)
    requires Rel(w, g, i, time) && x.ReuseKey? && x.i == i && Enabled(w, x) && Inv(Next(w, x)) && OwnStep(w, g, i, x, g1)
    ensures Rel(Next(w, x), g1, i, Clock(x, time))
  {
    hide Rel, Inv, Reuse, Claim, RegistryOk, OwnersOk, EntryValid;
    RelParts(w, g, i, time);
    var s := w.sessions[i].site;
    ReuseOk(w.r, s, x.cacheKey, x.now);
    var token := Reuse(w.r, s, x.cacheKey, x.now).1;
    if token.None? {
      OwnSame(w, g, i, time);
      NoneToo(w, g, i, s, x.cacheKey, x.now, time);
      StepKeeps(g, x);
      NextReuseNone(w, x);
      NextReuseNone(g, x);
      NoneBoth(w, Next(w, x), g, g1, i, s, x.cacheKey, x.now, time, Clock(x, time));
    } else {
      OwnClaim(w, Next(w, x), g, i, token.value, time);
      LaterRel(Next(w, x), g, i, time, Clock(x, time));
    }
  }

  lemma OwnSame(w: World, g: World, i: nat, time: int)
    requires Rel(w, g, i, time)
    ensures i in g.sessions && g.sessions[i].site == w.sessions[i].site
  {
    hide Inv, Core, SiteRelAt, HeldAt;
  }

  lemma OwnRegister(w: World, g: World, i: nat, x: Step, time: int)
    requires Rel(w, g, i, time) && x.RegisterToken? && x.i == i && Enabled(w, x) && Inv(Next(w, x))
    ensures Rel(Next(w, x), g, i, time)
  {
    hide Rel, Inv, Register, Claim, Insert, RegistryOk, OwnersOk;
    RelParts(w, g, i, time);
    var s := w.sessions[i].site;
    RegisterQuiet(w.r, s, x.token, x.cacheKey, x.expiresAt, x.now, x.reservation);
    var (q, result) := Register(w.r, s, x.token, x.cacheKey, x.expiresAt, x.now, x.reservation);
    if result.None? {
      assert Next(w, x) == w;
    } else if result.value in w.r.sites[s].table {
      assert result != Some(x.token);
      OwnClaim(w, Next(w, x), g, i, result.value, time);
    } else {
      OwnEnter(w, Next(w, x), g, i, NewEntry(x), time);
    }
  }

  // ---------- giving claims up ----------

  /** The reservations of what is settled and only the session keeps are with the callers of the other world. */
  ghost predicate Ready(r: Registry, g: World, s: nat, order: seq<string>, tokens: seq<string>) {
    forall t, id :: t in order && Owns(r, s, t, id) && Loses(r.sites[s], t, CountOf(tokens, t), true, false) ==> id in g.callers
  }

  lemma {:induction false} GivenBackOk(r: Registry, callers: set<nat>, g: World, s: nat, order: seq<string>, tokens: seq<string>)
    requires RegistryOk(r) && OwnersOk(r, callers) && s in r.sites && Inv(g) && Core(r) == Core(g.r) && callers <= g.callers
    requires forall j, k :: 0 <= j < k < |order| ==> order[j] != order[k]
    requires (forall t :: t in order ==> Covered(r.sites[s].table, tokens, t)) && Ready(r, g, s, order, tokens)
    ensures var q, g1 := SettleEach(r, s, order, tokens, false), GivenBack(r, g, s, order, tokens);
      && Inv(g1) && Core(q) == Core(g1.r) && callers <= g1.callers && g1.sessions == g.sessions
      && g1.r.sites.Keys == g.r.sites.Keys && (forall u :: u in g.r.sites ==> SameShow(g.r.sites[u], g1.r.sites[u]))
      && (forall u, t, id :: Owns(q, u, t, id) && id in g.callers ==> id in g1.callers)
      && OwnsNoMore(r, q)
    decreases |order|
  {
    hide RegistryOk, OwnersOk, Inv, Core, SettleOne, CountOf, Finish, Owns, Ready;
    if order == [] {
      ElsewhereSelf(r, s);
    } else {
      var t, rest := order[0], order[1..];
      assert Covered(r.sites[s].table, tokens, t);
      var count := CountOf(tokens, t);
      SettleOneOk(r, callers, s, t, count, false);
      CoreSettleOne(r, s, t, count, false);
      var r1 := SettleOne(r, s, t, count, false);
      CoveredLater(r, r1, s, order, tokens, false);
      var g1 := GiveOne(r, g, s, t, tokens);
      GiveOneOk(r, r1, callers, g, s, t, order, tokens);
      GivenBackOk(r1, callers, g1, s, rest, tokens);
      ShowTwice(g.r, g1.r, GivenBack(r1, g1, s, rest, tokens).r);
    }
  }

  /** What GivenBack does for one token. */
  function GiveOne(r: Registry, g: World, s: nat, t: string, tokens: seq<string>): World
    requires s in r.sites
  {
    if t in r.sites[s].table && r.sites[s].table[t].pending == CountOf(tokens, t) && !r.sites[s].table[t].published
       && r.sites[s].table[t].reservation.Some? then
      var id := r.sites[s].table[t].reservation.value;
      g.(r := Finish(g.r, id, false), callers := g.callers - {id})
    else g
  }

  lemma ShowTwice(a: Registry, b: Registry, c: Registry)
    requires b.sites.Keys == a.sites.Keys && (forall u :: u in a.sites ==> SameShow(a.sites[u], b.sites[u]))
    requires c.sites.Keys == b.sites.Keys && (forall u :: u in b.sites ==> SameShow(b.sites[u], c.sites[u]))
    ensures c.sites.Keys == a.sites.Keys && (forall u :: u in a.sites ==> SameShow(a.sites[u], c.sites[u]))
  {
  }

  lemma GiveOneOk(r: Registry, r1: Registry, callers: set<nat>, g: World, s: nat, t: string, order: seq<string>, tokens: seq<string>)
    requires RegistryOk(r) && OwnersOk(r, callers) && s in r.sites && Inv(g) && Core(r) == Core(g.r) && callers <= g.callers
    requires order != [] && t == order[0] && (forall j, k :: 0 <= j < k < |order| ==> order[j] != order[k])
    requires Covered(r.sites[s].table, tokens, t) && Ready(r, g, s, order, tokens)
    requires r1 == SettleOne(r, s, t, CountOf(tokens, t), false)
    requires Core(r1) == CoreSettled(Core(r), r.sites[s].table[t], CountOf(tokens, t), false)
    requires s in r1.sites && r1.sites.Keys == r.sites.Keys
    requires forall u :: u in r.sites && u != s ==> r1.sites[u].table == r.sites[u].table
    requires TokenSettled(r.sites[s].table, r1.sites[s].table, t, CountOf(tokens, t), true, false)
    requires forall u :: u != t ==> TokenSettled(r.sites[s].table, r1.sites[s].table, u, 0, false, false)
    ensures var g1 := GiveOne(r, g, s, t, tokens);
      && Inv(g1) && Core(r1) == Core(g1.r) && callers <= g1.callers && g1.sessions == g.sessions
      && g1.r.sites.Keys == g.r.sites.Keys && (forall u :: u in g.r.sites ==> SameShow(g.r.sites[u], g1.r.sites[u]))
      && (forall u, v, id :: Owns(r1, u, v, id) && id in g.callers ==> id in g1.callers)
      && OwnsNoMore(r, r1) && Ready(r1, g1, s, order[1..], tokens)
  {
    hide RegistryOk, OwnersOk, Inv, Core, SettleOne, CountOf, Finish;
    var e := r.sites[s].table[t];
    SettledOwners(r, r1, s, t, CountOf(tokens, t));
    assert t !in order[1..];
    if e.pending == CountOf(tokens, t) && !e.published && e.reservation.Some? {
      var id := e.reservation.value;
      assert Owns(r, s, t, id);
      assert t in order;
      assert id in g.callers;
      OwnerUnique(r, callers, s, t, id);
      FinishKeeps(g, id, false);
      CoreFinish(g.r, id, false);
      FinishShows(g.r, Some(id), false);
      assert FinishOption(g.r, Some(id), false) == Finish(g.r, id, false);
      assert FinishOption(Core(r), e.reservation, false) == Finish(Core(r), id, false);
      forall u, v, j | Owns(r1, u, v, j) ensures j != id {
        assert Owns(r, u, v, j);
        if j == id {
          assert false;
        }
      }
    } else {
      assert FinishOption(Core(r), None, false) == Core(r);
    }
    forall v, id | v in order[1..] && Owns(r1, s, v, id) ensures v in order && r1.sites[s].table[v] == r.sites[s].table[v] && Owns(r, s, v, id) {
      assert TokenSettled(r.sites[s].table, r1.sites[s].table, v, 0, false, false);
    }
  }

  lemma SettledOwners(r: Registry, r1: Registry, s: nat, t: string, count: nat)
    requires s in r.sites && r1.sites.Keys == r.sites.Keys && t in r.sites[s].table
    requires forall u :: u in r.sites && u != s ==> r1.sites[u].table == r.sites[u].table
    requires TokenSettled(r.sites[s].table, r1.sites[s].table, t, count, true, false)
    requires forall u :: u != t ==> TokenSettled(r.sites[s].table, r1.sites[s].table, u, 0, false, false)
    ensures OwnsNoMore(r, r1)
    ensures t in r1.sites[s].table ==> r.sites[s].table[t].pending > count || r.sites[s].table[t].published
  {
    forall u, v, id | Owns(r1, u, v, id) ensures Owns(r, u, v, id) {
      if u == s && v != t {
        assert TokenSettled(r.sites[s].table, r1.sites[s].table, v, 0, false, false);
      }
    }
  }

  /** What the session gives up and nobody else claims was never there without it. */
  lemma OwnSettle(w: World, g: World, i: nat, x: Step, time: int)
    requires Rel(w, g, i, time) && x.SettleTokens? && x.i == i && Enabled(w, x) && Inv(Next(w, x)) && !Publishes(w, x)
    ensures Rel(Next(w, x), GivenBack(w.r, g, w.sessions[i].site, x.order, x.tokens), i, time)
  {
    hide Rel, Inv, SettleEach, Settleable, GivenBack;
    var s := w.sessions[i].site;
    if s !in w.r.sites || x.tokens == [] {
      if x.tokens == [] {
        EmptyOrder(x.order);
      }
      assert GivenBack(w.r, g, s, x.order, x.tokens) == g by { NothingGiven(w.r, g, s, x.order, x.tokens); }
      SettledNothing(w, Next(w, x), g, i, x, time);
    } else {
      OwnSettleOpen(w, Next(w, x), g, i, x, time);
    }
  }

  lemma NothingGiven(r: Registry, g: World, s: nat, order: seq<string>, tokens: seq<string>)
    requires order == [] || s !in r.sites
    ensures GivenBack(r, g, s, order, tokens) == g
  {
  }

  lemma SettledNothing(w: World, w1: World, g: World, i: nat, x: Step, time: int)
    requires Rel(w, g, i, time) && x.SettleTokens? && x.i == i && i in w.sessions && Inv(w1)
    requires multiset(w.sessions[i].minted) == multiset(x.tokens) + multiset(x.rest)
    requires w.sessions[i].site !in w.r.sites || x.tokens == []
    requires w1 == w.(sessions := w.sessions[i := w.sessions[i].(minted := x.rest)])
    ensures Rel(w1, g, i, time)
  {
    hide Inv, Core, HeldAt, SiteRel;
    forall u | u in w.r.sites ensures SiteRelAt(w1, g, i, u, time) {
      RelSite(w, g, i, time, u);
      if u == w.sessions[i].site {
        SameCounts(w.r.sites[u], g.r.sites[u], w.sessions[i].minted, x.tokens, x.rest, time);
      }
    }
    forall u, t ensures HeldAt(w1, g, u, t) {
      assert HeldAt(w, g, u, t);
      HeldSame(w, w1, g, u, t);
    }
  }

  lemma HeldSame(w: World, w1: World, g: World, u: nat, t: string)
    requires HeldAt(w, g, u, t) && w1.r == w.r
    ensures HeldAt(w1, g, u, t)
  {
  }

  lemma SameCounts(a: Site, b: Site, mine: seq<string>, tokens: seq<string>, rest: seq<string>, time: int)
    requires SiteRel(a, b, mine, time) && multiset(mine) == multiset(tokens) + multiset(rest) && tokens == []
    ensures SiteRel(a, b, rest, time)
  {
    hide Cell;
    forall t ensures Cell(a, b, t, CountOf(rest, t), time) {
      assert Cell(a, b, t, CountOf(mine, t), time);
      assert CountOf(rest, t) == CountOf(mine, t);
    }
  }

  lemma OwnSettleOpen(w: World, w1: World, g: World, i: nat, x: Step, time: int)
    requires Rel(w, g, i, time) && x.SettleTokens? && x.i == i && Enabled(w, x) && OpenSession(w, i) && Inv(w1) && x.tokens != []
    requires w1 == w.(r := SettleEach(w.r, w.sessions[i].site, x.order, x.tokens, false),
                      sessions := w.sessions[i := w.sessions[i].(minted := x.rest)])
    ensures Rel(w1, GivenBack(w.r, g, w.sessions[i].site, x.order, x.tokens), i, time)
  {
    hide Inv, SettleEach, GivenBack, SiteRel, HeldAt, Core, RegistryOk, OwnersOk, SiteRelAt, Idle, Mine, Owns, AllSettled, SameShow, Ready;
    RelParts(w, g, i, time);
    var s := w.sessions[i].site;
    SettleReady(w, i, x.tokens, x.rest, x.order);
    SettleEffect(w.r, w.callers, s, x.order, x.tokens, false);
    OwnReady(w, g, i, x, time);
    GivenBackOk(w.r, w.callers, g, s, x.order, x.tokens);
    var g1 := GivenBack(w.r, g, s, x.order, x.tokens);
    assert forall v :: v != s ==> Mine(w1.sessions, i, v) == Mine(w.sessions, i, v) by { MineRest(w, w1, i, x.rest); }
    MineRest(w, w1, i, x.rest);
    OwnSettledAt(w, w1, g, g1, i, x, time);
    ElsewhereShows(g.r, g1.r, s);
    AtSite(w, w1, g, g1, i, s, time, time);
    ShowOwners(g.r, g1.r);
    HeldLater(w, w1, g, g1, i, time);
  }

  lemma ElsewhereShows(r: Registry, q: Registry, s: nat)
    requires q.sites.Keys == r.sites.Keys && forall u :: u in r.sites ==> SameShow(r.sites[u], q.sites[u])
    ensures Elsewhere(r, q, s)
  {
  }

  lemma MineRest(w: World, w1: World, i: nat, rest: seq<string>)
    requires i in w.sessions && w1.sessions == w.sessions[i := w.sessions[i].(minted := rest)]
    ensures Idle(w1.sessions, i) == Idle(w.sessions, i) && Mine(w1.sessions, i, w.sessions[i].site) == rest
    ensures forall v :: v != w.sessions[i].site ==> Mine(w1.sessions, i, v) == Mine(w.sessions, i, v)
  {
  }

  /** What is lost because nobody else claims it is not there without the session. */
  lemma OwnReady(w: World, g: World, i: nat, x: Step, time: int)
    requires Rel(w, g, i, time) && x.SettleTokens? && x.i == i && Enabled(w, x) && OpenSession(w, i)
    ensures Ready(w.r, g, w.sessions[i].site, x.order, x.tokens)
  {
    hide Inv, Core, SiteRel;
    var s := w.sessions[i].site;
    RelSite(w, g, i, time, s);
    forall t, id | t in x.order && Owns(w.r, s, t, id) && Loses(w.r.sites[s], t, CountOf(x.tokens, t), true, false)
      ensures id in g.callers
    {
      assert HeldAt(w, g, s, t);
      if t in g.r.sites[s].table {
        OwnOnly(w.r.sites[s], g.r.sites[s], w.sessions[i].minted, x.tokens, x.rest, t, time);
        assert false;
      }
    }
  }

  lemma OwnOnly(a: Site, b: Site, mine: seq<string>, tokens: seq<string>, rest: seq<string>, t: string, time: int)
    requires SiteRel(a, b, mine, time) && EntriesOk(b.table) && multiset(mine) == multiset(tokens) + multiset(rest)
    requires t in a.table && t in b.table && a.table[t].pending == CountOf(tokens, t)
    ensures a.table[t].published
  {
    assert Cell(a, b, t, CountOf(mine, t), time);
    assert EntryOk(t, b.table[t]);
    assert CountOf(mine, t) == CountOf(tokens, t) + multiset(rest)[t];
  }

  lemma OwnSettledAt(w: World, w1: World, g: World, g1: World, i: nat, x: Step, time: int)
    requires Rel(w, g, i, time) && x.SettleTokens? && x.i == i && Enabled(w, x) && OpenSession(w, i)
    requires w1.sessions == w.sessions[i := w.sessions[i].(minted := x.rest)]
    requires var s := w.sessions[i].site;
      && s in w1.r.sites && s in g.r.sites && s in g1.r.sites && SameShow(g.r.sites[s], g1.r.sites[s])
      && AllSettled(w.r.sites[s], w1.r.sites[s], x.order, x.tokens, false)
    ensures SiteRelAt(w1, g1, i, w.sessions[i].site, time)
  {
    hide Inv, Core, SiteRel, HeldAt, AllSettled, Enumerates;
    var s := w.sessions[i].site;
    RelSite(w, g, i, time, s);
    SettledMine(w.r.sites[s], g.r.sites[s], w1.r.sites[s], w.sessions[i].minted, x.rest, time, x.order, x.tokens);
    RelShow(w1.r.sites[s], g.r.sites[s], w1.r.sites[s], g1.r.sites[s], x.rest, time);
  }
}
