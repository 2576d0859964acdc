/**
 A rewrite session that is rolled back has left nothing behind, whatever other
 sessions, prunes and lookups happened in between and whatever tokens were shared.
 */
module RegistryIsolation {
  import opened Wrappers
  import opened MapSums
  import opened RegistrySpec
  import opened RegistryAuthorities
  import opened RegistryTables
  import opened RegistrySessions
  import opened RegistryRuns
  import opened RegistryTransactions
  import opened RegistryCore
  import opened RegistryCells
  import opened RegistryEffects
  import opened RegistryBeside
  import opened RegistryLookup
  import opened RegistryOwn
  import opened RegistryOthers
  import opened RegistryShared

  // ---------- uses and prunes ----------

  /** Only what has expired is thinned out of either table; no key is dropped. */
  lemma ThinBoth(w: World, q: Registry, g: World, p: Registry, i: nat, s: nat, seenW: set<string>, seenG: set<string>, now: int,
                 time: int, late: int)
    requires Rel(w, g, i, time) && s in w.r.sites && s in g.r.sites && time <= late && now <= late
    requires Inv(w.(r := q)) && Inv(g.(r := p)) && Core(q) == Core(w.r) && Core(p) == Core(g.r)
    requires Elsewhere(w.r, q, s) && Elsewhere(g.r, p, s) && s in q.sites && s in p.sites
    requires Thinned(w.r.sites[s], q.sites[s], seenW, {}, now) && Thinned(g.r.sites[s], p.sites[s], seenG, {}, now)
    requires forall t :: t in seenW && t in g.r.sites[s].table ==> t in seenG
    ensures Rel(w.(r := q), g.(r := p), i, late)
  {
    hide Rel, Inv, Core, Elsewhere, Thinned;
    ThinnedRel(w, w.(r := q), g, g.(r := p), i, s, seenW, seenG, {}, now, time, late);
  }

  lemma OtherHas(w: World, g: World, i: nat, x: Step, time: int)
    requires Rel(w, g, i, time) && x.HasToken? && Enabled(w, x) && Enabled(g, x) && Inv(Next(w, x))
    ensures Rel(Next(w, x), Next(g, x), i, Clock(x, time))
  {
    hide Rel, Inv, Has, Core, Elsewhere, Thinned, RegistryOk, OwnersOk;
    RelParts(w, g, i, time);
    StepKeeps(g, x);
    HasEffect(w.r, x.s, x.token, x.now);
    HasEffect(g.r, x.s, x.token, x.now);
    CoreHas(w.r, x.s, x.token, x.now);
    CoreHas(g.r, x.s, x.token, x.now);
    ThinBoth(w, Has(w.r, x.s, x.token, x.now).0, g, Has(g.r, x.s, x.token, x.now).0, i, x.s, {x.token}, {x.token}, x.now, time,
             Clock(x, time));
  }

  ghost predicate Usable(x: Site, t: string, now: int) {
    t != "" && t in x.table && x.table[t].published && EntryValid(x.table[t], now, x.limits.idle)
  }

  lemma UseAnswers(r: Registry, s: nat, t: string, now: int)
    requires s in r.sites
    ensures Use(r, s, t, now).1 <==> Usable(r.sites[s], t, now)
  {
    hide Delete;
  }

  /** Whoever uses a published capability cannot tell the two runs apart. */
  lemma UsableBoth(a: Site, b: Site, mine: seq<string>, t: string, time: int, now: int)
    requires SiteRel(a, b, mine, time) && time <= now
    ensures Usable(a, t, now) <==> Usable(b, t, now)
    ensures Usable(a, t, now) ==> t in a.table && t in b.table && EntryValid(b.table[t], now, b.limits.idle)
  {
    hide CountOf;
    assert Cell(a, b, t, CountOf(mine, t), time);
  }

  lemma UsedOwners(r: Registry, q: Registry, s: nat, t: string, now: int)
    requires s in r.sites && Elsewhere(r, q, s) && t in r.sites[s].table && q.sites[s] == UsedAt(r.sites[s], t, now)
    ensures OwnsNoMore(r, q) && OwnersStay(r, q)
  {
    forall u, v, id ensures Owns(q, u, v, id) <==> Owns(r, u, v, id) {
      if u in r.sites && u != s {
        assert SameShow(r.sites[u], q.sites[u]);
      }
    }
  }

  lemma UseBoth(w: World, q: Registry, g: World, p: Registry, i: nat, s: nat, t: string, now: int, time: int)
    requires Rel(w, g, i, time) && s in w.r.sites && s in g.r.sites && time <= now
    requires Inv(w.(r := q)) && Inv(g.(r := p)) && Core(q) == Core(w.r) && Core(p) == Core(g.r)
    requires Elsewhere(w.r, q, s) && Elsewhere(g.r, p, s) && s in q.sites && s in p.sites
    requires t in w.r.sites[s].table && t in g.r.sites[s].table && EntryValid(g.r.sites[s].table[t], now, g.r.sites[s].limits.idle)
    requires q.sites[s] == UsedAt(w.r.sites[s], t, now) && p.sites[s] == UsedAt(g.r.sites[s], t, now)
    ensures Rel(w.(r := q), g.(r := p), i, now)
  {
    hide Inv, Core, SiteRel, HeldAt, Elsewhere, OwnsNoMore, OwnersStay, UsedAt, EntryValid;
    RelSite(w, g, i, time, s);
    UsedBoth(w.r.sites[s], g.r.sites[s], Mine(w.sessions, i, s), time, t, now);
    assert SiteRelAt(w.(r := q), g.(r := p), i, s, now);
    AtSite(w, w.(r := q), g, g.(r := p), i, s, time, now);
    UsedOwners(w.r, q, s, t, now);
    UsedOwners(g.r, p, s, t, now);
    ElsewhereKeys(g.r, p, s);
    HeldLater(w, w.(r := q), g, g.(r := p), i, time);
  }

  lemma OtherUse(w: World, g: World, i: nat, x: Step, time: int)
    requires Rel(w, g, i, time) && x.UseToken? && Enabled(w, x) && Enabled(g, x) && time <= x.now && Inv(Next(w, x))
    ensures Rel(Next(w, x), Next(g, x), i, x.now)
  {
    hide Rel, Inv, Use, Core, Elsewhere, Thinned, RegistryOk, OwnersOk, UsedAt, SiteRel, Usable, EntryValid;
    RelParts(w, g, i, time);
    RelSite(w, g, i, time, x.s);
    StepKeeps(g, x);
    UseEffect(w.r, x.s, x.token, x.now);
    UseEffect(g.r, x.s, x.token, x.now);
    CoreUse(w.r, x.s, x.token, x.now);
    CoreUse(g.r, x.s, x.token, x.now);
    UseAnswers(w.r, x.s, x.token, x.now);
    UseAnswers(g.r, x.s, x.token, x.now);
    UsableBoth(w.r.sites[x.s], g.r.sites[x.s], Mine(w.sessions, i, x.s), x.token, time, x.now);
    if Use(w.r, x.s, x.token, x.now).1 {
      UseBoth(w, Use(w.r, x.s, x.token, x.now).0, g, Use(g.r, x.s, x.token, x.now).0, i, x.s, x.token, x.now, time);
    } else {
      ThinBoth(w, Use(w.r, x.s, x.token, x.now).0, g, Use(g.r, x.s, x.token, x.now).0, i, x.s, {x.token}, {x.token}, x.now, time,
               x.now);
    }
  }

  lemma PrunedCore(w: World, s: nat, order: seq<string>, now: int)
    requires Inv(w) && PruneOrder(w, s, order, now)
    ensures var q := DeleteAll(w.r, s, order);
      && Core(q) == Core(w.r) && Elsewhere(w.r, q, s) && s in q.sites && Thinned(w.r.sites[s], q.sites[s], w.r.sites[s].table.Keys, {}, now)
  {
    hide Inv, RegistryOk, DeleteAll, EntryValid, Core, Thinned, Elsewhere;
    InvRegistry(w);
    assert forall t :: t in order <==> t in Dead(w.r.sites[s], now);
    PruneEffect(w.r, s, order, now);
    CoreDeleteAll(w.r, s, order);
  }

  lemma OtherPrune(w: World, g: World, g1: World, i: nat, x: Step, time: int)
    requires Rel(w, g, i, time) && x.Prune? && Enabled(w, x) && OtherStep(w, g, x, g1, time) && Inv(Next(w, x))
    ensures Rel(Next(w, x), g1, i, Clock(x, time))
  {
    hide Rel, Inv, DeleteAll, Core, Elsewhere, Thinned, RegistryOk, OwnersOk, PruneOrder, Dead;
    RelParts(w, g, i, time);
    var order :| Moves(g, Prune(x.s, order, x.now), g1);
    StepKeeps(g, Prune(x.s, order, x.now));
    NextPrune(w, x);
    NextPrune(g, Prune(x.s, order, x.now));
    PrunedCore(w, x.s, x.order, x.now);
    PrunedCore(g, x.s, order, x.now);
    PruneSite(w, x.s, x.order, x.now);
    PruneSite(g, x.s, order, x.now);
    ThinBoth(w, DeleteAll(w.r, x.s, x.order), g, DeleteAll(g.r, x.s, order), i, x.s, w.r.sites[x.s].table.Keys,
             g.r.sites[x.s].table.Keys, x.now, time, Clock(x, time));
  }

  lemma PruneSite(w: World, s: nat, order: seq<string>, now: int)
    requires PruneOrder(w, s, order, now)
    ensures s in w.r.sites
  {
    hide Dead;
  }

  // ---------- authorities and sites ----------

  lemma OtherReserve(w: World, g: World, i: nat, x: Step, time: int)
    requires Rel(w, g, i, time) && x.ReserveAuthority? && Enabled(w, x) && Enabled(g, x) && Inv(Next(w, x))
    ensures Rel(Next(w, x), Next(g, x), i, time)
  {
    hide Inv, Reserve, Core, SiteRelAt, HeldAt, RegistryOk, OwnersOk, OwnsNoMore, OwnersStay;
    RelParts(w, g, i, time);
    StepKeeps(g, x);
    CoreReserve(w.r, x.s, x.authority, x.now);
    CoreReserve(g.r, x.s, x.authority, x.now);
    ReserveShows(w.r, x.s, x.authority, x.now);
    ReserveShows(g.r, x.s, x.authority, x.now);
    NoSite(w, Next(w, x), g, Next(g, x), i, time);
    HeldLater(w, Next(w, x), g, Next(g, x), i, time);
  }

  lemma OtherFinish(w: World, g: World, i: nat, x: Step, time: int)
    requires Rel(w, g, i, time) && x.FinishReservation? && Enabled(w, x) && Enabled(g, x) && Inv(Next(w, x))
    ensures Rel(Next(w, x), Next(g, x), i, time)
  {
    hide Inv, Finish, Core, SiteRelAt, HeldAt, RegistryOk, OwnsNoMore, OwnersStay, OwnersOk, CallersKeep;
    RelParts(w, g, i, time);
    StepKeeps(g, x);
    CoreFinish(w.r, x.id, x.commit);
    CoreFinish(g.r, x.id, x.commit);
    FinishShows(w.r, Some(x.id), x.commit);
    FinishShows(g.r, Some(x.id), x.commit);
    NoSite(w, Next(w, x), g, Next(g, x), i, time);
    FinishKeepsCallers(w, Next(w, x), g, Next(g, x), x.id);
    HeldLater(w, Next(w, x), g, Next(g, x), i, time);
  }

  lemma FinishKeepsCallers(w: World, w1: World, g: World, g1: World, id: nat)
    requires OwnersOk(w.r, w.callers) && OwnsNoMore(w.r, w1.r) && id in w.callers && g1.callers == g.callers - {id}
    ensures CallersKeep(w, w1, g, g1)
  {
    hide OwnersOk;
    forall u, t, j | Owns(w1.r, u, t, j) && j in g.callers ensures j in g1.callers {
      assert Owns(w.r, u, t, j);
      OwnerUnique(w.r, w.callers, u, t, j);
    }
  }

  lemma OtherOpen(w: World, g: World, i: nat, x: Step, time: int)
    requires Rel(w, g, i, time) && x.NewSite? && Inv(Next(w, x)) && Inv(Next(g, x))
    ensures Rel(Next(w, x), Next(g, x), i, time)
  {
    hide Inv, Core, HeldAt, SiteRel;
    RelParts(w, g, i, time);
    CoreKeys(w.r, g.r);
    CoreOpen(w.r, x.limits);
    CoreOpen(g.r, x.limits);
    NewSiteMine(w, i);
    var w1, g1 := Next(w, x), Next(g, x);
    forall u | u in w1.r.sites ensures SiteRelAt(w1, g1, i, u, time) {
      if u == w.r.nextId {
        RelSelf(Site(x.limits, map[], map[], map[], 0, []), time);
      } else {
        RelSite(w, g, i, time, u);
      }
    }
    forall u, t ensures HeldAt(w1, g1, u, t) {
      assert HeldAt(w, g, u, t);
      OpenHeld(w, w1, g, g1, u, t, x.limits);
    }
  }

  lemma OpenHeld(w: World, w1: World, g: World, g1: World, u: nat, t: string, limits: Limits)
    requires HeldAt(w, g, u, t) && g1.callers == g.callers && w1.r.sites == w.r.sites[w.r.nextId := Site(limits, map[], map[], map[], 0, [])]
    requires g1.r.sites == g.r.sites[w.r.nextId := Site(limits, map[], map[], map[], 0, [])]
    ensures HeldAt(w1, g1, u, t)
  {
  }

  lemma NewSiteMine(w: World, i: nat)
    requires Inv(w) && i in w.sessions
    ensures Mine(w.sessions, i, w.r.nextId) == [] && w.r.nextId !in w.r.sites
  {
    hide RegistryOk, ClaimsOk, OwnersOk;
    FreshSite(w.r);
  }

  lemma OtherClose(w: World, g: World, i: nat, x: Step, time: int)
    requires Rel(w, g, i, time) && x.Close? && Enabled(w, x) && Enabled(g, x) && Inv(Next(w, x)) && Inv(Next(g, x))
    ensures Rel(Next(w, x), Next(g, x), i, time)
  {
    hide Inv, Core, HeldAt, SiteRel;
    CoreClose(w.r, g.r, x.s);
    var w1, g1 := Next(w, x), Next(g, x);
    forall u | u in w1.r.sites ensures SiteRelAt(w1, g1, i, u, time) {
      RelSite(w, g, i, time, u);
    }
    forall u, t ensures HeldAt(w1, g1, u, t) {
      assert HeldAt(w, g, u, t);
      CloseHeld(w, w1, g, g1, u, t, x.s);
    }
  }

  lemma CloseHeld(w: World, w1: World, g: World, g1: World, u: nat, t: string, s: nat)
    requires HeldAt(w, g, u, t) && g1.callers == g.callers && w1.r.sites == w.r.sites - {s} && g1.r.sites == g.r.sites - {s}
    ensures HeldAt(w1, g1, u, t)
  {
  }

  lemma OtherBegin(w: World, g: World, i: nat, x: Step, time: int)
    requires Rel(w, g, i, time) && x.Begin? && Enabled(w, x) && Enabled(g, x) && Inv(Next(w, x)) && Inv(Next(g, x))
    ensures Rel(Next(w, x), Next(g, x), i, time)
  {
    hide Inv, Core, HeldAt, SiteRel, Mine, Idle;
    var w1, g1 := Next(w, x), Next(g, x);
    OtherMine(w.sessions, i, x.i, Session(x.s, []));
    forall u | u in w1.r.sites ensures SiteRelAt(w1, g1, i, u, time) {
      RelSite(w, g, i, time, u);
    }
    forall u, t ensures HeldAt(w1, g1, u, t) {
      assert HeldAt(w, g, u, t);
      HeldEqual(w, w1, g, g1, u, t);
    }
  }

  // ---------- every step ----------

  lemma OwnStepKeeps(w: World, g: World, i: nat, x: Step, g1: World, time: int)
    requires Rel(w, g, i, time) && Enabled(w, x) && IsOwn(i, x) && OwnStep(w, g, i, x, g1) && Inv(Next(w, x))
    ensures Rel(Next(w, x), g1, i, Clock(x, time))
  {
    hide Rel, Next, Inv, Enabled, GivenBack, Publishes;
    if x.ReuseKey? {
      OwnReuse(w, g, g1, i, x, time);
    } else if x.RegisterToken? {
      OwnRegister(w, g, i, x, time);
    } else {
      OwnSettle(w, g, i, x, time);
    }
  }

  lemma OtherStepKeeps(w: World, g: World, i: nat, x: Step, g1: World, time: int)
    requires Rel(w, g, i, time) && Enabled(w, x) && !IsOwn(i, x) && OtherStep(w, g, x, g1, time) && Inv(Next(w, x))
    ensures Rel(Next(w, x), g1, i, Clock(x, time))
  {
    hide Rel, Next, Inv, Enabled;
    if x.ReuseKey? {
      OtherReuse(w, g, g1, i, x, time);
    } else if x.RegisterToken? {
      OtherRegister(w, g, g1, i, x, time);
    } else if x.SettleTokens? {
      OtherSettle(w, g, g1, i, x, time);
    } else if x.Prune? {
      OtherPrune(w, g, g1, i, x, time);
    } else {
      PlainStepKeeps(w, g, i, x, g1, time);
    }
  }

  lemma PlainStepKeeps(w: World, g: World, i: nat, x: Step, g1: World, time: int)
    requires Rel(w, g, i, time) && Enabled(w, x) && Inv(Next(w, x)) && Moves(g, x, g1)
    requires !x.ReuseKey? && !x.RegisterToken? && !x.SettleTokens? && !x.Prune? && (x.UseToken? ==> time <= x.now)
    ensures Rel(Next(w, x), g1, i, Clock(x, time))
  {
    hide Rel, Next, Inv, Enabled;
    RelInv(w, g, i, time);
    StepKeeps(g, x);
    match x
    case NewSite(_) => OtherOpen(w, g, i, x, time);
    case Close(_) => OtherClose(w, g, i, x, time);
    case Begin(_, _) => OtherBegin(w, g, i, x, time);
    case ReserveAuthority(_, _, _) => OtherReserve(w, g, i, x, time);
    case FinishReservation(_, _) => OtherFinish(w, g, i, x, time);
    case HasToken(_, _, _) => OtherHas(w, g, i, x, time);
    case UseToken(_, _, _) => OtherUse(w, g, i, x, time);
    case _ =>
  }

  lemma RelInv(w: World, g: World, i: nat, time: int)
    requires Rel(w, g, i, time)
    ensures Inv(w) && Inv(g) && i in w.sessions
  {
    hide Inv, Core, SiteRelAt, HeldAt;
  }

  /** Every step keeps the two runs related. */
  lemma BesideKeeps(w: World, g: World, i: nat, x: Step, g1: World, time: int)
    requires Rel(w, g, i, time) && Enabled(w, x) && Beside(w, g, i, x, g1, time)
    ensures Rel(Next(w, x), g1, i, Clock(x, time))
  {
    hide Rel, Next, Inv, Enabled, OwnStep, OtherStep, Clock;
    RelInv(w, g, i, time);
    StepKeeps(w, x);
    if IsOwn(i, x) {
      OwnStepKeeps(w, g, i, x, g1, time);
    } else {
      OtherStepKeeps(w, g, i, x, g1, time);
    }
  }

  // ---------- runs ----------

  /** The run of the steps from w, and beside it the states without session i. */
  ghost predicate RunsBeside(w: World, g: World, i: nat, steps: seq<Step>, states: seq<World>, time: int)
    decreases |steps|
  {
    |states| == |steps|
    && (steps == []
        || (Enabled(w, steps[0]) && Beside(w, g, i, steps[0], states[0], time)
            && RunsBeside(Next(w, steps[0]), states[0], i, steps[1..], states[1..], Clock(steps[0], time))))
  }

  function ClockAfter(steps: seq<Step>, time: int): int
    decreases |steps|
  {
    if steps == [] then time else ClockAfter(steps[1..], Clock(steps[0], time))
  }

  function Last(g: World, states: seq<World>): World {
    if states == [] then g else states[|states| - 1]
  }

  lemma {:induction false} RunKeeps(w: World, g: World, i: nat, steps: seq<Step>, states: seq<World>, time: int)
    requires Rel(w, g, i, time) && RunsBeside(w, g, i, steps, states, time)
    ensures Runs(w, steps) && Rel(After(w, steps), Last(g, states), i, ClockAfter(steps, time))
    decreases |steps|
  {
    hide Rel, Next, Enabled, Beside, Clock;
    if steps != [] {
      BesideKeeps(w, g, i, steps[0], states[0], time);
      RunKeeps(Next(w, steps[0]), states[0], i, steps[1..], states[1..], Clock(steps[0], time));
      assert Last(states[0], states[1..]) == Last(g, states);
    }
  }

  lemma RelStarts(w: World, i: nat, time: int)
    requires Inv(w) && i in w.sessions && w.sessions[i].minted == []
    ensures Rel(w, w, i, time)
  {
    hide Inv, SiteRel, Core;
    assert w.sessions[i].(minted := []) == w.sessions[i];
    assert Idle(w.sessions, i) == w.sessions;
    InvRegistry(w);
    forall u | u in w.r.sites ensures SiteRelAt(w, w, i, u, time) {
      SiteFacts(w.r, u);
      RelSelf(w.r.sites[u], time);
    }
  }

  /** What is valid is the same in both registries, and all that is no capability is equal. */
  ghost predicate SameButExpired(r: Registry, q: Registry, time: int) {
    && Core(r) == Core(q) && r.sites.Keys == q.sites.Keys
    && forall u :: u in r.sites ==> ValidSame(r.sites[u], q.sites[u], time)
  }

  lemma SettledRel(w: World, g: World, i: nat, time: int)
    requires Rel(w, g, i, time) && w.sessions[i].minted == []
    ensures SameButExpired(w.r, g.r, time)
    ensures forall u, t :: u in g.r.sites ==> Pending(g.r.sites[u], t) == Sum(ClaimsOn(w.sessions, u, t))
    ensures forall id :: id in g.callers && g.r.pending[id].site in g.r.sites ==> id in w.callers
  {
    hide Inv, SiteRel, Core, HeldAt, ValidSame, Sum;
    RelParts(w, g, i, time);
    forall u | u in w.r.sites ensures ValidSame(w.r.sites[u], g.r.sites[u], time) {
      RelSite(w, g, i, time, u);
      NothingClaimed(w.r.sites[u], g.r.sites[u], time);
    }
    assert w.sessions[i].(minted := []) == w.sessions[i];
    assert g.sessions == w.sessions;
    OnlyOthers(g);
    CallersBack(w, g, i, time);
  }

  lemma OnlyOthers(g: World)
    requires Inv(g)
    ensures forall u, t :: u in g.r.sites ==> Pending(g.r.sites[u], t) == Sum(ClaimsOn(g.sessions, u, t))
  {
    hide Sum, RegistryOk, OwnersOk;
    forall u, t | u in g.r.sites ensures Pending(g.r.sites[u], t) == Sum(ClaimsOn(g.sessions, u, t)) {
      assert ClaimsExact(g.r.sites, g.sessions, u, t);
    }
  }

  /** Nothing is left that has a reservation and is not there without the session. */
  lemma CallersBack(w: World, g: World, i: nat, time: int)
    requires Rel(w, g, i, time) && w.sessions[i].minted == []
    ensures g.callers <= g.r.pending.Keys
    ensures forall id :: id in g.callers && g.r.pending[id].site in g.r.sites ==> id in w.callers
  {
    hide Inv, SiteRel, Core, HeldAt, RegistryOk;
    RelParts(w, g, i, time);
    forall id | id in g.callers && g.r.pending[id].site in g.r.sites ensures id in w.callers {
      var u := g.r.pending[id].site;
      assert OwnedOk(w.r, w.callers, id);
      if id !in w.callers {
        var t :| Owns(w.r, u, t, id);
        RelSite(w, g, i, time, u);
        assert EntryOk(t, w.r.sites[u].table[t]);
        UnclaimedBoth(w.r.sites[u], g.r.sites[u], t, time);
        SameOwner(w, g, i, time, u, t, id);
        OwnerUnique(g.r, g.callers, u, t, id);
      }
    }
  }

  lemma UnclaimedBoth(a: Site, b: Site, t: string, time: int)
    requires SiteRel(a, b, [], time) && t in a.table && a.table[t].pending > 0
    ensures t in b.table
  {
    assert Cell(a, b, t, CountOf([], t), time) && CountOf([], t) == 0;
  }

  /** Nothing but expired entries, and pairs that lead to them, tells the two worlds apart. */
  ghost predicate NothingLeft(w: World, g: World, time: int) {
    && SameButExpired(w.r, g.r, time) && w.sessions == g.sessions
    && (forall u, t :: u in g.r.sites ==> Pending(g.r.sites[u], t) == Sum(ClaimsOn(w.sessions, u, t)))
  }

  /**
   Once session i has given its claims up, in whatever pieces, the registry is the one
   of the run in which it made no claim and entered nothing: authorities, holders,
   rate windows and reservations are equal, the valid tokens are the same, with equal
   entries whose pending uses are the claims of the other sessions, and the index leads
   to the same valid tokens.
   */
  lemma RollbackInvisible(w: World, i: nat, steps: seq<Step>, states: seq<World>, time: int)
    requires Inv(w) && i in w.sessions && w.sessions[i].minted == [] && RunsBeside(w, w, i, steps, states, time)
    requires Runs(w, steps) ==> var end := After(w, steps); i in end.sessions && end.sessions[i].minted == []
    ensures Runs(w, steps) && NothingLeft(After(w, steps), Last(w, states), ClockAfter(steps, time))
  {
    hide Inv, RunsBeside, Runs, After, SameButExpired, Sum, Core, SiteRelAt, HeldAt;
    RelStarts(w, i, time);
    RunKeeps(w, w, i, steps, states, time);
    var end, other := After(w, steps), Last(w, states);
    SettledRel(end, other, i, ClockAfter(steps, time));
    assert end.sessions[i].(minted := []) == end.sessions[i];
  }

  // ---------- one rollback, in any reachable state ----------

  /**
   What a rollback leaves of one token: the entry with the claims of the other
   sessions, if there are any or it is published, and nothing otherwise.
   */
  ghost predicate LeftAt(w: World, i: nat, q: Registry, t: string)
    requires OpenSession(w, i) && w.sessions[i].site in q.sites
  {
    var s := w.sessions[i].site;
    var others := Sum(ClaimsOn(Idle(w.sessions, i), s, t));
    && (t in q.sites[s].table <==> t in w.r.sites[s].table && (others > 0 || w.r.sites[s].table[t].published))
    && (t in q.sites[s].table ==> t in w.r.sites[s].table && q.sites[s].table[t] == w.r.sites[s].table[t].(pending := others))
  }

  /**
   Rolling back takes away exactly what the session alone kept, in every reachable
   state: each token keeps the others' claims, each index pair leads on to what is
   left, and an authority stays exactly if it is committed or still reserved.
   */
  lemma RollbackExact(w: World, i: nat, order: seq<string>, now: int)
    requires Inv(w) && OpenSession(w, i) && Enumerates(order, set t | t in w.sessions[i].minted)
    ensures var s := w.sessions[i].site;
      var q := Settle(w.r, s, w.sessions[i].minted, order, false, now).0;
      && q.sites.Keys == w.r.sites.Keys
      && (forall u :: u in w.r.sites && u != s ==> q.sites[u].table == w.r.sites[u].table)
      && (forall t :: LeftAt(w, i, q, t))
      && (forall k :: k in q.sites[s].index <==> k in w.r.sites[s].index && w.r.sites[s].index[k] in q.sites[s].table)
      && (forall u, a :: u in q.sites ==> (a in q.sites[u].authorities <==> CommittedAt(w.r, u, a) || Holding(q.pending, u, a) != {}))
  {
    hide Inv, SettleEach, RegistryOk, OwnersOk, CountOf, Covered, Released, CommittedAt, LeftAt, Holding, Idle, Elsewhere, AllSettled;
    var s, tokens := w.sessions[i].site, w.sessions[i].minted;
    assert multiset(tokens) == multiset(tokens) + multiset([]);
    SettleReady(w, i, tokens, [], order);
    if tokens == [] {
      EmptyOrder(order);
    }
    SettledEmpty(w.r, s, tokens, order);
    var q := SettleEach(w.r, s, order, tokens, false);
    InvRegistry(w);
    InvOwners(w);
    SettleEffect(w.r, w.callers, s, order, tokens, false);
    CoveredFacts(w.r.sites[s].table, tokens, order);
    SettleEachOk(w.r, w.callers, s, order, tokens, false);
    SettleEachReleases(w.r, w.callers, s, order, tokens);
    forall t ensures LeftAt(w, i, q, t) {
      LeftToken(w, i, q, order, t);
    }
    LeftIndex(w.r, q, s, order, tokens);
    forall u, a | u in q.sites
      ensures a in q.sites[u].authorities <==> CommittedAt(w.r, u, a) || Holding(q.pending, u, a) != {}
    {
      AuthorityPresence(q, u, a);
      ReleasedCommits(w.r, q, s, u, a);
    }
  }

  lemma ReleasedCommits(r: Registry, q: Registry, s: nat, u: nat, a: string)
    requires Released(r, q, s)
    ensures CommittedAt(q, u, a) <==> CommittedAt(r, u, a)
  {
    hide CommittedAt;
  }

  lemma LeftIndex(r: Registry, q: Registry, s: nat, order: seq<string>, tokens: seq<string>)
    requires s in r.sites && s in q.sites && RegistryOk(q) && AllSettled(r.sites[s], q.sites[s], order, tokens, false)
    ensures forall k :: k in q.sites[s].index <==> k in r.sites[s].index && r.sites[s].index[k] in q.sites[s].table
  {
    hide RegistryOk, CountOf, TokenSettled;
    SiteFacts(q, s);
  }

  lemma LeftToken(w: World, i: nat, q: Registry, order: seq<string>, t: string)
    requires Inv(w) && OpenSession(w, i) && Enumerates(order, set v | v in w.sessions[i].minted)
    requires w.sessions[i].site in q.sites
    requires AllSettled(w.r.sites[w.sessions[i].site], q.sites[w.sessions[i].site], order, w.sessions[i].minted, false)
    ensures LeftAt(w, i, q, t)
  {
    hide RegistryOk, OwnersOk, Sum, AllSettled;
    var s, x := w.sessions[i].site, w.sessions[i];
    SettledAt(w.r.sites[s], q.sites[s], order, x.minted, false, t);
    assert ClaimsExact(w.r.sites, w.sessions, s, t);
    ClaimsStored(w.sessions, i, x.(minted := []), s, t);
    assert multiset([])[t] == 0;
    assert t in order <==> t in x.minted;
    if t in w.r.sites[s].table {
      TokenFacts(w.r, s, t);
    }
  }
}
