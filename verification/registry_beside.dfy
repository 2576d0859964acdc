/**
 Two runs side by side: the registry as it is, and as it would be if one rewrite
 session had never claimed or entered a capability. What relates their states, and
 what the run without the session does for each step of the other.
 */
module RegistryBeside {
  import opened Wrappers
  import opened RegistrySpec
  import opened RegistryAuthorities
  import opened RegistryTables
  import opened RegistrySessions
  import opened RegistryRuns
  import opened RegistryTransactions
  import opened RegistryCore
  import opened RegistryCells
  import opened RegistryEffects

  // ---------- the relation ----------

  /** The claims of session i at a site. */
  function Mine(sessions: map<nat, Session>, i: nat, u: nat): seq<string>
    requires i in sessions
  {
    if sessions[i].site == u then sessions[i].minted else []
  }

  function Idle(sessions: map<nat, Session>, i: nat): map<nat, Session>
    requires i in sessions
  {
    sessions[i := sessions[i].(minted := [])]
  }

  ghost predicate SiteRelAt(w: World, g: World, i: nat, u: nat, time: int) {
    i in w.sessions && u in w.r.sites && u in g.r.sites
    && SiteRel(w.r.sites[u], g.r.sites[u], Mine(w.sessions, i, u), time)
  }

  /** Without the session, the reservation of an entry that only the session keeps is still in the hands of a caller. */
  ghost predicate HeldAt(w: World, g: World, u: nat, t: string) {
    forall id :: Owns(w.r, u, t, id) && u in g.r.sites && t !in g.r.sites[u].table ==> id in g.callers
  }

  /** World w, and g as it would be without the capability steps of session i; nothing is claimed of what expired by time. */
  ghost predicate Rel(w: World, g: World, i: nat, time: int) {
    && Inv(w) && Inv(g) && i in w.sessions && g.sessions == Idle(w.sessions, i)
    && Core(w.r) == Core(g.r) && w.callers <= g.callers
    && (forall u :: u in w.r.sites ==> SiteRelAt(w, g, i, u, time))
    && (forall u, t :: HeldAt(w, g, u, t))
  }

  // ---------- the run without the session ----------

  /** The answer of looking a cache key up or of entering a capability. */
  function Answer(w: World, x: Step): Option<string>
    requires x.ReuseKey? || x.RegisterToken?
    requires x.i in w.sessions && w.sessions[x.i].site in w.r.sites
  {
    var s := w.sessions[x.i].site;
    if x.ReuseKey? then Reuse(w.r, s, x.cacheKey, x.now).1
    else Register(w.r, s, x.token, x.cacheKey, x.expiresAt, x.now, x.reservation).1
  }

  /** The answer is a capability that is unpublished and that only session i has claimed. */
  ghost predicate AnswerIsOwn(w: World, g: World, x: Step)
    requires x.ReuseKey? || x.RegisterToken?
    requires OpenSession(w, x.i)
  {
    var s := w.sessions[x.i].site;
    && Answer(w, x).Some? && Answer(w, x).value in w.r.sites[s].table && s in g.r.sites
    && Answer(w, x).value !in g.r.sites[s].table && !w.r.sites[s].table[Answer(w, x).value].published
  }

  /** What the other session would have entered itself: the very capability that it was given. */
  function EnterInstead(w: World, x: Step): Step
    requires x.ReuseKey? || x.RegisterToken?
    requires x.i in w.sessions && w.sessions[x.i].site in w.r.sites
    requires Answer(w, x).Some? && Answer(w, x).value in w.r.sites[w.sessions[x.i].site].table
  {
    var e := w.r.sites[w.sessions[x.i].site].table[Answer(w, x).value];
    RegisterToken(x.i, Answer(w, x).value, e.cacheKey, e.expiresAt, e.lastUsed, e.reservation)
  }

  /** Entries that are lost without the session, while its claims keep them. */
  function Outlived(w: World, g: World, s: nat, tokens: seq<string>): set<string>
    requires s in w.r.sites && s in g.r.sites
  {
    set t | t in tokens && t in w.r.sites[s].table && t in g.r.sites[s].table
            && !g.r.sites[s].table[t].published && g.r.sites[s].table[t].pending == CountOf(tokens, t)
            && w.r.sites[s].table[t].pending > CountOf(tokens, t)
  }

  function ReservationsOf(r: Registry, s: nat, tokens: set<string>): set<nat>
    requires s in r.sites
  {
    set t | t in tokens && t in r.sites[s].table && r.sites[s].table[t].reservation.Some?
      :: r.sites[s].table[t].reservation.value
  }

  /** The entries of some tokens hand their reservations back to the callers. */
  function HandBack(g: World, s: nat, tokens: set<string>): World
    requires s in g.r.sites
  {
    g.(r := WithSite(g.r, s, LetGo(g.r.sites[s], tokens)), callers := g.callers + ReservationsOf(g.r, s, tokens))
  }

  /** The callers roll back the reservations of the entries that a settlement takes out. */
  function GivenBack(r: Registry, g: World, s: nat, order: seq<string>, tokens: seq<string>): World
    decreases |order|
  {
    if order == [] || s !in r.sites then g
    else
      var t := order[0];
      var lost := t in r.sites[s].table && r.sites[s].table[t].pending == CountOf(tokens, t) && !r.sites[s].table[t].published
                  && r.sites[s].table[t].reservation.Some?;
      var g1 := if lost then
                  var id := r.sites[s].table[t].reservation.value;
                  g.(r := Finish(g.r, id, false), callers := g.callers - {id})
                else g;
      GivenBack(SettleOne(r, s, t, CountOf(tokens, t), false), g1, s, order[1..], tokens)
  }

  predicate Publishes(w: World, x: Step)
    requires x.SettleTokens? && x.i in w.sessions
  {
    var s := w.sessions[x.i].site;
    x.publish && s in w.r.sites && x.tokens != [] && Settleable(w.r.sites[s], x.tokens, x.publish, x.now)
  }

  /** A step of g that takes it to g1. */
  ghost predicate Moves(g: World, x: Step, g1: World) {
    Enabled(g, x) && g1 == Next(g, x)
  }

  /** A session's own steps: only lookups in vain are made without it as well. It does not publish. */
  ghost predicate OwnStep(w: World, g: World, i: nat, x: Step, g1: World)
    requires Enabled(w, x) && IsOwn(i, x)
  {
    match x
    case ReuseKey(_, _, _) => if Answer(w, x).None? then Moves(g, x, g1) else g1 == g
    case RegisterToken(_, _, _, _, _, _) => g1 == g
    case SettleTokens(_, tokens, _, order, _, _) =>
      !Publishes(w, x) && g1 == GivenBack(w.r, g, w.sessions[i].site, order, tokens)
    case _ => false
  }

  predicate Registrable(x: Step)
    requires x.RegisterToken?
  {
    x.token != "" && x.cacheKey != "" && x.now < x.expiresAt
  }

  /** The entry that a registration would make. */
  function NewEntry(x: Step): Entry
    requires x.RegisterToken?
  {
    Entry(x.expiresAt, x.now, x.token, x.cacheKey, 1, false, x.reservation)
  }

  /**
   A registration of another session shows that session i has been there: its key leads
   to an entry that is published, expired and kept by session i alone, or there is no
   room left where there would be.
   */
  predicate Shows(w: World, g: World, x: Step)
    requires x.RegisterToken? && x.i in w.sessions && w.sessions[x.i].site in w.r.sites && w.sessions[x.i].site in g.r.sites
  {
    var s := w.sessions[x.i].site;
    var a, b := w.r.sites[s], g.r.sites[s];
    && Registrable(x)
    && if x.cacheKey in a.index then
         var t := a.index[x.cacheKey]; t in a.table && t !in b.table && a.table[t].published
       else !Fits(w.r, s, NewEntry(x)) && Fits(g.r, s, NewEntry(x))
  }

  /**
   Any other step is taken in both. A session that is given a capability of session i
   enters it itself; registrations do not show session i. What expired stays expired.
   */
  ghost predicate OtherStep(w: World, g: World, x: Step, g1: World, time: int)
    requires Enabled(w, x)
  {
    match x
    case ReuseKey(_, _, now) => time <= now && if AnswerIsOwn(w, g, x) then Moves(g, EnterInstead(w, x), g1) else Moves(g, x, g1)
    case RegisterToken(j, _, _, _, _, _) =>
      if AnswerIsOwn(w, g, x) then Moves(g, EnterInstead(w, x), g1)
      else w.sessions[j].site in g.r.sites && !Shows(w, g, x) && Moves(g, x, g1)
    case SettleTokens(j, tokens, _, _, _, _) =>
      if Publishes(w, x) || w.sessions[j].site !in w.r.sites || w.sessions[j].site !in g.r.sites then Moves(g, x, g1)
      else Moves(HandBack(g, w.sessions[j].site, Outlived(w, g, w.sessions[j].site, tokens)), x, g1)
    case UseToken(_, _, now) => time <= now && Moves(g, x, g1)
    case Prune(s, _, now) => exists order :: Moves(g, Prune(s, order, now), g1)
    case _ => Moves(g, x, g1)
  }

  predicate IsOwn(i: nat, x: Step) {
    (x.ReuseKey? || x.RegisterToken? || x.SettleTokens?) && x.i == i
  }

  ghost predicate Beside(w: World, g: World, i: nat, x: Step, g1: World, time: int)
    requires Enabled(w, x)
  {
    if IsOwn(i, x) then OwnStep(w, g, i, x, g1) else OtherStep(w, g, x, g1, time)
  }

  /** The latest time at which anything was looked up or pruned. */
  function Clock(x: Step, time: int): (late: int)
    ensures time <= late
  {
    match x
    case ReuseKey(_, _, now) => if time <= now then now else time
    case HasToken(_, _, now) => if time <= now then now else time
    case UseToken(_, _, now) => if time <= now then now else time
    case Prune(_, _, now) => if time <= now then now else time
    case _ => time
  }

  // ---------- putting the relation together ----------

  lemma RelParts(w: World, g: World, i: nat, time: int)
    requires Rel(w, g, i, time)
    ensures Inv(w) && Inv(g) && RegistryOk(w.r) && RegistryOk(g.r) && OwnersOk(w.r, w.callers) && OwnersOk(g.r, g.callers)
    ensures w.r.sites.Keys == g.r.sites.Keys && w.r.pending == g.r.pending && i in w.sessions
  {
    hide RegistryOk, ClaimsOk, OwnersOk, SiteRelAt, HeldAt, Core;
    CoreKeys(w.r, g.r);
  }

  lemma RelSite(w: World, g: World, i: nat, time: int, u: nat)
    requires Rel(w, g, i, time) && u in w.r.sites
    ensures u in g.r.sites && SiteRel(w.r.sites[u], g.r.sites[u], Mine(w.sessions, i, u), time)
    ensures IndexOk(w.r.sites[u]) && EntriesOk(w.r.sites[u].table) && IndexOk(g.r.sites[u]) && EntriesOk(g.r.sites[u].table)
  {
    hide Inv, SiteRel, HeldAt, RegistryOk, Core;
    assert SiteRelAt(w, g, i, u, time);
    RelParts(w, g, i, time);
    SiteFacts(w.r, u);
    SiteFacts(g.r, u);
  }

  /** Reservations that w's entries own stay with the callers that held them. */
  ghost predicate CallersKeep(w: World, w1: World, g: World, g1: World) {
    forall u, t, id :: Owns(w1.r, u, t, id) && id in g.callers ==> id in g1.callers
  }

  ghost predicate OwnsNoMore(r: Registry, q: Registry) {
    forall u, t, id :: Owns(q, u, t, id) ==> Owns(r, u, t, id)
  }

  ghost predicate OwnersStay(r: Registry, q: Registry) {
    forall u, t, id :: Owns(r, u, t, id) && u in q.sites ==> t in q.sites[u].table
  }

  lemma HeldLater(w: World, w1: World, g: World, g1: World, i: nat, time: int)
    requires Rel(w, g, i, time) && OwnsNoMore(w.r, w1.r) && OwnersStay(g.r, g1.r) && CallersKeep(w, w1, g, g1)
    requires g1.r.sites.Keys <= g.r.sites.Keys
    ensures forall u, t :: HeldAt(w1, g1, u, t)
  {
    hide Inv, SiteRel, Core;
    forall u, t, id | Owns(w1.r, u, t, id) && u in g1.r.sites && t !in g1.r.sites[u].table ensures id in g1.callers {
      assert Owns(w.r, u, t, id);
      if t in g.r.sites[u].table {
        SameOwner(w, g, i, time, u, t, id);
        assert false;
      } else {
        assert HeldAt(w, g, u, t);
      }
    }
  }

  lemma SameOwner(w: World, g: World, i: nat, time: int, u: nat, t: string, id: nat)
    requires Rel(w, g, i, time) && Owns(w.r, u, t, id) && u in g.r.sites && t in g.r.sites[u].table
    ensures Owns(g.r, u, t, id)
  {
    hide Inv, HeldAt, Core;
    RelSite(w, g, i, time, u);
    assert Cell(w.r.sites[u], g.r.sites[u], t, CountOf(Mine(w.sessions, i, u), t), time);
  }

  /** A step that changes one site in both. */
  lemma AtSite(w: World, w1: World, g: World, g1: World, i: nat, u: nat, time: int, late: int)
    requires Rel(w, g, i, time) && time <= late && i in w1.sessions
    requires Elsewhere(w.r, w1.r, u) && Elsewhere(g.r, g1.r, u)
    requires forall v :: v != u ==> Mine(w1.sessions, i, v) == Mine(w.sessions, i, v)
    requires u in w1.r.sites ==> SiteRelAt(w1, g1, i, u, late)
    ensures forall v :: v in w1.r.sites ==> SiteRelAt(w1, g1, i, v, late)
  {
    hide Inv, HeldAt, Core, SiteRel;
    forall v | v in w1.r.sites && v != u ensures SiteRelAt(w1, g1, i, v, late) {
      RelSite(w, g, i, time, v);
      assert SameShow(w.r.sites[v], w1.r.sites[v]) && SameShow(g.r.sites[v], g1.r.sites[v]);
      RelShow(w.r.sites[v], g.r.sites[v], w1.r.sites[v], g1.r.sites[v], Mine(w.sessions, i, v), time);
      RelLater(w1.r.sites[v], g1.r.sites[v], Mine(w.sessions, i, v), time, late);
    }
  }

  /** A step that leaves all tables and indexes as they are. */
  lemma NoSite(w: World, w1: World, g: World, g1: World, i: nat, time: int)
    requires Rel(w, g, i, time) && i in w1.sessions && w1.sessions[i] == w.sessions[i]
    requires w1.r.sites.Keys == w.r.sites.Keys && (forall u :: u in w.r.sites ==> SameShow(w.r.sites[u], w1.r.sites[u]))
    requires g1.r.sites.Keys == g.r.sites.Keys && (forall u :: u in g.r.sites ==> SameShow(g.r.sites[u], g1.r.sites[u]))
    ensures forall v :: v in w1.r.sites ==> SiteRelAt(w1, g1, i, v, time)
    ensures OwnsNoMore(w.r, w1.r) && OwnersStay(g.r, g1.r)
  {
    hide Inv, HeldAt, Core, SiteRel, SameShow;
    forall v | v in w1.r.sites ensures SiteRelAt(w1, g1, i, v, time) {
      RelSite(w, g, i, time, v);
      RelShow(w.r.sites[v], g.r.sites[v], w1.r.sites[v], g1.r.sites[v], Mine(w.sessions, i, v), time);
    }
    ShowOwners(w.r, w1.r);
    ShowOwners(g.r, g1.r);
  }

  lemma ShowOwners(r: Registry, q: Registry)
    requires q.sites.Keys == r.sites.Keys && forall u :: u in r.sites ==> SameShow(r.sites[u], q.sites[u])
    ensures OwnsNoMore(r, q) && OwnersStay(r, q)
  {
    forall u, t, id ensures Owns(q, u, t, id) <==> Owns(r, u, t, id) {
      if u in r.sites {
        assert SameShow(r.sites[u], q.sites[u]);
      }
    }
  }

  /** Losing entries that nobody claims loses no reservation. */
  lemma ThinnedOwners(r: Registry, q: Registry, s: nat, seen: set<string>, dropped: set<string>, now: int)
    requires RegistryOk(r) && Elsewhere(r, q, s) && s in r.sites && Thinned(r.sites[s], q.sites[s], seen, dropped, now)
    ensures OwnsNoMore(r, q) && OwnersStay(r, q)
  {
    hide RegistryOk, IndexThinned, EntryValid;
    SiteFacts(r, s);
    forall u, t, id ensures Owns(q, u, t, id) ==> Owns(r, u, t, id)
      ensures Owns(r, u, t, id) && u in q.sites ==> t in q.sites[u].table
    {
      if u in r.sites && u != s {
        assert SameShow(r.sites[u], q.sites[u]);
      }
      if u == s && t in r.sites[s].table {
        assert EntryOk(t, r.sites[s].table[t]);
      }
    }
  }

  /** A session's claims are in the table. */
  lemma MineThere(w: World, i: nat, u: nat)
    requires Inv(w) && i in w.sessions && u in w.r.sites
    ensures forall t :: CountOf(Mine(w.sessions, i, u), t) > 0 ==> t in w.r.sites[u].table
  {
    hide RegistryOk, ClaimsOk, OwnersOk;
    forall t | CountOf(Mine(w.sessions, i, u), t) > 0 ensures t in w.r.sites[u].table {
      if w.sessions[i].site == u {
        ClaimedIsPending(w, i, t);
      }
    }
  }

  lemma ElsewhereKeys(r: Registry, q: Registry, s: nat)
    requires Elsewhere(r, q, s)
    ensures q.sites.Keys == r.sites.Keys
  {
  }

  /** Entries that nobody claims and that have expired go, in both worlds. */
  lemma ThinnedRel(w: World, w1: World, g: World, g1: World, i: nat, s: nat, seenW: set<string>, seenG: set<string>,
                   dropped: set<string>, now: int, time: int, late: int)
    requires Rel(w, g, i, time) && s in w.r.sites && w1.sessions == w.sessions && w1.callers == w.callers
    requires g1.sessions == g.sessions && g1.callers == g.callers && Inv(w1) && Inv(g1)
    requires Core(w1.r) == Core(w.r) && Core(g1.r) == Core(g.r) && time <= late && now <= late
    requires Elsewhere(w.r, w1.r, s) && Elsewhere(g.r, g1.r, s) && s in g.r.sites
    requires Thinned(w.r.sites[s], w1.r.sites[s], seenW, dropped, now) && Thinned(g.r.sites[s], g1.r.sites[s], seenG, dropped, now)
    requires forall t :: t in seenW && t in g.r.sites[s].table ==> t in seenG
    ensures Rel(w1, g1, i, late)
  {
    hide Inv, HeldAt, Core, SiteRel, EntryValid, CountOf, OwnsNoMore, OwnersStay, Thinned, RegistryOk, OwnersOk, Elsewhere, SiteRelAt,
         IndexOk, EntriesOk;
    RelParts(w, g, i, time);
    RelSite(w, g, i, time, s);
    ElsewhereKeys(w.r, w1.r, s);
    ElsewhereKeys(g.r, g1.r, s);
    InvRegistry(g1);
    ThinnedOwners(w.r, w1.r, s, seenW, dropped, now);
    ThinnedOwners(g.r, g1.r, s, seenG, dropped, now);
    SiteFacts(g1.r, s);
    ThinnedBoth(w.r.sites[s], g.r.sites[s], w1.r.sites[s], g1.r.sites[s], seenW, seenG, dropped, Mine(w.sessions, i, s), time, now,
                late);
    assert SiteRelAt(w1, g1, i, s, late) by { SiteRelNow(w1, g1, i, s, late); }
    AtSite(w, w1, g, g1, i, s, time, late);
    HeldLater(w, w1, g, g1, i, time);
  }

  lemma SiteRelNow(w: World, g: World, i: nat, s: nat, time: int)
    requires i in w.sessions && s in w.r.sites && s in g.r.sites
    requires SiteRel(w.r.sites[s], g.r.sites[s], Mine(w.sessions, i, s), time)
    ensures SiteRelAt(w, g, i, s, time)
  {
    hide SiteRel;
  }
}
