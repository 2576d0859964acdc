/** The steps of everybody else, taken in both runs: what one of them does keeps the relation. */
module RegistryOthers {
  import opened Wrappers
  import opened RegistrySpec
  import opened RegistryAuthorities
  import opened RegistryTables
  import opened RegistrySessions
  import opened RegistryRuns
  import opened RegistryTransactions
  import opened RegistryCore
  import opened RegistryCells
  import opened RegistryEffects
  import opened RegistryBeside
  import opened RegistryRoom
  import opened RegistryLookup
  import opened RegistryOwn

  // ---------- looking a cache key up ----------

  lemma OtherMine(sessions: map<nat, Session>, i: nat, j: nat, x: Session)
    requires i in sessions && j != i
    ensures i in sessions[j := x] && Idle(sessions[j := x], i) == Idle(sessions, i)[j := x]
    ensures forall v :: Mine(sessions[j := x], i, v) == Mine(sessions, i, v)
  {
  }

  lemma ClaimBoth(w: World, w1: World, g: World, g1: World, i: nat, j: nat, t: string, time: int)
    requires Rel(w, g, i, time) && j != i && OpenSession(w, j) && OpenSession(g, j) && Inv(w1) && Inv(g1)
    requires w.sessions[j] == g.sessions[j]
    requires t in w.r.sites[w.sessions[j].site].table && t in g.r.sites[w.sessions[j].site].table
    requires w1 == Minting(w, j, Some(t), Claim(w.r, w.sessions[j].site, t))
    requires g1 == Minting(g, j, Some(t), Claim(g.r, w.sessions[j].site, t))
    ensures Rel(w1, g1, i, time)
  {
    hide Inv, Claim, Core, SiteRel, HeldAt, Mine, Idle, OwnsNoMore, OwnersStay, Claimed;
    var s := w.sessions[j].site;
    RelSite(w, g, i, time, s);
    ClaimEffect(w.r, s, t);
    ClaimEffect(g.r, s, t);
    CoreClaim(w.r, s, t);
    CoreClaim(g.r, s, t);
    OtherMine(w.sessions, i, j, w1.sessions[j]);
    ClaimedBoth(w.r.sites[s], g.r.sites[s], Mine(w.sessions, i, s), time, t);
    assert SiteRelAt(w1, g1, i, s, time);
    AtSite(w, w1, g, g1, i, s, time, time);
    ClaimOwners(w.r, s, t);
    ClaimOwners(g.r, s, t);
    HeldLater(w, w1, g, g1, i, time);
  }

  lemma TakeOver(w: World, w1: World, g: World, g1: World, i: nat, j: nat, t: string, time: int)
    requires Rel(w, g, i, time) && j != i && OpenSession(w, j) && OpenSession(g, j) && Inv(w1) && Inv(g1)
    requires w.sessions[j] == g.sessions[j]
    requires var s := w.sessions[j].site;
      && t in w.r.sites[s].table && t !in g.r.sites[s].table && !w.r.sites[s].table[t].published
      && w.r.sites[s].table[t].token == t
      && w.r.sites[s].table[t].cacheKey in w.r.sites[s].index && w.r.sites[s].index[w.r.sites[s].table[t].cacheKey] == t
    requires w1 == Minting(w, j, Some(t), Claim(w.r, w.sessions[j].site, t))
    requires var e := w.r.sites[w.sessions[j].site].table[t].(pending := 1);
      g1 == Minting(g, j, Some(t), Insert(g.r, w.sessions[j].site, e))
              .(callers := HandedOver(g.callers, t, Some(t), e.reservation))
    ensures Rel(w1, g1, i, time)
  {
    hide Inv, Claim, Insert, Core, SiteRel, HeldAt, Mine, Idle, Claimed, Entered1;
    var s := w.sessions[j].site;
    var e := w.r.sites[s].table[t].(pending := 1);
    RelSite(w, g, i, time, s);
    ClaimEffect(w.r, s, t);
    InsertEffect(g.r, s, e);
    CoreClaim(w.r, s, t);
    CoreInsert(g.r, s, e);
    OtherMine(w.sessions, i, j, w1.sessions[j]);
    TakenOver(w.r.sites[s], g.r.sites[s], Mine(w.sessions, i, s), time, t);
    RelShow(w1.r.sites[s], Entered1(g.r.sites[s], e), w1.r.sites[s], g1.r.sites[s], Mine(w.sessions, i, s), time);
    assert SiteRelAt(w1, g1, i, s, time);
    AtSite(w, w1, g, g1, i, s, time, time);
    TakenHeld(w, w1, g, g1, s, t);
  }

  lemma TakenHeld(w: World, w1: World, g: World, g1: World, s: nat, t: string)
    requires Inv(w) && s in w.r.sites && t in w.r.sites[s].table && s in g.r.sites && w.callers <= g.callers
    requires w1.r == Claim(w.r, s, t) && w1.callers == w.callers
    requires var e := w.r.sites[s].table[t].(pending := 1);
      && e.token == t && g1.r == Insert(g.r, s, e)
      && g1.callers == HandedOver(g.callers, t, Some(t), e.reservation)
    requires forall u, v :: HeldAt(w, g, u, v)
    ensures (forall u, v :: HeldAt(w1, g1, u, v)) && w1.callers <= g1.callers
  {
    hide RegistryOk, ClaimsOk, OwnersOk, EntryMemory, Claim;
    ClaimOwners(w.r, s, t);
    var e := w.r.sites[s].table[t];
    if e.reservation.Some? {
      assert Owns(w.r, s, t, e.reservation.value);
      OwnerUnique(w.r, w.callers, s, t, e.reservation.value);
    }
    forall u, v, id | Owns(w1.r, u, v, id) && u in g1.r.sites && v !in g1.r.sites[u].table ensures id in g1.callers {
      assert Owns(w.r, u, v, id);
      assert HeldAt(w, g, u, v);
    }
  }

  lemma OtherSession(w: World, g: World, i: nat, time: int, j: nat)
    requires Rel(w, g, i, time) && j != i && j in w.sessions
    ensures j in g.sessions && g.sessions[j] == w.sessions[j]
    ensures OpenSession(w, j) ==> OpenSession(g, j)
  {
    hide Inv, Core, HeldAt, SiteRel;
    if OpenSession(w, j) {
      RelSite(w, g, i, time, w.sessions[j].site);
    }
  }

  lemma OtherReuse(w: World, g: World, g1: World, i: nat, x: Step, time: int)
    requires Rel(w, g, i, time) && x.ReuseKey? && x.i != i && Enabled(w, x) && OtherStep(w, g, x, g1, time) && Inv(Next(w, x))
    ensures Rel(Next(w, x), g1, i, x.now)
  {
    hide Rel, Inv, Reuse, Register, RegistryOk, OwnersOk, Found, Claim, Insert;
    RelParts(w, g, i, time);
    OtherSession(w, g, i, time, x.i);
    var s := w.sessions[x.i].site;
    var answer := Reuse(w.r, s, x.cacheKey, x.now).1;
    if answer.None? {
      NoneToo(w, g, i, s, x.cacheKey, x.now, time);
      StepKeeps(g, x);
      NextReuseNone(w, x);
      NextReuseNone(g, x);
      NoneBoth(w, Next(w, x), g, g1, i, s, x.cacheKey, x.now, time, x.now);
    } else {
      OtherFinds(w, g, g1, i, x, time);
    }
  }

  lemma OtherFinds(w: World, g: World, g1: World, i: nat, x: Step, time: int)
    requires Rel(w, g, i, time) && x.ReuseKey? && x.i != i && Enabled(w, x) && OtherStep(w, g, x, g1, time) && Inv(Next(w, x))
    requires Answer(w, x).Some? && OpenSession(g, x.i) && g.sessions[x.i] == w.sessions[x.i]
    ensures Rel(Next(w, x), g1, i, x.now)
  {
    hide Rel, Inv, Reuse, Register, RegistryOk, OwnersOk, Found, Claim, Insert;
    RelParts(w, g, i, time);
    var s, t := w.sessions[x.i].site, Answer(w, x).value;
    RelSite(w, g, i, time, s);
    ReuseFinds(w.r, s, x.cacheKey, x.now);
    ReuseOk(w.r, s, x.cacheKey, x.now);
    FoundBoth(w.r.sites[s], g.r.sites[s], Mine(w.sessions, i, s), x.cacheKey, t, time, x.now);
    if t in g.r.sites[s].table {
      ReuseFinds(g.r, s, x.cacheKey, x.now);
      SameFound(g.r.sites[s], x.cacheKey, x.now, t, Reuse(g.r, s, x.cacheKey, x.now).1);
      ReuseOk(g.r, s, x.cacheKey, x.now);
      StepKeeps(g, x);
      ClaimBoth(w, Next(w, x), g, g1, i, x.i, t, time);
    } else {
      FoundIndex(w.r.sites[s], x.cacheKey, x.now, t);
      TakeOverStep(w, Next(w, x), g, g1, i, x, time);
    }
    LaterRel(Next(w, x), g1, i, time, x.now);
  }

  lemma SameFound(x: Site, k: string, now: int, t: string, answer: Option<string>)
    requires Found(x, k, now, t)
    requires (answer.Some? ==> Found(x, k, now, answer.value)) && (answer.None? ==> forall v :: !Found(x, k, now, v))
    ensures answer == Some(t)
  {
  }

  lemma FoundIndex(x: Site, k: string, now: int, t: string)
    requires Found(x, k, now, t)
    ensures k in x.index && x.index[k] == t
  {
  }

  /** The given capability, as another session would have entered it, fits in without the session. */
  lemma EnterAnswers(w: World, g: World, i: nat, x: Step, time: int)
    requires Rel(w, g, i, time) && (x.ReuseKey? || x.RegisterToken?) && OpenSession(w, x.i) && OpenSession(g, x.i)
    requires w.sessions[x.i] == g.sessions[x.i]
    requires var s := w.sessions[x.i].site; var t := Answer(w, x);
      && t.Some? && t.value in w.r.sites[s].table && t.value !in g.r.sites[s].table
      && w.r.sites[s].table[t.value].cacheKey in w.r.sites[s].index
      && w.r.sites[s].index[w.r.sites[s].table[t.value].cacheKey] == t.value
    ensures var y := EnterInstead(w, x); Answer(g, y) == Some(y.token)
  {
    hide Rel, Inv, Register, RegistryOk, OwnersOk, Reuse, Fits, SiteRel;
    RelParts(w, g, i, time);
    var s, t := w.sessions[x.i].site, Answer(w, x).value;
    var y := EnterInstead(w, x);
    RelSite(w, g, i, time, s);
    TokenFacts(w.r, s, t);
    KeyFree(w.r.sites[s], g.r.sites[s], Mine(w.sessions, i, s), y.cacheKey, time);
    FitsInstead(w, g, i, time, s, t);
    FitsSame(g.r, s, w.r.sites[s].table[t], NewEntry(y));
    RegisterAnswers(g.r, s, y);
  }

  lemma FitsSame(r: Registry, s: nat, e: Entry, f: Entry)
    requires s in r.sites && Fits(r, s, e) && e.token == f.token && e.cacheKey == f.cacheKey
    ensures Fits(r, s, f)
  {
  }

  lemma KeyFree(a: Site, b: Site, mine: seq<string>, k: string, time: int)
    requires SiteRel(a, b, mine, time) && IndexOk(b) && k in a.index && a.index[k] !in b.table
    ensures k !in b.index
  {
    hide Cell, CountOf;
    assert IndexCell(a, b, k);
  }

  /** Entering the capability instead of being given it. */
  lemma TakeOverStep(w: World, w1: World, g: World, g1: World, i: nat, x: Step, time: int)
    requires Rel(w, g, i, time) && (x.ReuseKey? || x.RegisterToken?) && x.i != i && OpenSession(w, x.i) && OpenSession(g, x.i)
    requires w.sessions[x.i] == g.sessions[x.i] && Inv(w1)
    requires var s := w.sessions[x.i].site; var t := Answer(w, x);
      && t.Some? && t.value in w.r.sites[s].table && t.value !in g.r.sites[s].table && !w.r.sites[s].table[t.value].published
      && w.r.sites[s].table[t.value].cacheKey in w.r.sites[s].index
      && w.r.sites[s].index[w.r.sites[s].table[t.value].cacheKey] == t.value
      && w1 == Minting(w, x.i, t, Claim(w.r, s, t.value))
    requires Moves(g, EnterInstead(w, x), g1)
    ensures Rel(w1, g1, i, time)
  {
    hide Rel, Inv, Register, RegistryOk, OwnersOk, Claim, Insert, Reuse;
    RelParts(w, g, i, time);
    var s, t := w.sessions[x.i].site, Answer(w, x).value;
    var y := EnterInstead(w, x);
    TokenFacts(w.r, s, t);
    EnterAnswers(w, g, i, x, time);
    RegisterQuiet(g.r, s, y.token, y.cacheKey, y.expiresAt, y.now, y.reservation);
    StepKeeps(g, y);
    TakeOver(w, w1, g, g1, i, x.i, t, time);
  }

  // ---------- entering a capability ----------

  lemma EnterBoth(w: World, w1: World, g: World, g1: World, i: nat, j: nat, e: Entry, time: int)
    requires Rel(w, g, i, time) && j != i && OpenSession(w, j) && OpenSession(g, j) && Inv(w1) && Inv(g1)
    requires w.sessions[j] == g.sessions[j]
    requires e.token !in w.r.sites[w.sessions[j].site].table && e.token !in g.r.sites[w.sessions[j].site].table
    requires e.reservation.Some? ==> e.reservation.value in w.callers
    requires w1 == Minting(w, j, Some(e.token), Insert(w.r, w.sessions[j].site, e))
                     .(callers := HandedOver(w.callers, e.token, Some(e.token), e.reservation))
    requires g1 == Minting(g, j, Some(e.token), Insert(g.r, w.sessions[j].site, e))
                     .(callers := HandedOver(g.callers, e.token, Some(e.token), e.reservation))
    ensures Rel(w1, g1, i, time)
  {
    hide Inv, Insert, Core, SiteRel, HeldAt, Mine, Idle, Entered1, CountOf;
    var s := w.sessions[j].site;
    RelSite(w, g, i, time, s);
    InsertEffect(w.r, s, e);
    InsertEffect(g.r, s, e);
    CoreInsert(w.r, s, e);
    CoreInsert(g.r, s, e);
    OtherMine(w.sessions, i, j, w1.sessions[j]);
    MineThere(w, i, s);
    EnteredBoth(w.r.sites[s], g.r.sites[s], Mine(w.sessions, i, s), time, e);
    RelShow(Entered1(w.r.sites[s], e), Entered1(g.r.sites[s], e), w1.r.sites[s], g1.r.sites[s], Mine(w.sessions, i, s), time);
    assert SiteRelAt(w1, g1, i, s, time);
    AtSite(w, w1, g, g1, i, s, time, time);
    EnteredHeld(w, w1, g, g1, s, e);
  }

  lemma EnteredHeld(w: World, w1: World, g: World, g1: World, s: nat, e: Entry)
    requires Inv(w) && s in w.r.sites && s in g.r.sites && w.callers <= g.callers
    requires e.reservation.Some? ==> e.reservation.value in w.callers
    requires w1.r == Insert(w.r, s, e) && w1.callers == HandedOver(w.callers, e.token, Some(e.token), e.reservation)
    requires g1.r == Insert(g.r, s, e) && g1.callers == HandedOver(g.callers, e.token, Some(e.token), e.reservation)
    requires forall u, v :: HeldAt(w, g, u, v)
    ensures (forall u, v :: HeldAt(w1, g1, u, v)) && w1.callers <= g1.callers
  {
    hide RegistryOk, ClaimsOk, OwnersOk, EntryMemory;
    forall u, v, id | Owns(w1.r, u, v, id) && u in g1.r.sites && v !in g1.r.sites[u].table ensures id in g1.callers {
      assert Owns(w.r, u, v, id);
      OwnerUnique(w.r, w.callers, u, v, id);
      assert HeldAt(w, g, u, v);
    }
  }

  /** A registration is answered with the indexed token, valid or not, or with its own if there is room. */
  lemma RegisterAnswers(r: Registry, s: nat, x: Step)
    requires RegistryOk(r) && s in r.sites && x.RegisterToken? && x.token !in r.sites[s].table
    ensures Register(r, s, x.token, x.cacheKey, x.expiresAt, x.now, x.reservation).1
         == if !Registrable(x) then None
            else if x.cacheKey in r.sites[s].index then Some(r.sites[s].index[x.cacheKey])
            else if Fits(r, s, NewEntry(x)) then Some(x.token) else None
    ensures x.cacheKey in r.sites[s].index ==>
      r.sites[s].index[x.cacheKey] in r.sites[s].table && r.sites[s].table[r.sites[s].index[x.cacheKey]].cacheKey == x.cacheKey
  {
    hide RegistryOk, Claim, DropIndex, Insert, Fits, IndexOk, EntriesOk;
    EmptyTokenAbsent(r, s);
    SiteFacts(r, s);
    if x.cacheKey in r.sites[s].index {
      IndexLeads(r.sites[s], x.cacheKey);
    }
  }

  /**
   Another session's registration is answered differently in the two runs, other than by
   a capability that it takes over, if and only if it shows session i; a refused one if
   and only if there is room in one run and not in the other.
   */
  lemma ShowsExactly(w: World, g: World, i: nat, x: Step, time: int)
    requires Rel(w, g, i, time) && x.RegisterToken? && Enabled(w, x) && OpenSession(g, x.i) && g.sessions[x.i] == w.sessions[x.i]
    ensures Shows(w, g, x) <==> !AnswerIsOwn(w, g, x) && Answer(g, x) != Answer(w, x)
    ensures Answer(w, x).None? ==>
      (Answer(g, x).Some? <==> Registrable(x) && Fits(w.r, w.sessions[x.i].site, NewEntry(x)) != Fits(g.r, w.sessions[x.i].site, NewEntry(x)))
  {
    hide Rel, Inv, Register, RegistryOk, OwnersOk, Fits, SiteRel, IndexOk, EntriesOk;
    RelParts(w, g, i, time);
    var s := w.sessions[x.i].site;
    RelSite(w, g, i, time, s);
    RegisterAnswers(w.r, s, x);
    TokenNew(w.r.sites[s], g.r.sites[s], Mine(w.sessions, i, s), x.token, time);
    RegisterAnswers(g.r, s, x);
    KeyBoth(w.r.sites[s], g.r.sites[s], Mine(w.sessions, i, s), x.cacheKey, time);
    if Fits(w.r, s, NewEntry(x)) {
      FitsBoth(w, g, i, time, s, NewEntry(x));
    }
  }

  lemma TokenNew(a: Site, b: Site, mine: seq<string>, t: string, time: int)
    requires SiteRel(a, b, mine, time) && t !in a.table
    ensures t !in b.table
  {
    assert Cell(a, b, t, CountOf(mine, t), time);
  }

  lemma KeyBoth(a: Site, b: Site, mine: seq<string>, k: string, time: int)
    requires SiteRel(a, b, mine, time) && IndexOk(a) && IndexOk(b)
    ensures k in b.index <==> k in a.index && a.index[k] in b.table
    ensures k in b.index ==> b.index[k] == a.index[k]
  {
    hide Cell, CountOf;
    assert IndexCell(a, b, k);
  }

  lemma OtherRegister(w: World, g: World, g1: World, i: nat, x: Step, time: int)
    requires Rel(w, g, i, time) && x.RegisterToken? && x.i != i && Enabled(w, x) && OtherStep(w, g, x, g1, time)
    requires Inv(Next(w, x))
    ensures Rel(Next(w, x), g1, i, time)
  {
    hide Rel, Inv, Register, RegistryOk, OwnersOk, Claim, Insert, Fits, Shows;
    RelParts(w, g, i, time);
    OtherSession(w, g, i, time, x.i);
    var s := w.sessions[x.i].site;
    RelSite(w, g, i, time, s);
    RegisterQuiet(w.r, s, x.token, x.cacheKey, x.expiresAt, x.now, x.reservation);
    RegisterAnswers(w.r, s, x);
    var answer := Register(w.r, s, x.token, x.cacheKey, x.expiresAt, x.now, x.reservation).1;
    if AnswerIsOwn(w, g, x) {
      TakeOverStep(w, Next(w, x), g, g1, i, x, time);
    } else {
      ShowsExactly(w, g, i, x, time);
      RegisterQuiet(g.r, s, x.token, x.cacheKey, x.expiresAt, x.now, x.reservation);
      StepKeeps(g, x);
      if answer.None? {
        assert Next(w, x) == w && g1 == g;
      } else if answer.value in w.r.sites[s].table {
        assert answer != Some(x.token);
        ClaimBoth(w, Next(w, x), g, g1, i, x.i, answer.value, time);
      } else {
        EnterBoth(w, Next(w, x), g, g1, i, x.i, NewEntry(x), time);
      }
    }
  }
}
