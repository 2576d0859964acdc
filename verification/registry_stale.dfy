/**
 A registration claims whatever entry its cache key leads to, valid or not. When it
 hands out an expired one, and that a lookup of the key just before nearly always
 prevents it.
 */
module RegistryStale {
  import opened Wrappers
  import opened RegistrySpec
  import opened RegistryAuthorities
  import opened RegistryTables
  import opened RegistrySessions
  import opened RegistryRuns
  import opened RegistryTransactions
  import opened RegistryCore
  import opened RegistryCells
  import opened RegistryEffects
  import opened RegistryBeside
  import opened RegistryLookup
  import opened RegistryOthers
  import opened RegistryShared
  import opened RegistryIsolation

  // ---------- one registration ----------

  predicate Stale(r: Registry, s: nat, answer: Option<string>, now: int)
    requires s in r.sites
  {
    && answer.Some? && answer.value in r.sites[s].table
    && !EntryValid(r.sites[s].table[answer.value], now, r.sites[s].limits.idle)
  }

  /**
   A registration hands out an entry that is not valid at its own reading of the clock
   if and only if its key leads to one. Where nothing may idle at all, every entry is such.
   */
  lemma StaleExactly(r: Registry, s: nat, x: Step)
    requires s in r.sites && x.RegisterToken?
    ensures var (q, answer) := Register(r, s, x.token, x.cacheKey, x.expiresAt, x.now, x.reservation);
      var site := r.sites[s]; var led := IndexedToken(site, x.cacheKey);
      && s in q.sites && (answer.Some? ==> answer.value in q.sites[s].table)
      && (site.limits.idle > 0 ==>
            (Stale(q, s, answer, x.now) <==>
               Registrable(x) && led in site.table && site.table[led].cacheKey == x.cacheKey
               && !EntryValid(site.table[led], x.now, site.limits.idle)))
      && (site.limits.idle <= 0 ==> (Stale(q, s, answer, x.now) <==> answer.Some?))
  {
    hide Fits, EntryMemory;
  }

  /** A session that was handed one cannot publish any more: nothing of it is published. */
  lemma StaleUnpublished(r: Registry, s: nat, t: string, now: int, tokens: seq<string>, order: seq<string>, later: int)
    requires s in r.sites && Stale(r, s, Some(t), now) && now <= later && t in tokens
    ensures !Settle(r, s, tokens, order, true, later).1
    ensures Settle(r, s, tokens, order, true, later).0 == SettleEach(r, s, order, tokens, false)
  {
    hide CountOf, SettleEach;
  }

  // ---------- a lookup before ----------

  /** The key leads to nothing, or to an entry that is valid at the given time. */
  ghost predicate LeadsValid(w: World, s: nat, k: string, now: int) {
    s in w.r.sites && k in w.r.sites[s].index ==>
      var site := w.r.sites[s];
      site.index[k] in site.table && EntryValid(site.table[site.index[k]], now, site.limits.idle)
  }

  /**
   Whoever enters or uses a capability of this key has read the clock late enough for it
   to be valid at the given time.
   */
  ghost predicate InTime(w: World, s: nat, k: string, x: Step, now: int)
    requires Enabled(w, x)
  {
    match x
    case RegisterToken(j, _, key, _, _, _) =>
      w.sessions[j].site == s && key == k && Registrable(x) ==> EntryValid(NewEntry(x), now, w.r.sites[s].limits.idle)
    case UseToken(u, t, reading) =>
      u == s && k in w.r.sites[s].index && w.r.sites[s].index[k] == t ==> now < reading + w.r.sites[s].limits.idle
    case _ => true
  }

  /** No entry is younger than before, and no key leads anywhere else. */
  ghost predicate LifeKept(r: Registry, q: Registry, s: nat, k: string) {
    s in q.sites && k in q.sites[s].index ==>
      && s in r.sites && q.sites[s].limits == r.sites[s].limits && k in r.sites[s].index
      && q.sites[s].index[k] == r.sites[s].index[k] && SameLife(r.sites[s], q.sites[s])
  }

  lemma LifeLeads(w: World, w1: World, s: nat, k: string, now: int)
    requires LeadsValid(w, s, k, now) && LifeKept(w.r, w1.r, s, k) && (s in w1.r.sites ==> IndexOk(w1.r.sites[s]))
    ensures LeadsValid(w1, s, k, now)
  {
  }

  lemma ElsewhereLife(r: Registry, q: Registry, u: nat, s: nat, k: string)
    requires Elsewhere(r, q, u) && u != s
    ensures LifeKept(r, q, s, k)
  {
  }

  lemma ThinnedLife(r: Registry, q: Registry, s: nat, k: string, seen: set<string>, dropped: set<string>, now: int)
    requires s in r.sites && s in q.sites && Thinned(r.sites[s], q.sites[s], seen, dropped, now)
    ensures LifeKept(r, q, s, k)
  {
    hide EntryValid;
  }

  lemma ClaimLife(r: Registry, u: nat, t: string, s: nat, k: string)
    requires u in r.sites && t in r.sites[u].table
    ensures LifeKept(r, Claim(r, u, t), s, k)
  {
  }

  lemma ReuseLife(w: World, x: Step, s: nat, k: string)
    requires Inv(w) && x.ReuseKey? && Enabled(w, x)
    ensures LifeKept(w.r, Next(w, x).r, s, k)
  {
    hide Inv, RegistryOk, Reuse, Claim, LifeKept, Thinned, LedTo, Elsewhere;
    InvRegistry(w);
    var u := w.sessions[x.i].site;
    ReuseOk(w.r, u, x.cacheKey, x.now);
    var (q, answer) := Reuse(w.r, u, x.cacheKey, x.now);
    if answer.Some? {
      ClaimLife(w.r, u, answer.value, s, k);
    } else {
      ReuseNoneEffect(w.r, u, x.cacheKey, x.now);
      if u == s {
        ThinnedLife(w.r, q, s, k, LedTo(w.r.sites[s], x.cacheKey), {x.cacheKey}, x.now);
      } else {
        ElsewhereLife(w.r, q, u, s, k);
      }
    }
  }

  lemma RegisterLeads(w: World, x: Step, s: nat, k: string, now: int)
    requires Inv(w) && x.RegisterToken? && Enabled(w, x) && LeadsValid(w, s, k, now) && InTime(w, s, k, x, now)
    requires Inv(Next(w, x))
    ensures LeadsValid(Next(w, x), s, k, now)
  {
    hide Inv, RegistryOk, Register, Claim, Insert, LifeKept, LeadsValid;
    InvRegistry(w);
    InvRegistry(Next(w, x));
    var u := w.sessions[x.i].site;
    RegisterQuiet(w.r, u, x.token, x.cacheKey, x.expiresAt, x.now, x.reservation);
    var (q, answer) := Register(w.r, u, x.token, x.cacheKey, x.expiresAt, x.now, x.reservation);
    if answer.None? {
      SameLeads(w, Next(w, x), s, k, now);
    } else if answer.value in w.r.sites[u].table {
      ClaimLife(w.r, u, answer.value, s, k);
      IndexAt(Next(w, x), s);
      LifeLeads(w, Next(w, x), s, k, now);
    } else {
      AnsweredIsRegistrable(w.r, u, x);
      InsertLeads(w, Next(w, x), u, NewEntry(x), s, k, now);
    }
  }

  lemma AnsweredIsRegistrable(r: Registry, s: nat, x: Step)
    requires s in r.sites && x.RegisterToken?
    requires Register(r, s, x.token, x.cacheKey, x.expiresAt, x.now, x.reservation).1.Some?
    ensures Registrable(x)
  {
    hide Fits, Claim, Insert, DropIndex;
  }

  lemma SameLeads(w: World, w1: World, s: nat, k: string, now: int)
    requires LeadsValid(w, s, k, now) && w1.r == w.r
    ensures LeadsValid(w1, s, k, now)
  {
  }

  lemma IndexAt(w: World, s: nat)
    requires Inv(w)
    ensures s in w.r.sites ==> IndexOk(w.r.sites[s])
  {
    hide RegistryOk, ClaimsOk, OwnersOk, IndexOk, EntriesOk;
    if s in w.r.sites {
      SiteFacts(w.r, s);
    }
  }

  lemma InsertLeads(w: World, w1: World, u: nat, e: Entry, s: nat, k: string, now: int)
    requires LeadsValid(w, s, k, now) && u in w.r.sites && w1.r == Insert(w.r, u, e) && e.token !in w.r.sites[u].table
    requires u == s && e.cacheKey == k ==> EntryValid(e, now, w.r.sites[s].limits.idle)
    ensures LeadsValid(w1, s, k, now)
  {
    hide EntryMemory;
  }

  lemma SettleLife(w: World, x: Step, s: nat, k: string)
    requires Inv(w) && x.SettleTokens? && Enabled(w, x)
    ensures LifeKept(w.r, Next(w, x).r, s, k)
  {
    hide Inv, RegistryOk, OwnersOk, SettleEach, Settleable, LifeKept, Covered, AllSettled, Elsewhere, CountOf, Publishes;
    var u := w.sessions[x.i].site;
    if u in w.r.sites && x.tokens != [] {
      InvRegistry(w);
      InvOwners(w);
      SettleReady(w, x.i, x.tokens, x.rest, x.order);
      SettleIsEach(w, x);
      var pub := Publishes(w, x);
      var q := SettleEach(w.r, u, x.order, x.tokens, pub);
      SettleEffect(w.r, w.callers, u, x.order, x.tokens, pub);
      if u == s {
        SettledLifeKept(w.r, q, s, k, x.order, x.tokens, pub);
      } else {
        ElsewhereLife(w.r, q, u, s, k);
      }
    } else {
      RegistrySameLife(w.r, s, k);
    }
  }

  lemma RegistrySameLife(r: Registry, s: nat, k: string)
    ensures LifeKept(r, r, s, k)
  {
  }

  lemma SettledLifeKept(r: Registry, q: Registry, s: nat, k: string, order: seq<string>, tokens: seq<string>, publishing: bool)
    requires s in r.sites && s in q.sites && AllSettled(r.sites[s], q.sites[s], order, tokens, publishing)
    ensures LifeKept(r, q, s, k)
  {
    hide CountOf, TokenSettled;
    SettledLife(r.sites[s], q.sites[s], order, tokens, publishing);
  }

  lemma HasLife(w: World, x: Step, s: nat, k: string)
    requires Inv(w) && x.HasToken? && Enabled(w, x)
    ensures LifeKept(w.r, Next(w, x).r, s, k)
  {
    hide Inv, RegistryOk, Has, LifeKept, Thinned, Elsewhere;
    InvRegistry(w);
    HasEffect(w.r, x.s, x.token, x.now);
    var q := Has(w.r, x.s, x.token, x.now).0;
    if x.s == s {
      ThinnedLife(w.r, q, s, k, {x.token}, {}, x.now);
    } else {
      ElsewhereLife(w.r, q, x.s, s, k);
    }
  }

  lemma UseLeads(w: World, x: Step, s: nat, k: string, now: int)
    requires Inv(w) && x.UseToken? && Enabled(w, x) && LeadsValid(w, s, k, now) && InTime(w, s, k, x, now)
    requires Inv(Next(w, x))
    ensures LeadsValid(Next(w, x), s, k, now)
  {
    hide Inv, RegistryOk, Use, LifeKept, Thinned, Elsewhere, UsedAt, LeadsValid, EntryValid;
    InvRegistry(w);
    IndexAt(Next(w, x), s);
    UseEffect(w.r, x.s, x.token, x.now);
    var q := Use(w.r, x.s, x.token, x.now).0;
    if x.s != s {
      ElsewhereLife(w.r, q, x.s, s, k);
      LifeLeads(w, Next(w, x), s, k, now);
    } else if Use(w.r, x.s, x.token, x.now).1 {
      UsedLeads(w, Next(w, x), x, s, k, now);
    } else {
      ThinnedLife(w.r, q, s, k, {x.token}, {}, x.now);
      LifeLeads(w, Next(w, x), s, k, now);
    }
  }

  lemma UsedLeads(w: World, w1: World, x: Step, s: nat, k: string, now: int)
    requires x.UseToken? && x.s == s && s in w.r.sites && x.token in w.r.sites[s].table && s in w1.r.sites
    requires w1.r.sites[s] == UsedAt(w.r.sites[s], x.token, x.now) && LeadsValid(w, s, k, now)
    requires k in w.r.sites[s].index && w.r.sites[s].index[k] == x.token ==> now < x.now + w.r.sites[s].limits.idle
    ensures LeadsValid(w1, s, k, now)
  {
  }

  lemma PruneLife(w: World, x: Step, s: nat, k: string)
    requires Inv(w) && x.Prune? && Enabled(w, x)
    ensures LifeKept(w.r, Next(w, x).r, s, k)
  {
    hide Inv, RegistryOk, DeleteAll, LifeKept, Thinned, Elsewhere, Core, Dead;
    NextPrune(w, x);
    PrunedCore(w, x.s, x.order, x.now);
    PruneSite(w, x.s, x.order, x.now);
    var q := DeleteAll(w.r, x.s, x.order);
    if x.s == s {
      ThinnedLife(w.r, q, s, k, w.r.sites[s].table.Keys, {}, x.now);
    } else {
      ElsewhereLife(w.r, q, x.s, s, k);
    }
  }

  lemma PlainLife(w: World, x: Step, s: nat, k: string)
    requires Inv(w) && Enabled(w, x)
    requires x.NewSite? || x.Close? || x.Begin? || x.ReserveAuthority? || x.FinishReservation?
    ensures LifeKept(w.r, Next(w, x).r, s, k)
  {
    hide Inv, RegistryOk, Reserve, Finish;
    InvRegistry(w);
    if x.ReserveAuthority? {
      ReserveShows(w.r, x.s, x.authority, x.now);
    } else if x.FinishReservation? {
      FinishShows(w.r, Some(x.id), x.commit);
    }
  }

  /** From one step to the next, the key does not come to lead to anything expired. */
  lemma StepLeads(w: World, x: Step, s: nat, k: string, now: int)
    requires Inv(w) && Enabled(w, x) && LeadsValid(w, s, k, now) && InTime(w, s, k, x, now)
    ensures Inv(Next(w, x)) && LeadsValid(Next(w, x), s, k, now)
  {
    hide Inv, Next, Enabled, LeadsValid, LifeKept, InTime, IndexOk;
    StepKeeps(w, x);
    IndexAt(Next(w, x), s);
    if x.RegisterToken? {
      RegisterLeads(w, x, s, k, now);
    } else if x.UseToken? {
      UseLeads(w, x, s, k, now);
    } else {
      if x.ReuseKey? {
        ReuseLife(w, x, s, k);
      } else if x.SettleTokens? {
        SettleLife(w, x, s, k);
      } else if x.HasToken? {
        HasLife(w, x, s, k);
      } else if x.Prune? {
        PruneLife(w, x, s, k);
      } else {
        PlainLife(w, x, s, k);
      }
      LifeLeads(w, Next(w, x), s, k, now);
    }
  }

  ghost predicate InTimeRun(w: World, s: nat, k: string, steps: seq<Step>, now: int)
    requires Runs(w, steps)
    decreases |steps|
  {
    steps == [] || (InTime(w, s, k, steps[0], now) && InTimeRun(Next(w, steps[0]), s, k, steps[1..], now))
  }

  lemma SiteStays(w: World, x: Step, i: nat)
    requires Enabled(w, x) && i in w.sessions
    ensures i in Next(w, x).sessions && Next(w, x).sessions[i].site == w.sessions[i].site
  {
    hide Reuse, Register, Settle, Has, Use, DeleteAll, Reserve, Finish, CloseSite, OpenSite, Dead, Enumerates;
  }

  lemma {:induction false} RunLeads(w: World, steps: seq<Step>, s: nat, k: string, i: nat, now: int)
    requires Inv(w) && Runs(w, steps) && LeadsValid(w, s, k, now) && InTimeRun(w, s, k, steps, now) && i in w.sessions
    ensures var end := After(w, steps);
      Inv(end) && LeadsValid(end, s, k, now) && i in end.sessions && end.sessions[i].site == w.sessions[i].site
    decreases |steps|
  {
    hide Inv, Next, Enabled, LeadsValid, InTime;
    if steps != [] {
      StepLeads(w, steps[0], s, k, now);
      SiteStays(w, steps[0], i);
      RunLeads(Next(w, steps[0]), steps[1..], s, k, i, now);
    }
  }

  /** After a lookup in vain the key leads nowhere. */
  lemma VainLeads(w: World, lookup: Step, now: int)
    requires Inv(w) && lookup.ReuseKey? && Enabled(w, lookup) && Answer(w, lookup).None?
    ensures LeadsValid(Next(w, lookup), w.sessions[lookup.i].site, lookup.cacheKey, now)
  {
    hide Inv, RegistryOk, Reuse, EntryValid, LedTo;
    InvRegistry(w);
    NextReuseNone(w, lookup);
    ReuseNoneEffect(w.r, w.sessions[lookup.i].site, lookup.cacheKey, lookup.now);
  }

  /**
   A mint looks its key up before it registers. What it registers or is handed then is
   valid at its reading of the clock, whatever happens between the two, unless another
   registration or use of that key has read the clock so much earlier that the entry had
   expired before this reading.
   */
  lemma MintIsValid(w: World, lookup: Step, steps: seq<Step>, x: Step)
    requires Inv(w) && lookup.ReuseKey? && Enabled(w, lookup) && Answer(w, lookup).None?
    requires x.RegisterToken? && x.i == lookup.i && x.cacheKey == lookup.cacheKey && Runs(Next(w, lookup), steps)
    requires InTimeRun(Next(w, lookup), w.sessions[x.i].site, x.cacheKey, steps, x.now)
    requires var w1 := After(Next(w, lookup), steps);
      Enabled(w1, x) && w1.r.sites[w1.sessions[x.i].site].limits.idle > 0
    ensures var w1 := After(Next(w, lookup), steps);
      var s := w1.sessions[x.i].site;
      s in Next(w1, x).r.sites && !Stale(Next(w1, x).r, s, Answer(w1, x), x.now)
  {
    hide Inv, Next, Runs, After, InTimeRun, LeadsValid, Register, Stale, EntryValid;
    StepKeeps(w, lookup);
    SiteStays(w, lookup, x.i);
    VainLeads(w, lookup, x.now);
    var s := w.sessions[x.i].site;
    RunLeads(Next(w, lookup), steps, s, x.cacheKey, x.i, x.now);
    var w1 := After(Next(w, lookup), steps);
    LedValid(w1, s, x);
    StaleExactly(w1.r, s, x);
    NextRegister(w1, x);
  }

  lemma LedValid(w: World, s: nat, x: Step)
    requires x.RegisterToken? && s in w.r.sites && LeadsValid(w, s, x.cacheKey, x.now) && Inv(w)
    ensures var led := IndexedToken(w.r.sites[s], x.cacheKey);
      led in w.r.sites[s].table ==> EntryValid(w.r.sites[s].table[led], x.now, w.r.sites[s].limits.idle)
  {
    hide Inv, RegistryOk, EntryValid;
    InvRegistry(w);
    EmptyTokenAbsent(w.r, s);
  }

  lemma NextRegister(w: World, x: Step)
    requires x.RegisterToken? && Enabled(w, x)
    ensures Next(w, x).r == Register(w.r, w.sessions[x.i].site, x.token, x.cacheKey, x.expiresAt, x.now, x.reservation).0
  {
    hide Register;
  }
}
