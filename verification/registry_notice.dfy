/**
 When a session that is rolled back stays unnoticed, and that nothing is left of it
 then: the run without it exists beside every run in which nobody meets a full table
 or a clock that goes back.
 */
module RegistryNotice {
  import opened Wrappers
  import opened MapSums
  import opened RegistrySpec
  import opened RegistryAuthorities
  import opened RegistryTables
  import opened RegistrySessions
  import opened RegistryRuns
  import opened RegistryTransactions
  import opened RegistryCore
  import opened RegistryCells
  import opened RegistryEffects
  import opened RegistryBeside
  import opened RegistryRoom
  import opened RegistryLookup
  import opened RegistryOwn
  import opened RegistryOthers
  import opened RegistryShared
  import opened RegistryIsolation

  // ---------- one step ----------

  /**
   What the run without the session needs in order to go on: a registration of another
   session does not show the session, others look up and use what is not older than the
   last prune, and the session does not publish.
   */
  ghost predicate Unnoticed(w: World, g: World, i: nat, x: Step, time: int)
    requires Enabled(w, x)
  {
    match x
    case ReuseKey(j, _, now) => j == i || time <= now
    case RegisterToken(j, _, _, _, _, _) => j == i || (w.sessions[j].site in g.r.sites && !Shows(w, g, x))
    case SettleTokens(j, _, _, _, _, _) => j == i ==> !Publishes(w, x)
    case UseToken(_, _, now) => time <= now
    case _ => true
  }

  /** Whatever else happens, there is a run without the session beside the run with it. */
  lemma UnnoticedGoesOn(w: World, g: World, i: nat, x: Step, time: int)
    requires Rel(w, g, i, time) && Enabled(w, x) && Unnoticed(w, g, i, x, time)
    ensures exists g1 :: Beside(w, g, i, x, g1, time)
  {
    hide Rel, Inv, Next, GivenBack, Register, Reuse, Outlived, HandBack, Publishes, Shows;
    RelInv(w, g, i, time);
    RelParts(w, g, i, time);
    if IsOwn(i, x) {
      OwnSame(w, g, i, time);
      var g1 := if x.SettleTokens? then GivenBack(w.r, g, w.sessions[i].site, x.order, x.tokens)
                else if x.ReuseKey? && Answer(w, x).None? then Next(g, x) else g;
      assert OwnStep(w, g, i, x, g1);
      assert Beside(w, g, i, x, g1, time);
    } else if x.ReuseKey? || x.RegisterToken? {
      MintGoesOn(w, g, i, x, time);
    } else if x.SettleTokens? {
      SettleGoesOn(w, g, i, x, time);
    } else if x.Prune? {
      PruneGoesOn(w, g, i, x, time);
    } else {
      SameEnabled(w, g, i, x, time);
      assert OtherStep(w, g, x, Next(g, x), time);
      assert Beside(w, g, i, x, Next(g, x), time);
    }
  }

  lemma SameEnabled(w: World, g: World, i: nat, x: Step, time: int)
    requires Rel(w, g, i, time) && Enabled(w, x)
    requires !x.ReuseKey? && !x.RegisterToken? && !x.SettleTokens? && !x.Prune?
    ensures Enabled(g, x)
  {
    hide Inv, Core, SiteRelAt, HeldAt;
    RelParts(w, g, i, time);
  }

  lemma SettleGoesOn(w: World, g: World, i: nat, x: Step, time: int)
    requires Rel(w, g, i, time) && Enabled(w, x) && x.SettleTokens? && x.i != i
    ensures exists g1 :: Beside(w, g, i, x, g1, time)
  {
    hide Rel, Inv, Next, Outlived, HandBack, Publishes, Enumerates;
    RelParts(w, g, i, time);
    OtherSession(w, g, i, time, x.i);
    var s := w.sessions[x.i].site;
    var g0 := if Publishes(w, x) || s !in w.r.sites then g else HandBack(g, s, Outlived(w, g, s, x.tokens));
    if s in w.r.sites {
      HandBackSessions(g, s, Outlived(w, g, s, x.tokens));
    }
    assert Moves(g0, x, Next(g0, x));
    assert OtherStep(w, g, x, Next(g0, x), time);
    assert Beside(w, g, i, x, Next(g0, x), time);
  }

  lemma PruneGoesOn(w: World, g: World, i: nat, x: Step, time: int)
    requires Rel(w, g, i, time) && Enabled(w, x) && x.Prune?
    ensures exists g1 :: Beside(w, g, i, x, g1, time)
  {
    hide Rel, Inv, Next, Dead, Enumerates;
    RelParts(w, g, i, time);
    PruneSite(w, x.s, x.order, x.now);
    var order := Listed(Dead(g.r.sites[x.s], x.now));
    var y := Prune(x.s, order, x.now);
    assert PruneOrder(g, x.s, order, x.now);
    assert Moves(g, y, Next(g, y));
    assert OtherStep(w, g, x, Next(g, y), time);
    assert Beside(w, g, i, x, Next(g, y), time);
  }

  /** A set can be visited in some order. */
  lemma {:induction false} Listed(all: set<string>) returns (order: seq<string>)
    ensures Enumerates(order, all)
    decreases |all|
  {
    if all == {} {
      order := [];
    } else {
      var t :| t in all;
      var rest := Listed(all - {t});
      order := [t] + rest;
      assert forall k :: 0 < k < |order| ==> order[k] == rest[k - 1] && order[k] in rest;
    }
  }

  lemma CallersMore(w: World, g: World, i: nat, time: int)
    requires Rel(w, g, i, time)
    ensures w.callers <= g.callers && w.r.pending == g.r.pending
  {
    hide Inv, Core, SiteRelAt, HeldAt;
    RelParts(w, g, i, time);
  }

  lemma EnterEnabled(w: World, g: World, i: nat, x: Step, time: int)
    requires Rel(w, g, i, time) && Enabled(w, x) && (x.ReuseKey? || x.RegisterToken?) && x.i != i && AnswerIsOwn(w, g, x)
    ensures Enabled(g, EnterInstead(w, x)) && x.i in g.sessions && g.sessions[x.i] == w.sessions[x.i]
  {
    hide Rel, Inv, Register, Reuse, RegistryOk;
    RelParts(w, g, i, time);
    OtherSession(w, g, i, time, x.i);
    var s, t := w.sessions[x.i].site, Answer(w, x).value;
    var e := w.r.sites[s].table[t];
    if e.reservation.Some? {
      assert Owns(w.r, s, t, e.reservation.value);
      HeldOf(w, g, i, time, s, t, e.reservation.value);
      OwnerUnique(w.r, w.callers, s, t, e.reservation.value);
    }
  }

  lemma HeldOf(w: World, g: World, i: nat, time: int, s: nat, t: string, id: nat)
    requires Rel(w, g, i, time) && Owns(w.r, s, t, id) && s in g.r.sites && t !in g.r.sites[s].table
    ensures id in g.callers
  {
    hide Inv, Core, SiteRelAt;
    assert HeldAt(w, g, s, t);
  }

  lemma MintGoesOn(w: World, g: World, i: nat, x: Step, time: int)
    requires Rel(w, g, i, time) && Enabled(w, x) && (x.ReuseKey? || x.RegisterToken?) && x.i != i
    requires Unnoticed(w, g, i, x, time)
    ensures exists g1 :: Beside(w, g, i, x, g1, time)
  {
    hide Rel, Inv, Next, Reuse, Register, RegistryOk, OwnersOk, Shows, SiteRel;
    RelParts(w, g, i, time);
    OtherSession(w, g, i, time, x.i);
    RelSite(w, g, i, time, w.sessions[x.i].site);
    var y := x;
    if AnswerIsOwn(w, g, x) {
      y := EnterInstead(w, x);
      EnterEnabled(w, g, i, x, time);
    } else if x.RegisterToken? {
      CallersMore(w, g, i, time);
      TokenNew(w.r.sites[w.sessions[x.i].site], g.r.sites[w.sessions[x.i].site], Mine(w.sessions, i, w.sessions[x.i].site), x.token,
               time);
    }
    assert Moves(g, y, Next(g, y));
    assert OtherStep(w, g, x, Next(g, y), time);
    assert Beside(w, g, i, x, Next(g, y), time);
  }

  // ---------- whole runs ----------

  /**
   A registration of another session that can be seen to meet nothing of session i,
   in the run as it is: its key leads to an entry that is unpublished or still valid, or
   there is room.
   */
  predicate Clear(w: World, x: Step, time: int)
    requires x.RegisterToken? && x.i in w.sessions && w.sessions[x.i].site in w.r.sites
  {
    var s := w.sessions[x.i].site;
    var a := w.r.sites[s];
    Registrable(x) ==>
      if x.cacheKey in a.index then
        var t := a.index[x.cacheKey];
        t in a.table && (!a.table[t].published || (time <= x.now && EntryValid(a.table[t], x.now, a.limits.idle)))
      else Fits(w.r, s, NewEntry(x))
  }

  /** A step of the run as it is that does not need the other run to be judged. */
  ghost predicate Quiet(w: World, i: nat, x: Step, time: int)
    requires Enabled(w, x)
  {
    match x
    case ReuseKey(j, _, now) => j == i || time <= now
    case RegisterToken(j, _, _, _, _, _) => j == i || Clear(w, x, time)
    case SettleTokens(j, _, _, _, _, _) => j == i ==> !Publishes(w, x)
    case UseToken(_, _, now) => time <= now
    case _ => true
  }

  lemma QuietUnnoticed(w: World, g: World, i: nat, x: Step, time: int)
    requires Rel(w, g, i, time) && Enabled(w, x) && Quiet(w, i, x, time)
    ensures Unnoticed(w, g, i, x, time)
  {
    hide Rel, Inv, Publishes, SiteRel, RegistryOk, OwnersOk, Fits;
    RelParts(w, g, i, time);
    if x.RegisterToken? && x.i != i {
      var s := w.sessions[x.i].site;
      RelSite(w, g, i, time, s);
      if Fits(w.r, s, NewEntry(x)) {
        FitsBoth(w, g, i, time, s, NewEntry(x));
      }
      if x.cacheKey in w.r.sites[s].index && w.r.sites[s].index[x.cacheKey] !in g.r.sites[s].table {
        OwnExpired(w.r.sites[s], g.r.sites[s], Mine(w.sessions, i, s), w.r.sites[s].index[x.cacheKey], time);
      }
    }
  }

  lemma OwnExpired(a: Site, b: Site, mine: seq<string>, t: string, time: int)
    requires SiteRel(a, b, mine, time) && t !in b.table
    ensures t in a.table && a.table[t].published ==> !EntryValid(a.table[t], time, a.limits.idle)
  {
    hide CountOf;
    assert Cell(a, b, t, CountOf(mine, t), time);
  }

  ghost predicate QuietRun(w: World, i: nat, steps: seq<Step>, time: int)
    requires Runs(w, steps)
    decreases |steps|
  {
    steps == [] || (Quiet(w, i, steps[0], time) && QuietRun(Next(w, steps[0]), i, steps[1..], Clock(steps[0], time)))
  }

  /** Beside a quiet run, the run without the session goes on to the end. */
  lemma {:induction false} QuietGoesOn(w: World, g: World, i: nat, steps: seq<Step>, time: int)
    requires Rel(w, g, i, time) && Runs(w, steps) && QuietRun(w, i, steps, time)
    ensures exists states :: RunsBeside(w, g, i, steps, states, time)
    decreases |steps|
  {
    hide Rel, Next, Enabled, Beside, Clock, Quiet;
    if steps == [] {
      assert RunsBeside(w, g, i, steps, [], time);
    } else {
      QuietUnnoticed(w, g, i, steps[0], time);
      UnnoticedGoesOn(w, g, i, steps[0], time);
      var g1 :| Beside(w, g, i, steps[0], g1, time);
      BesideKeeps(w, g, i, steps[0], g1, time);
      QuietGoesOn(Next(w, steps[0]), g1, i, steps[1..], Clock(steps[0], time));
      var states :| RunsBeside(Next(w, steps[0]), g1, i, steps[1..], states, Clock(steps[0], time));
      assert RunsBeside(w, g, i, steps, [g1] + states, time) by {
        assert ([g1] + states)[1..] == states;
      }
    }
  }

  /**
   For every quiet run: once session i has given its claims up, in whatever pieces, the
   registry is that of a run in which the session claimed and entered nothing.
   */
  lemma RollbackUnseen(w: World, i: nat, steps: seq<Step>, time: int)
    requires Inv(w) && i in w.sessions && w.sessions[i].minted == [] && Runs(w, steps) && QuietRun(w, i, steps, time)
    requires var end := After(w, steps); i in end.sessions && end.sessions[i].minted == []
    ensures exists states ::
      RunsBeside(w, w, i, steps, states, time) && NothingLeft(After(w, steps), Last(w, states), ClockAfter(steps, time))
  {
    hide Inv, RunsBeside, Runs, After, QuietRun, NothingLeft;
    RelStarts(w, i, time);
    QuietGoesOn(w, w, i, steps, time);
    var states :| RunsBeside(w, w, i, steps, states, time);
    RollbackInvisible(w, i, steps, states, time);
  }

  /**
   A session does show when the table is full: with room for one capability, the second
   session is refused because of the first, although the first is rolled back later.
   */
  lemma CapacityShows()
    ensures var r := OpenSite(Fresh().r, Limits(1, 1, 1, 10)).0;
      var q := Register(r, 0, "a", "k", 10, 0, None).0;
      && Register(r, 0, "b", "j", 10, 0, None).1 == Some("b")
      && 0 in q.sites && Register(q, 0, "b", "j", 10, 0, None).1 == None
  {
    var r := OpenSite(Fresh().r, Limits(1, 1, 1, 10)).0;
    var e := Entry(10, 0, "a", "k", 1, false, None);
    var q := Insert(r, 0, e);
    var x := r.sites[0];
    assert x == Site(Limits(1, 1, 1, 10), map[], map[], map[], 0, []);
    var none: map<string, string> := map[];
    assert none - {"k"} == none && none - {"j"} == none;
    assert DropIndex(r, 0, "k") == r && DropIndex(r, 0, "j") == r;
    assert q.sites[0].table == map["a" := e];
    assert |q.sites[0].table| == 1;
    assert q.sites[0].index == map["k" := "a"];
  }
}
