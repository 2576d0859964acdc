/**
 One site in two runs: as it is, and as it would be without the capability steps of
 one session, whose claims are given. What the two tables may differ in, and that
 every change keeps it so.
 */
module RegistryCells {
  import opened Wrappers
  import opened RegistrySpec
  import opened RegistryAuthorities
  import opened RegistryTables
  import opened RegistrySessions

  /**
   One token. All that the second table has the first has too, with the session's n
   claims more. What the first has alone nobody else claims, and it is unpublished or
   expired.
   */
  ghost predicate Cell(a: Site, b: Site, t: string, n: nat, time: int) {
    if t in b.table then t in a.table && a.table[t] == b.table[t].(pending := b.table[t].pending + n)
    else t in a.table ==> a.table[t].pending == n && (!a.table[t].published || !EntryValid(a.table[t], time, a.limits.idle))
  }

  /** One cache key: what the second index knows the first knows too, and else only what leads to the first table alone. */
  ghost predicate IndexCell(a: Site, b: Site, k: string) {
    && (k in b.index ==> k in a.index && a.index[k] == b.index[k])
    && (k in a.index && a.index[k] in b.table ==> k in b.index)
  }

  ghost predicate SiteRel(a: Site, b: Site, mine: seq<string>, time: int) {
    && a.limits == b.limits
    && (forall t :: Cell(a, b, t, CountOf(mine, t), time))
    && (forall k :: IndexCell(a, b, k))
  }

  lemma CellLater(a: Site, b: Site, t: string, n: nat, early: int, late: int)
    requires Cell(a, b, t, n, early) && early <= late && a.limits == b.limits
    ensures Cell(a, b, t, n, late)
  {
  }

  lemma RelLater(a: Site, b: Site, mine: seq<string>, early: int, late: int)
    requires SiteRel(a, b, mine, early) && early <= late
    ensures SiteRel(a, b, mine, late)
  {
    hide Cell, CountOf;
    forall t ensures Cell(a, b, t, CountOf(mine, t), late) {
      assert Cell(a, b, t, CountOf(mine, t), early);
      CellLater(a, b, t, CountOf(mine, t), early, late);
    }
    forall k ensures IndexCell(a, b, k) {
      assert IndexCell(a, b, k);
    }
  }

  lemma RelSelf(a: Site, time: int)
    requires IndexOk(a)
    ensures SiteRel(a, a, [], time)
  {
    forall t ensures Cell(a, a, t, CountOf([], t), time) {
      assert CountOf([], t) == 0;
    }
  }

  lemma RelShow(a: Site, b: Site, a1: Site, b1: Site, mine: seq<string>, time: int)
    requires SiteRel(a, b, mine, time) && SameShow(a, a1) && SameShow(b, b1)
    ensures SiteRel(a1, b1, mine, time)
  {
    hide CountOf;
    forall t ensures Cell(a1, b1, t, CountOf(mine, t), time) {
      assert Cell(a, b, t, CountOf(mine, t), time);
    }
    forall k ensures IndexCell(a1, b1, k) {
      assert IndexCell(a, b, k);
    }
  }

  ghost predicate SameShow(x: Site, y: Site) {
    y.limits == x.limits && y.table == x.table && y.index == x.index
  }

  lemma CountMore(mine: seq<string>, t: string, v: string)
    ensures CountOf(mine + [t], v) == CountOf(mine, v) + (if v == t then 1 else 0)
  {
  }

  // ---------- claims ----------

  function Claimed(x: Site, t: string): Site
    requires t in x.table
  {
    x.(table := x.table[t := x.table[t].(pending := x.table[t].pending + 1)])
  }

  /** Another session claims a token that is in both. */
  lemma ClaimedBoth(a: Site, b: Site, mine: seq<string>, time: int, t: string)
    requires SiteRel(a, b, mine, time) && t in a.table && t in b.table
    ensures SiteRel(Claimed(a, t), Claimed(b, t), mine, time)
  {
    hide CountOf;
    forall v ensures Cell(Claimed(a, t), Claimed(b, t), v, CountOf(mine, v), time) {
      assert Cell(a, b, v, CountOf(mine, v), time);
    }
    forall k ensures IndexCell(Claimed(a, t), Claimed(b, t), k) {
      assert IndexCell(a, b, k);
    }
  }

  /** The session claims a token. */
  lemma ClaimedMine(a: Site, b: Site, mine: seq<string>, time: int, t: string)
    requires SiteRel(a, b, mine, time) && t in a.table
    ensures SiteRel(Claimed(a, t), b, mine + [t], time)
  {
    hide CountOf;
    forall v ensures Cell(Claimed(a, t), b, v, CountOf(mine + [t], v), time) {
      assert Cell(a, b, v, CountOf(mine, v), time);
      CountMore(mine, t, v);
    }
    forall k ensures IndexCell(Claimed(a, t), b, k) {
      assert IndexCell(a, b, k);
    }
  }

  // ---------- new entries ----------

  function Entered1(x: Site, e: Entry): Site {
    x.(table := x.table[e.token := e], index := x.index[e.cacheKey := e.token])
  }

  lemma EnteredBoth(a: Site, b: Site, mine: seq<string>, time: int, e: Entry)
    requires SiteRel(a, b, mine, time) && e.token !in a.table && CountOf(mine, e.token) == 0
    requires IndexOk(a) && IndexOk(b)
    ensures SiteRel(Entered1(a, e), Entered1(b, e), mine, time)
  {
    hide CountOf;
    forall v ensures Cell(Entered1(a, e), Entered1(b, e), v, CountOf(mine, v), time) {
      assert Cell(a, b, v, CountOf(mine, v), time);
    }
    forall k ensures IndexCell(Entered1(a, e), Entered1(b, e), k) {
      assert IndexCell(a, b, k);
    }
  }

  lemma EnteredMine(a: Site, b: Site, mine: seq<string>, time: int, e: Entry)
    requires SiteRel(a, b, mine, time) && e.token !in a.table && CountOf(mine, e.token) == 0
    requires e.pending == 1 && !e.published && e.cacheKey !in a.index
    ensures SiteRel(Entered1(a, e), b, mine + [e.token], time)
  {
    hide CountOf;
    forall v ensures Cell(Entered1(a, e), b, v, CountOf(mine + [e.token], v), time) {
      assert Cell(a, b, v, CountOf(mine, v), time);
      CountMore(mine, e.token, v);
    }
    forall k ensures IndexCell(Entered1(a, e), b, k) {
      assert IndexCell(a, b, k);
    }
  }

  /** The first other session to claim an entry of the session would have entered it itself. */
  lemma TakenOver(a: Site, b: Site, mine: seq<string>, time: int, t: string)
    requires SiteRel(a, b, mine, time) && t in a.table && t !in b.table && !a.table[t].published && a.table[t].token == t
    requires a.table[t].cacheKey in a.index && a.index[a.table[t].cacheKey] == t && IndexOk(a) && IndexOk(b)
    ensures SiteRel(Claimed(a, t), Entered1(b, a.table[t].(pending := 1)), mine, time)
  {
    hide CountOf;
    var e := a.table[t].(pending := 1);
    forall v ensures Cell(Claimed(a, t), Entered1(b, e), v, CountOf(mine, v), time) {
      assert Cell(a, b, v, CountOf(mine, v), time);
    }
    forall k ensures IndexCell(Claimed(a, t), Entered1(b, e), k) {
      assert IndexCell(a, b, k);
    }
  }

  // ---------- use ----------

  function UsedAt(x: Site, t: string, now: int): Site
    requires t in x.table
  {
    x.(table := x.table[t := x.table[t].(lastUsed := now)])
  }

  lemma UsedBoth(a: Site, b: Site, mine: seq<string>, time: int, t: string, now: int)
    requires SiteRel(a, b, mine, time) && time <= now && t in a.table && t in b.table
    requires EntryValid(b.table[t], now, b.limits.idle)
    ensures SiteRel(UsedAt(a, t, now), UsedAt(b, t, now), mine, now)
  {
    hide CountOf;
    forall v ensures Cell(UsedAt(a, t, now), UsedAt(b, t, now), v, CountOf(mine, v), now) {
      assert Cell(a, b, v, CountOf(mine, v), time);
    }
    forall k ensures IndexCell(UsedAt(a, t, now), UsedAt(b, t, now), k) {
      assert IndexCell(a, b, k);
    }
  }

  // ---------- entries and pairs that go ----------

  /** The index of y is that of x without the pairs of lost entries and of the dropped keys. */
  ghost predicate IndexThinned(x: Site, y: Site, dropped: set<string>) {
    && (forall k :: k in y.index ==> k in x.index && k !in dropped && y.index[k] == x.index[k])
    && (forall k :: k in x.index && k !in dropped && x.index[k] in y.table ==> k in y.index)
  }

  ghost predicate SameLife(x: Site, y: Site) {
    forall t :: t in y.table ==>
      t in x.table && y.table[t].token == x.table[t].token && y.table[t].expiresAt == x.table[t].expiresAt
      && y.table[t].lastUsed == x.table[t].lastUsed
  }

  lemma IndexAfter(a: Site, b: Site, a1: Site, b1: Site, dropped: set<string>, k: string)
    requires IndexCell(a, b, k) && IndexOk(b1) && (forall t :: t in b1.table ==> t in a1.table && t in b.table)
    requires IndexThinned(a, a1, dropped) && IndexThinned(b, b1, dropped)
    ensures IndexCell(a1, b1, k)
  {
  }

  ghost predicate Dying(x: Site, t: string, now: int) {
    t in x.table && x.table[t].pending == 0 && !EntryValid(x.table[t], now, x.limits.idle)
  }

  /** Of the tokens looked at, exactly those are lost that nobody claims and that have expired. */
  ghost predicate Thinned(x: Site, y: Site, seen: set<string>, dropped: set<string>, now: int) {
    && y.limits == x.limits
    && (forall t :: t in y.table ==> t in x.table && y.table[t] == x.table[t])
    && (forall t :: t in x.table ==> (t in y.table <==> !(t in seen && Dying(x, t, now))))
    && IndexThinned(x, y, dropped)
  }

  lemma CellThinned(a: Site, b: Site, a1: Site, b1: Site, seenA: set<string>, seenB: set<string>, dropped: set<string>, t: string,
                    n: nat, early: int, now: int, late: int)
    requires Cell(a, b, t, n, early) && early <= late && now <= late && a.limits == b.limits
    requires Thinned(a, a1, seenA, dropped, now) && Thinned(b, b1, seenB, dropped, now)
    requires t in seenA && t in b.table ==> t in seenB
    ensures Cell(a1, b1, t, n, late)
  {
    hide IndexThinned;
  }

  /** Both tables are looked at; where the first is, the second is as well. */
  lemma ThinnedBoth(a: Site, b: Site, a1: Site, b1: Site, seenA: set<string>, seenB: set<string>, dropped: set<string>,
                    mine: seq<string>, early: int, now: int, late: int)
    requires SiteRel(a, b, mine, early) && early <= late && now <= late && IndexOk(b1)
    requires Thinned(a, a1, seenA, dropped, now) && Thinned(b, b1, seenB, dropped, now)
    requires forall t :: t in seenA && t in b.table ==> t in seenB
    ensures SiteRel(a1, b1, mine, late)
  {
    hide CountOf, Cell, IndexCell, EntryValid, IndexThinned, Dying;
    forall t ensures Cell(a1, b1, t, CountOf(mine, t), late) {
      assert Cell(a, b, t, CountOf(mine, t), early);
      CellThinned(a, b, a1, b1, seenA, seenB, dropped, t, CountOf(mine, t), early, now, late);
    }
    InBoth(a1, b1, mine, late);
    forall k ensures IndexCell(a1, b1, k) {
      assert IndexCell(a, b, k);
      IndexAfter(a, b, a1, b1, dropped, k);
    }
  }

  lemma InBoth(a: Site, b: Site, mine: seq<string>, time: int)
    requires forall t :: Cell(a, b, t, CountOf(mine, t), time)
    ensures forall t :: t in b.table ==> t in a.table
  {
    hide CountOf;
    forall t | t in b.table ensures t in a.table {
      assert Cell(a, b, t, CountOf(mine, t), time);
    }
  }

  // ---------- settling ----------

  ghost predicate AllSettled(x: Site, y: Site, order: seq<string>, tokens: seq<string>, publishing: bool) {
    && y.limits == x.limits
    && (forall t :: TokenSettled(x.table, y.table, t, if t in order then CountOf(tokens, t) else 0, t in order, publishing))
    && IndexThinned(x, y, {})
  }

  /** The site with the entries of some tokens having let their reservations go. */
  function LetGo(x: Site, tokens: set<string>): Site {
    x.(table := map t | t in x.table :: if t in tokens then x.table[t].(reservation := None) else x.table[t])
  }

  /** What is let go here is taken out: unpublished, and claimed by nobody else. */
  ghost predicate Loses(x: Site, t: string, count: nat, settled: bool, publishing: bool) {
    t in x.table && settled && !publishing && x.table[t].pending == count && !x.table[t].published
  }

  lemma CellSettled(a: Site, b: Site, a1: Site, b1: Site, gone: set<string>, t: string, n: nat, count: nat, settled: bool,
                    publishing: bool, time: int)
    requires Cell(a, b, t, n, time) && (settled ==> t in a.table && t in b.table)
    requires a1.limits == a.limits && b1.limits == b.limits && (t in gone ==> Loses(b, t, count, settled, publishing))
    requires TokenSettled(a.table, a1.table, t, count, settled, publishing)
    requires TokenSettled(LetGo(b, gone).table, b1.table, t, count, settled, publishing)
    ensures Cell(a1, b1, t, n, time)
  {
  }

  lemma SettledLife(x: Site, y: Site, order: seq<string>, tokens: seq<string>, publishing: bool)
    requires AllSettled(x, y, order, tokens, publishing)
    ensures SameLife(x, y)
  {
    hide CountOf, IndexThinned;
    forall t | t in y.table
      ensures t in x.table && y.table[t].token == x.table[t].token && y.table[t].expiresAt == x.table[t].expiresAt
      ensures y.table[t].lastUsed == x.table[t].lastUsed
    {
      assert TokenSettled(x.table, y.table, t, if t in order then CountOf(tokens, t) else 0, t in order, publishing);
    }
  }

  /** Another session settles; what it loses without the session may live on in the session's claims. */
  lemma SettledBoth(a: Site, b: Site, a1: Site, b1: Site, gone: set<string>, mine: seq<string>, time: int,
                    order: seq<string>, tokens: seq<string>, publishing: bool)
    requires SiteRel(a, b, mine, time) && IndexOk(b1)
    requires AllSettled(a, a1, order, tokens, publishing) && AllSettled(LetGo(b, gone), b1, order, tokens, publishing)
    requires forall t :: t in order ==> t in a.table && t in b.table
    requires forall t :: t in gone ==> t in order && Loses(b, t, CountOf(tokens, t), true, publishing)
    ensures SiteRel(a1, b1, mine, time)
  {
    hide CountOf, Cell, IndexCell, EntryValid, IndexThinned, TokenSettled, Loses;
    SettledLife(LetGo(b, gone), b1, order, tokens, publishing);
    forall t ensures Cell(a1, b1, t, CountOf(mine, t), time) {
      assert Cell(a, b, t, CountOf(mine, t), time);
      CellSettled(a, b, a1, b1, gone, t, CountOf(mine, t), if t in order then CountOf(tokens, t) else 0, t in order,
                  publishing, time);
    }
    ThinnedLetGo(b, b1, gone);
    InBoth(a1, b1, mine, time);
    forall k ensures IndexCell(a1, b1, k) {
      assert IndexCell(a, b, k);
      IndexAfter(a, b, a1, b1, {}, k);
    }
  }

  lemma ThinnedLetGo(x: Site, y: Site, gone: set<string>)
    requires IndexThinned(LetGo(x, gone), y, {}) && SameLife(LetGo(x, gone), y)
    ensures IndexThinned(x, y, {}) && SameLife(x, y)
  {
  }

  lemma CellGivenUp(a: Site, b: Site, a1: Site, t: string, n: nat, count: nat, settled: bool, time: int)
    requires Cell(a, b, t, n, time) && count <= n && (settled <==> count > 0) && a1.limits == a.limits
    requires TokenSettled(a.table, a1.table, t, count, settled, false) && (t in b.table ==> EntryOk(t, b.table[t]))
    ensures Cell(a1, b, t, n - count, time)
  {
  }

  /** The session gives up some of its claims. */
  lemma SettledMine(a: Site, b: Site, a1: Site, mine: seq<string>, rest: seq<string>, time: int, order: seq<string>,
                    tokens: seq<string>)
    requires SiteRel(a, b, mine, time) && IndexOk(b) && EntriesOk(b.table) && AllSettled(a, a1, order, tokens, false)
    requires multiset(mine) == multiset(tokens) + multiset(rest) && Enumerates(order, set t | t in tokens)
    ensures SiteRel(a1, b, rest, time)
  {
    hide Cell, IndexCell, EntryValid, IndexThinned, TokenSettled;
    forall t ensures Cell(a1, b, t, CountOf(rest, t), time) {
      assert Cell(a, b, t, CountOf(mine, t), time);
      assert t in order <==> CountOf(tokens, t) > 0;
      CellGivenUp(a, b, a1, t, CountOf(mine, t), CountOf(tokens, t), t in order, time);
    }
    assert IndexThinned(b, b, {}) by { NothingThinned(b); }
    InBoth(a1, b, rest, time);
    forall k ensures IndexCell(a1, b, k) {
      assert IndexCell(a, b, k);
      IndexAfter(a, b, a1, b, {}, k);
    }
  }

  lemma NothingThinned(x: Site)
    ensures IndexThinned(x, x, {}) && SameLife(x, x)
  {
  }

  // ---------- without claims ----------

  /** With no claims left, what is valid is the same in both. */
  ghost predicate ValidSame(a: Site, b: Site, time: int) {
    && (forall t :: (t in a.table && EntryValid(a.table[t], time, a.limits.idle))
                    <==> (t in b.table && EntryValid(b.table[t], time, b.limits.idle)))
    && (forall t :: t in a.table && EntryValid(a.table[t], time, a.limits.idle) ==> t in b.table && a.table[t] == b.table[t])
    && (forall k :: k in a.index && a.index[k] in a.table && EntryValid(a.table[a.index[k]], time, a.limits.idle) ==>
          k in b.index && b.index[k] == a.index[k])
    && (forall k :: k in b.index && b.index[k] in b.table && EntryValid(b.table[b.index[k]], time, b.limits.idle) ==>
          k in a.index && a.index[k] == b.index[k])
  }

  lemma NothingClaimed(a: Site, b: Site, time: int)
    requires SiteRel(a, b, [], time) && EntriesOk(a.table)
    ensures ValidSame(a, b, time)
  {
    hide EntryValid;
    forall t ensures t in a.table && t in b.table ==> a.table[t] == b.table[t]
      ensures t in a.table && t !in b.table ==> !EntryValid(a.table[t], time, a.limits.idle)
      ensures t in b.table && t !in a.table ==> !EntryValid(b.table[t], time, b.limits.idle)
    {
      assert Cell(a, b, t, CountOf([], t), time) && CountOf([], t) == 0;
      if t in a.table {
        assert EntryOk(t, a.table[t]);
      }
    }
    forall k
      ensures k in a.index && a.index[k] in a.table && EntryValid(a.table[a.index[k]], time, a.limits.idle) ==>
        k in b.index && b.index[k] == a.index[k]
      ensures k in b.index && b.index[k] in b.table && EntryValid(b.table[b.index[k]], time, b.limits.idle) ==>
        k in a.index && a.index[k] == b.index[k]
    {
      assert IndexCell(a, b, k);
    }
  }
}
