/**
 Rewrite sessions and callers over the registry: who claims a capability and who
 owns a reservation, in every reachable state.
 */
module RegistrySessions {
  import opened Wrappers
  import opened MapSums
  import opened RegistrySpec
  import opened RegistryAuthorities
  import opened RegistryTables

  /** A rewrite session of a site and the tokens it has claimed and not settled yet. */
  datatype Session = Session(site: nat, minted: seq<string>)

  /** callers holds the reservations that the code which made them still has to finish. */
  datatype World = World(r: Registry, sessions: map<nat, Session>, callers: set<nat>)

  // ---------- claims ----------

  function Pending(site: Site, t: string): nat {
    if t in site.table then site.table[t].pending else 0
  }

  function ClaimsOf(x: Session, s: nat, t: string): nat {
    if x.site == s then multiset(x.minted)[t] else 0
  }

  function ClaimsOn(sessions: map<nat, Session>, s: nat, t: string): map<nat, nat> {
    map i | i in sessions :: ClaimsOf(sessions[i], s, t)
  }

  /** An entry's pending uses are the claims that sessions have on it; what is claimed is in the table. */
  ghost predicate ClaimsExact(sites: map<nat, Site>, sessions: map<nat, Session>, s: nat, t: string) {
    s in sites ==> Pending(sites[s], t) == Sum(ClaimsOn(sessions, s, t))
  }

  ghost predicate ClaimsOk(w: World) {
    forall s, t :: ClaimsExact(w.r.sites, w.sessions, s, t)
  }

  lemma ClaimsStored(sessions: map<nat, Session>, i: nat, x: Session, s: nat, t: string)
    ensures Sum(ClaimsOn(sessions[i := x], s, t))
         == Sum(ClaimsOn(sessions, s, t)) - (if i in sessions then ClaimsOf(sessions[i], s, t) else 0) + ClaimsOf(x, s, t)
    ensures i in sessions ==> ClaimsOf(sessions[i], s, t) <= Sum(ClaimsOn(sessions, s, t))
  {
    hide Sum, ClaimsOf;
    assert ClaimsOn(sessions[i := x], s, t) == ClaimsOn(sessions, s, t)[i := ClaimsOf(x, s, t)];
    SumStore(ClaimsOn(sessions, s, t), i, ClaimsOf(x, s, t));
    if i in sessions {
      SumAtLeast(ClaimsOn(sessions, s, t), i);
    }
  }

  // ---------- owners ----------

  ghost predicate Owns(r: Registry, s: nat, t: string, i: nat) {
    s in r.sites && t in r.sites[s].table && r.sites[s].table[t].reservation == Some(i)
  }

  ghost predicate OwnerOk(r: Registry, callers: set<nat>, s: nat, t: string, i: nat) {
    Owns(r, s, t, i) ==>
      && i in r.pending && r.pending[i].site == s && i !in callers
      && (forall s', t' :: Owns(r, s', t', i) ==> s' == s && t' == t)
  }

  ghost predicate OwnedOk(r: Registry, callers: set<nat>, i: nat) {
    i in r.pending && r.pending[i].site in r.sites ==>
      i in callers || exists t :: Owns(r, r.pending[i].site, t, i)
  }

  /** Every unfinished reservation belongs to one caller or to one capability, never to both. */
  ghost predicate OwnersOk(r: Registry, callers: set<nat>) {
    && callers <= r.pending.Keys
    && (forall s, t, i :: OwnerOk(r, callers, s, t, i))
    && (forall i :: OwnedOk(r, callers, i))
  }

  ghost predicate Inv(w: World) {
    && RegistryOk(w.r) && ClaimsOk(w) && OwnersOk(w.r, w.callers)
    && (forall i :: i in w.sessions ==> w.sessions[i].site < w.r.nextId)
  }

  // ---------- owners under changes of a table ----------

  /** Same owners, same reservations. */
  lemma OwnersSame(r: Registry, q: Registry, callers: set<nat>)
    requires OwnersOk(r, callers) && q.pending == r.pending
    requires q.sites.Keys == r.sites.Keys
    requires forall s, t, i :: Owns(q, s, t, i) <==> Owns(r, s, t, i)
    ensures OwnersOk(q, callers)
  {
    forall s, t, i ensures OwnerOk(q, callers, s, t, i) {
      assert OwnerOk(r, callers, s, t, i);
    }
    forall i ensures OwnedOk(q, callers, i) {
      assert OwnedOk(r, callers, i);
      if i in r.pending && r.pending[i].site in r.sites && i !in callers {
        var t :| Owns(r, r.pending[i].site, t, i);
        assert Owns(q, r.pending[i].site, t, i);
      }
    }
  }

  /** A reservation and its owner disappear together. */
  lemma OwnersLess(r: Registry, q: Registry, callers: set<nat>, s: nat, t: string, i: nat)
    requires OwnersOk(r, callers) && Owns(r, s, t, i) && q.pending == r.pending - {i} && q.sites.Keys == r.sites.Keys
    requires forall s', t', j :: Owns(q, s', t', j) <==> Owns(r, s', t', j) && j != i
    ensures OwnersOk(q, callers)
  {
    assert OwnerOk(r, callers, s, t, i);
    forall s', t', j ensures OwnerOk(q, callers, s', t', j) {
      assert OwnerOk(r, callers, s', t', j);
    }
    forall j ensures OwnedOk(q, callers, j) {
      assert OwnedOk(r, callers, j);
      if j in q.pending && q.pending[j].site in r.sites && j !in callers {
        var t' :| Owns(r, r.pending[j].site, t', j);
        assert Owns(q, r.pending[j].site, t', j);
      }
    }
    forall j | j in callers ensures j in q.pending {
      assert j in r.pending;
    }
  }

  /** A caller hands its reservation over to a new capability. */
  lemma OwnersMoved(r: Registry, q: Registry, callers: set<nat>, s: nat, t: string, i: nat)
    requires OwnersOk(r, callers) && i in callers && i in r.pending && r.pending[i].site == s && s in r.sites
    requires q.pending == r.pending && q.sites.Keys == r.sites.Keys
    requires forall s', t', j :: Owns(q, s', t', j) <==> Owns(r, s', t', j) || (s' == s && t' == t && j == i)
    ensures OwnersOk(q, callers - {i})
  {
    forall s', t', j ensures OwnerOk(q, callers - {i}, s', t', j) {
      assert OwnerOk(r, callers, s', t', j);
      assert forall s'', t'' :: OwnerOk(r, callers, s'', t'', i) ==> !Owns(r, s'', t'', i);
      assert forall s'', t'' :: OwnerOk(r, callers, s'', t'', i);
    }
    forall j ensures OwnedOk(q, callers - {i}, j) {
      assert OwnedOk(r, callers, j);
      assert Owns(q, s, t, i);
      if j != i && j in r.pending && r.pending[j].site in r.sites && j !in callers {
        var t' :| Owns(r, r.pending[j].site, t', j);
        assert Owns(q, r.pending[j].site, t', j);
      }
    }
  }

  /** A caller's own reservation comes or goes. */
  lemma OwnersCaller(r: Registry, q: Registry, callers: set<nat>, after: set<nat>, i: nat)
    requires OwnersOk(r, callers) && q.sites.Keys == r.sites.Keys
    requires forall s, t, j :: Owns(q, s, t, j) <==> Owns(r, s, t, j)
    requires (i !in r.pending && i in q.pending && q.pending - {i} == r.pending && after == callers + {i})
          || (i in callers && q.pending == r.pending - {i} && after == callers - {i})
    ensures OwnersOk(q, after)
  {
    forall s, t, j ensures OwnerOk(q, after, s, t, j) {
      assert OwnerOk(r, callers, s, t, j);
      assert forall s', t' :: Owns(q, s', t', j) <==> Owns(r, s', t', j);
    }
    forall j ensures OwnedOk(q, after, j) {
      assert OwnedOk(r, callers, j);
      if j != i && j in q.pending && q.pending[j].site in r.sites && j !in callers {
        assert q.pending[j] == r.pending[j];
        var t :| Owns(r, r.pending[j].site, t, j);
        assert Owns(q, r.pending[j].site, t, j);
      }
    }
    forall j | j in after ensures j in q.pending {
      assert j != i ==> j in r.pending;
    }
  }

  // ---------- settling ----------

  /** Only the claims on the tokens settled are given up, and nothing else is touched. */
  ghost predicate SettledTo(r: Registry, q: Registry, s: nat, order: seq<string>, tokens: seq<string>, publishing: bool) {
    && s in r.sites && q.sites.Keys == r.sites.Keys && q.nextId == r.nextId
    && (forall u :: u in r.sites ==> q.sites[u].limits == r.sites[u].limits)
    && (forall u :: u in r.sites && u != s ==> q.sites[u].table == r.sites[u].table)
    && (forall t :: TokenSettled(r.sites[s].table, q.sites[s].table, t, if t in order then CountOf(tokens, t) else 0,
                                 t in order, publishing))
  }

  /**
   A token that is not settled keeps its entry. One that is settled loses its
   claims; it stays while others claim it or it is published, and is published if
   the settlement publishes.
   */
  ghost predicate TokenSettled(before: map<string, Entry>, after: map<string, Entry>, t: string, count: nat, settled: bool, publishing: bool) {
    if t !in before then t !in after
    else
      var e := before[t];
      if !settled then t in after && after[t] == e
      else if publishing then
        count <= e.pending && t in after && after[t] == e.(pending := e.pending - count, published := true, reservation := None)
      else
        && count <= e.pending
        && (t in after <==> e.pending > count || e.published)
        && (t in after ==> after[t] == e.(pending := e.pending - count))
  }

  lemma SettleOneOk(r: Registry, callers: set<nat>, s: nat, t: string, count: nat, publishing: bool)
    requires RegistryOk(r) && OwnersOk(r, callers) && s in r.sites && t in r.sites[s].table
    requires 0 < count <= r.sites[s].table[t].pending
    ensures var q := SettleOne(r, s, t, count, publishing);
      && RegistryOk(q) && OwnersOk(q, callers)
      && q.sites.Keys == r.sites.Keys && q.nextId == r.nextId
      && (forall u :: u in r.sites ==> q.sites[u].limits == r.sites[u].limits)
      && (forall u :: u in r.sites && u != s ==> q.sites[u].table == r.sites[u].table)
      && TokenSettled(r.sites[s].table, q.sites[s].table, t, count, true, publishing)
      && (forall u :: u != t ==> TokenSettled(r.sites[s].table, q.sites[s].table, u, 0, false, publishing))
  {
    hide RegistryOk, OwnersOk;
    if publishing {
      PublishOne(r, callers, s, t, count);
    } else {
      ReleaseOne(r, callers, s, t, count);
    }
  }

  lemma TokenFacts(r: Registry, s: nat, t: string)
    requires RegistryOk(r) && s in r.sites && t in r.sites[s].table
    ensures var e := r.sites[s].table[t];
      && e.token == t && t != "" && e.cacheKey != "" && e.lastUsed < e.expiresAt
      && (e.pending == 0 ==> e.published) && (e.published ==> e.reservation.None?)
  {
    hide RegistryOk;
    TokenOf(r, s, t);
  }

  lemma PublishOne(r: Registry, callers: set<nat>, s: nat, t: string, count: nat)
    requires RegistryOk(r) && OwnersOk(r, callers) && s in r.sites && t in r.sites[s].table
    requires 0 < count <= r.sites[s].table[t].pending
    ensures var q := SettleOne(r, s, t, count, true); var e := r.sites[s].table[t];
      && RegistryOk(q) && OwnersOk(q, callers)
      && TableBecomes(r, q, s, r.sites[s].table[t := e.(pending := e.pending - count, published := true, reservation := None)])
  {
    hide RegistryOk, OwnersOk, FinishOption, SetEntry;
    var e := r.sites[s].table[t];
    TokenFacts(r, s, t);
    FinishOptionOk(r, e.reservation, true);
    var r1 := FinishOption(r, e.reservation, true);
    var after := e.(pending := e.pending - count, published := true, reservation := None);
    SetEntryOk(r1, s, t, after);
    var q := SettleOne(r, s, t, count, true);
    OwnerTaken(r, q, callers, s, t, r.sites[s].table[t := after]);
  }

  /** The entry of t lost its reservation, together with the reservation itself. */
  lemma OwnerTaken(r: Registry, q: Registry, callers: set<nat>, s: nat, t: string, table: map<string, Entry>)
    requires OwnersOk(r, callers) && s in r.sites && t in r.sites[s].table && TableBecomes(r, q, s, table)
    requires forall u :: u != t && u in table ==> u in r.sites[s].table && table[u].reservation == r.sites[s].table[u].reservation
    requires forall u :: u != t && u in r.sites[s].table ==> u in table
    requires t in table ==> table[t].reservation.None?
    requires q.pending == Without(r.pending, r.sites[s].table[t].reservation)
    ensures OwnersOk(q, callers)
  {
    hide OwnersOk;
    var res := r.sites[s].table[t].reservation;
    if res.None? {
      assert forall s', t', j :: Owns(q, s', t', j) <==> Owns(r, s', t', j);
      OwnersSame(r, q, callers);
    } else {
      assert Owns(r, s, t, res.value);
      OwnerUnique(r, callers, s, t, res.value);
      forall s', t', j ensures Owns(q, s', t', j) <==> Owns(r, s', t', j) && j != res.value {
        assert s' == s && t' == t ==> !Owns(q, s', t', j);
        assert Owns(r, s', t', res.value) ==> s' == s && t' == t;
      }
      OwnersLess(r, q, callers, s, t, res.value);
    }
  }

  lemma OwnerUnique(r: Registry, callers: set<nat>, s: nat, t: string, i: nat)
    requires OwnersOk(r, callers) && Owns(r, s, t, i)
    ensures forall s', t' :: Owns(r, s', t', i) ==> s' == s && t' == t
    ensures i in r.pending && r.pending[i].site == s && i !in callers
  {
    assert OwnerOk(r, callers, s, t, i);
  }

  lemma ReleaseOne(r: Registry, callers: set<nat>, s: nat, t: string, count: nat)
    requires RegistryOk(r) && OwnersOk(r, callers) && s in r.sites && t in r.sites[s].table
    requires 0 < count <= r.sites[s].table[t].pending
    ensures var q := SettleOne(r, s, t, count, false); var e := r.sites[s].table[t];
      && RegistryOk(q) && OwnersOk(q, callers)
      && TableBecomes(r, q, s,
           if e.pending == count && !e.published then r.sites[s].table - {t}
           else r.sites[s].table[t := e.(pending := e.pending - count)])
  {
    hide RegistryOk, OwnersOk, Delete, SetEntry;
    var e := r.sites[s].table[t];
    var after := e.(pending := e.pending - count);
    TokenFacts(r, s, t);
    var q := SettleOne(r, s, t, count, false);
    if after.pending == 0 && !e.published {
      DeleteOk(r, s, after);
      OwnerTaken(r, q, callers, s, t, r.sites[s].table - {t});
    } else {
      SetEntryOk(r, s, t, after);
      assert forall s', t', j :: Owns(q, s', t', j) <==> Owns(r, s', t', j);
      OwnersSame(r, q, callers);
    }
  }

  lemma {:induction false} SettleEachOk(r: Registry, callers: set<nat>, s: nat, order: seq<string>, tokens: seq<string>, publishing: bool)
    requires RegistryOk(r) && OwnersOk(r, callers) && s in r.sites
    requires forall i, j :: 0 <= i < j < |order| ==> order[i] != order[j]
    requires forall t :: t in order ==> t in r.sites[s].table && 0 < CountOf(tokens, t) <= r.sites[s].table[t].pending
    ensures var q := SettleEach(r, s, order, tokens, publishing);
      && RegistryOk(q) && OwnersOk(q, callers) && SettledTo(r, q, s, order, tokens, publishing)
    decreases |order|
  {
    hide RegistryOk, OwnersOk, SettleOne, CountOf;
    if order != [] {
      var t, rest := order[0], order[1..];
      var count := CountOf(tokens, t);
      SettleOneOk(r, callers, s, t, count, publishing);
      var r1 := SettleOne(r, s, t, count, publishing);
      assert t !in rest;
      forall u | u in rest ensures u in r1.sites[s].table && 0 < CountOf(tokens, u) <= r1.sites[s].table[u].pending {
        assert u in order && u != t;
        assert TokenSettled(r.sites[s].table, r1.sites[s].table, u, 0, false, publishing);
      }
      SettleEachOk(r1, callers, s, rest, tokens, publishing);
      SettledTwice(r, r1, SettleEach(r1, s, rest, tokens, publishing), s, order, tokens, publishing);
    }
  }

  lemma SettledTwice(r: Registry, r1: Registry, q: Registry, s: nat, order: seq<string>, tokens: seq<string>, publishing: bool)
    requires order != [] && order[0] !in order[1..] && s in r.sites && r1.sites.Keys == r.sites.Keys && r1.nextId == r.nextId
    requires forall u :: u in r.sites ==> r1.sites[u].limits == r.sites[u].limits
    requires forall u :: u in r.sites && u != s ==> r1.sites[u].table == r.sites[u].table
    requires TokenSettled(r.sites[s].table, r1.sites[s].table, order[0], CountOf(tokens, order[0]), true, publishing)
    requires forall u :: u != order[0] ==> TokenSettled(r.sites[s].table, r1.sites[s].table, u, 0, false, publishing)
    requires SettledTo(r1, q, s, order[1..], tokens, publishing)
    ensures SettledTo(r, q, s, order, tokens, publishing)
  {
    hide CountOf, TokenSettled;
    forall u ensures TokenSettled(r.sites[s].table, q.sites[s].table, u, if u in order then CountOf(tokens, u) else 0,
                                  u in order, publishing)
    {
      assert u in order <==> u == order[0] || u in order[1..];
      var count := if u in order[1..] then CountOf(tokens, u) else 0;
      assert TokenSettled(r1.sites[s].table, q.sites[s].table, u, count, u in order[1..], publishing);
      if u == order[0] {
        SettledThenKept(r.sites[s].table, r1.sites[s].table, q.sites[s].table, u, CountOf(tokens, u), publishing);
      } else {
        assert TokenSettled(r.sites[s].table, r1.sites[s].table, u, 0, false, publishing);
        KeptThenSettled(r.sites[s].table, r1.sites[s].table, q.sites[s].table, u, count, u in order[1..], publishing);
      }
    }
  }

  lemma SettledThenKept(a: map<string, Entry>, b: map<string, Entry>, c: map<string, Entry>, t: string, count: nat, publishing: bool)
    requires TokenSettled(a, b, t, count, true, publishing) && TokenSettled(b, c, t, 0, false, publishing)
    ensures TokenSettled(a, c, t, count, true, publishing)
  {
  }

  lemma KeptThenSettled(a: map<string, Entry>, b: map<string, Entry>, c: map<string, Entry>, t: string, count: nat, settled: bool, publishing: bool)
    requires TokenSettled(a, b, t, 0, false, publishing) && TokenSettled(b, c, t, count, settled, publishing)
    ensures TokenSettled(a, c, t, count, settled, publishing)
  {
  }
}
