/** What every reachable registry keeps about authorities and their reservations. */
module RegistryAuthorities {
  import opened Wrappers
  import opened RegistrySpec

  /** The unfinished reservations of an authority of a site. */
  function Holding(pending: map<nat, Reservation>, s: nat, authority: string): set<nat> {
    set i | i in pending && pending[i].site == s && pending[i].authority == authority
  }

  /** The open sites that hold an authority. */
  function HoldersOf(sites: map<nat, Site>, authority: string): set<nat> {
    set s | s in sites && authority in sites[s].authorities
  }

  /** An authority is in a site exactly while it is committed or in flight, and its count is exact. */
  ghost predicate AuthorityOk(pending: map<nat, Reservation>, s: nat, authority: string, a: Authority) {
    a.inFlight == |Holding(pending, s, authority)| && (a.committed || a.inFlight > 0)
  }

  ghost predicate ReservationOk(sites: map<nat, Site>, p: Reservation) {
    p.site in sites ==>
      p.authority in sites[p.site].authorities && sites[p.site].authorities[p.authority].id == p.entry
  }

  ghost predicate CountsOk(r: Registry) {
    && (forall s, a :: s in r.sites && a in r.sites[s].authorities ==>
          AuthorityOk(r.pending, s, a, r.sites[s].authorities[a]))
    && (forall i :: i in r.pending ==> ReservationOk(r.sites, r.pending[i]))
  }

  ghost predicate IdsOk(r: Registry) {
    && (forall i :: i in r.pending ==> i < r.nextId && r.pending[i].site < r.nextId)
    && (forall s :: s in r.sites ==> s < r.nextId)
  }

  ghost predicate HolderOk(sites: map<nat, Site>, holders: map<string, nat>, authority: string) {
    HeldBy(holders, authority) == |HoldersOf(sites, authority)|
    && (authority in holders ==> holders[authority] > 0)
  }

  /** The process counts, per authority, the sites that hold it. */
  ghost predicate HoldersOk(r: Registry) {
    forall a :: HolderOk(r.sites, r.holders, a)
  }

  ghost predicate AuthorityLimits(r: Registry) {
    && |r.holders| <= MAX_AUTHORITIES
    && (forall s :: s in r.sites && r.sites[s].authorities != map[] ==>
          |r.sites[s].authorities| <= r.sites[s].limits.maxAuthorities)
  }

  ghost predicate AuthoritiesOk(r: Registry) {
    CountsOk(r) && IdsOk(r) && HoldersOk(r) && AuthorityLimits(r)
  }

  // ---------- operations that leave authorities alone ----------

  ghost predicate SameAuthorities(r: Registry, q: Registry) {
    && r.pending == q.pending && r.holders == q.holders && r.nextId == q.nextId
    && r.sites.Keys == q.sites.Keys
    && (forall s :: s in r.sites ==> r.sites[s].authorities == q.sites[s].authorities && r.sites[s].limits == q.sites[s].limits)
  }

  lemma AuthoritiesKept(r: Registry, q: Registry)
    requires AuthoritiesOk(r) && SameAuthorities(r, q)
    ensures AuthoritiesOk(q)
  {
    forall a ensures HolderOk(q.sites, q.holders, a) {
      assert HolderOk(r.sites, r.holders, a);
      assert HoldersOf(q.sites, a) == HoldersOf(r.sites, a);
    }
    forall i | i in q.pending ensures ReservationOk(q.sites, q.pending[i]) {
      assert ReservationOk(r.sites, r.pending[i]);
    }
  }

  // ---------- counting reservations ----------

  lemma HoldingWithout(pending: map<nat, Reservation>, id: nat, s: nat, a: string)
    requires id in pending
    ensures var p := pending[id];
      |Holding(pending - {id}, s, a)| == |Holding(pending, s, a)| - (if p.site == s && p.authority == a then 1 else 0)
  {
    var before := Holding(pending, s, a);
    assert Holding(pending - {id}, s, a) == before - {id};
    assert id in before <==> pending[id].site == s && pending[id].authority == a;
  }

  lemma HoldingWith(pending: map<nat, Reservation>, id: nat, p: Reservation, s: nat, a: string)
    requires id !in pending
    ensures |Holding(pending[id := p], s, a)| == |Holding(pending, s, a)| + (if p.site == s && p.authority == a then 1 else 0)
  {
    var before := Holding(pending, s, a);
    assert Holding(pending[id := p], s, a) == if p.site == s && p.authority == a then before + {id} else before;
  }

  // ---------- one authority of one site changes ----------

  function WithAuthority(r: Registry, s: nat, a: string, x: Authority): Registry
    requires s in r.sites
  {
    WithSite(r, s, r.sites[s].(authorities := r.sites[s].authorities[a := x]))
  }

  function WithoutAuthority(r: Registry, s: nat, a: string): Registry
    requires s in r.sites
  {
    WithSite(r, s, r.sites[s].(authorities := r.sites[s].authorities - {a}))
  }

  lemma HoldersSame(r: Registry, s: nat, a: string, x: Authority)
    requires HoldersOk(r) && s in r.sites && a in r.sites[s].authorities
    ensures HoldersOk(WithAuthority(r, s, a, x))
  {
    var q := WithAuthority(r, s, a, x);
    forall b ensures HolderOk(q.sites, q.holders, b) {
      assert HolderOk(r.sites, r.holders, b);
      assert HoldersOf(q.sites, b) == HoldersOf(r.sites, b);
    }
  }

  lemma HoldersOfWith(r: Registry, s: nat, a: string, x: Authority, b: string)
    requires s in r.sites && a !in r.sites[s].authorities
    ensures var q := WithAuthority(r, s, a, x);
      |HoldersOf(q.sites, b)| == |HoldersOf(r.sites, b)| + (if b == a then 1 else 0)
  {
    var q := WithAuthority(r, s, a, x);
    var before := HoldersOf(r.sites, b);
    if b == a {
      assert s !in before;
      assert HoldersOf(q.sites, b) == before + {s};
    } else {
      assert HoldersOf(q.sites, b) == before;
    }
  }

  lemma HoldersOfWithout(r: Registry, s: nat, a: string, b: string)
    requires s in r.sites && a in r.sites[s].authorities
    ensures var q := WithoutAuthority(r, s, a);
      |HoldersOf(q.sites, b)| == |HoldersOf(r.sites, b)| - (if b == a then 1 else 0)
  {
    var q := WithoutAuthority(r, s, a);
    var before := HoldersOf(r.sites, b);
    if b == a {
      assert s in before;
      assert HoldersOf(q.sites, b) == before - {s};
    } else {
      assert HoldersOf(q.sites, b) == before;
    }
  }

  lemma HoldersGrow(r: Registry, s: nat, a: string, x: Authority)
    requires HoldersOk(r) && s in r.sites && a !in r.sites[s].authorities
    ensures HoldersOk(WithAuthority(r, s, a, x).(holders := r.holders[a := HeldBy(r.holders, a) + 1]))
  {
    hide HoldersOf, WithAuthority;
    var q := WithAuthority(r, s, a, x).(holders := r.holders[a := HeldBy(r.holders, a) + 1]);
    forall b ensures HolderOk(q.sites, q.holders, b) {
      assert HolderOk(r.sites, r.holders, b);
      HoldersOfWith(r, s, a, x, b);
    }
  }

  lemma HoldersShrink(r: Registry, s: nat, a: string)
    requires HoldersOk(r) && s in r.sites && a in r.sites[s].authorities
    ensures HoldersOk(WithoutAuthority(r, s, a).(holders := ReleaseHolder(r.holders, a)))
    ensures |ReleaseHolder(r.holders, a)| <= |r.holders|
  {
    hide HoldersOf, WithoutAuthority;
    var q := WithoutAuthority(r, s, a).(holders := ReleaseHolder(r.holders, a));
    HoldersSize(r, s, a);
    forall b ensures HolderOk(q.sites, q.holders, b) {
      assert HolderOk(r.sites, r.holders, b);
      HoldersOfWithout(r, s, a, b);
    }
  }

  lemma HoldersSize(r: Registry, s: nat, a: string)
    requires HoldersOk(r) && s in r.sites && a in r.sites[s].authorities
    ensures a in r.holders && |ReleaseHolder(r.holders, a)| <= |r.holders|
  {
    assert HolderOk(r.sites, r.holders, a);
    assert s in HoldersOf(r.sites, a);
    assert a in r.holders;
    if r.holders[a] <= 1 {
      assert (r.holders - {a}).Keys == r.holders.Keys - {a};
    } else {
      assert r.holders[a := r.holders[a] - 1].Keys == r.holders.Keys;
    }
  }

  // ---------- ending a reservation ----------

  /** With exact counts a reservation always finds the entry it was made on. */
  lemma FinishCase(r: Registry, id: nat, commit: bool)
    requires CountsOk(r) && id in r.pending
    ensures var p := r.pending[id];
      && (p.site !in r.sites ==> Finish(r, id, commit) == r.(pending := r.pending - {id}))
      && (p.site in r.sites ==>
           && p.authority in r.sites[p.site].authorities
           && var x := r.sites[p.site].authorities[p.authority];
           && x.inFlight > 0
           && var after := x.(inFlight := x.inFlight - 1, committed := x.committed || commit);
           Finish(r, id, commit)
             == (if after.committed || after.inFlight > 0 then WithAuthority(r, p.site, p.authority, after)
                 else WithoutAuthority(r, p.site, p.authority).(holders := ReleaseHolder(r.holders, p.authority)))
                .(pending := r.pending - {id}))
  {
    hide ReleaseHolder;
    var p := r.pending[id];
    assert ReservationOk(r.sites, p);
    if p.site in r.sites {
      var x := r.sites[p.site].authorities[p.authority];
      assert AuthorityOk(r.pending, p.site, p.authority, x);
      assert id in Holding(r.pending, p.site, p.authority);
    }
  }

  lemma FinishCounts(r: Registry, id: nat, commit: bool)
    requires CountsOk(r) && id in r.pending
    ensures CountsOk(Finish(r, id, commit))
  {
    hide Holding, ReleaseHolder, Finish;
    var q := Finish(r, id, commit);
    FinishCase(r, id, commit);
    var p := r.pending[id];
    forall s, a | s in q.sites && a in q.sites[s].authorities
      ensures AuthorityOk(q.pending, s, a, q.sites[s].authorities[a])
    {
      HoldingWithout(r.pending, id, s, a);
      assert AuthorityOk(r.pending, s, a, r.sites[s].authorities[a]);
    }
    forall i | i in q.pending ensures ReservationOk(q.sites, q.pending[i]) {
      assert ReservationOk(r.sites, r.pending[i]);
      if r.pending[i].site in r.sites && r.pending[i].site == p.site && r.pending[i].authority == p.authority {
        FinishLeaves(r, id, commit, i);
      }
    }
  }

  /** An authority is only given up when no other reservation of it is left. */
  lemma FinishLeaves(r: Registry, id: nat, commit: bool, i: nat)
    requires CountsOk(r) && id in r.pending && i in r.pending && i != id
    requires r.pending[i].site in r.sites && r.pending[i].site == r.pending[id].site
    requires r.pending[i].authority == r.pending[id].authority
    ensures r.pending[id].authority in r.sites[r.pending[id].site].authorities
    ensures r.sites[r.pending[id].site].authorities[r.pending[id].authority].inFlight > 1
  {
    var p := r.pending[id];
    assert ReservationOk(r.sites, p);
    var held := Holding(r.pending, p.site, p.authority);
    assert AuthorityOk(r.pending, p.site, p.authority, r.sites[p.site].authorities[p.authority]);
    assert {id, i} <= held;
    SubsetSize({id, i}, held);
  }

  lemma SubsetSize<T>(a: set<T>, b: set<T>)
    requires a <= b
    ensures |a| <= |b|
  {
    assert b == a + (b - a);
  }

  lemma PendingIrrelevant(r: Registry, pending: map<nat, Reservation>)
    ensures HoldersOk(r.(pending := pending)) == HoldersOk(r)
  {
  }

  lemma AuthoritiesSize(m: map<string, Authority>, a: string, x: Authority)
    requires a in m
    ensures |m - {a}| == |m| - 1 && |m[a := x]| == |m|
  {
    assert (m - {a}).Keys == m.Keys - {a};
    assert m[a := x].Keys == m.Keys;
  }

  lemma LimitsWith(r: Registry, s: nat, a: string, x: Authority)
    requires AuthorityLimits(r) && s in r.sites && a in r.sites[s].authorities
    ensures AuthorityLimits(WithAuthority(r, s, a, x))
  {
    AuthoritiesSize(r.sites[s].authorities, a, x);
  }

  lemma LimitsWithout(r: Registry, s: nat, a: string)
    requires AuthorityLimits(r) && HoldersOk(r) && s in r.sites && a in r.sites[s].authorities
    ensures AuthorityLimits(WithoutAuthority(r, s, a).(holders := ReleaseHolder(r.holders, a)))
  {
    hide HoldersOk, ReleaseHolder;
    HoldersShrink(r, s, a);
    AuthoritiesSize(r.sites[s].authorities, a, r.sites[s].authorities[a]);
  }

  lemma PendingParts(r: Registry, id: nat)
    ensures HoldersOk(r.(pending := r.pending - {id})) == HoldersOk(r)
    ensures AuthorityLimits(r.(pending := r.pending - {id})) == AuthorityLimits(r)
    ensures IdsOk(r) ==> IdsOk(r.(pending := r.pending - {id}))
  {
    hide HolderOk;
    assert HoldersOk(r.(pending := r.pending - {id})) == forall a :: HolderOk(r.sites, r.holders, a);
  }

  lemma FinishStays(r: Registry, id: nat, s: nat, a: string, x: Authority)
    requires AuthoritiesOk(r) && s in r.sites && a in r.sites[s].authorities
    requires CountsOk(WithAuthority(r, s, a, x).(pending := r.pending - {id}))
    ensures AuthoritiesOk(WithAuthority(r, s, a, x).(pending := r.pending - {id}))
  {
    hide CountsOk, HoldersOk, AuthorityLimits;
    HoldersSame(r, s, a, x);
    LimitsWith(r, s, a, x);
    PendingParts(WithAuthority(r, s, a, x), id);
  }

  lemma FinishGone(r: Registry, id: nat, s: nat, a: string)
    requires AuthoritiesOk(r) && s in r.sites && a in r.sites[s].authorities
    requires CountsOk(WithoutAuthority(r, s, a).(holders := ReleaseHolder(r.holders, a)).(pending := r.pending - {id}))
    ensures AuthoritiesOk(WithoutAuthority(r, s, a).(holders := ReleaseHolder(r.holders, a)).(pending := r.pending - {id}))
  {
    hide CountsOk, HoldersOk, AuthorityLimits, ReleaseHolder;
    HoldersShrink(r, s, a);
    LimitsWithout(r, s, a);
    PendingParts(WithoutAuthority(r, s, a).(holders := ReleaseHolder(r.holders, a)), id);
  }

  /** Ending a reservation, either way, keeps all authority counts exact. */
  lemma FinishOk(r: Registry, id: nat, commit: bool)
    requires AuthoritiesOk(r)
    ensures AuthoritiesOk(Finish(r, id, commit))
  {
    if id in r.pending {
      hide CountsOk, IdsOk, HoldersOk, AuthorityLimits, Finish, ReleaseHolder, WithAuthority, WithoutAuthority;
      var p := r.pending[id];
      FinishCounts(r, id, commit);
      FinishCase(r, id, commit);
      if p.site in r.sites {
        var x := r.sites[p.site].authorities[p.authority];
        var after := x.(inFlight := x.inFlight - 1, committed := x.committed || commit);
        if after.committed || after.inFlight > 0 {
          FinishStays(r, id, p.site, p.authority, after);
        } else {
          FinishGone(r, id, p.site, p.authority);
        }
      } else {
        PendingParts(r, id);
      }
    }
  }

  /** Ending a reservation touches authorities only. */
  lemma FinishFrame(r: Registry, id: nat, commit: bool)
    ensures var q := Finish(r, id, commit);
      && q.pending == r.pending - {id} && q.sites.Keys == r.sites.Keys && q.nextId == r.nextId
      && TablesKept(r, q)
  {
    if id !in r.pending {
      assert r.pending - {id} == r.pending;
    }
  }

  /** The capability tables and the capability totals are untouched. */
  ghost predicate TablesKept(r: Registry, q: Registry) {
    && r.active == q.active && r.memory == q.memory
    && (forall s :: s in r.sites && s in q.sites ==> SameTable(r.sites[s], q.sites[s]))
  }

  ghost predicate SameTable(a: Site, b: Site) {
    a.limits == b.limits && a.table == b.table && a.index == b.index && a.memory == b.memory
  }

  // ---------- making a reservation ----------

  lemma ReserveCounts(r: Registry, s: nat, a: string, x: Authority, id: nat)
    requires CountsOk(r) && IdsOk(r) && s in r.sites && id >= r.nextId
    requires var before := r.sites[s].authorities;
      && (a in before ==> x == before[a].(inFlight := before[a].inFlight + 1))
      && (a !in before ==> x.inFlight == 1)
    ensures var q := WithAuthority(r, s, a, x).(pending := r.pending[id := Reservation(s, a, x.id)]);
      CountsOk(q)
  {
    hide Holding;
    var p := Reservation(s, a, x.id);
    var q := WithAuthority(r, s, a, x).(pending := r.pending[id := p]);
    forall t, b | t in q.sites && b in q.sites[t].authorities
      ensures AuthorityOk(q.pending, t, b, q.sites[t].authorities[b])
    {
      HoldingWith(r.pending, id, p, t, b);
      if !(t == s && b == a) {
        assert AuthorityOk(r.pending, t, b, r.sites[t].authorities[b]);
      } else if a in r.sites[s].authorities {
        assert AuthorityOk(r.pending, s, a, r.sites[s].authorities[a]);
      } else {
        NobodyHolds(r, s, a);
      }
    }
    forall i | i in q.pending ensures ReservationOk(q.sites, q.pending[i]) {
      if i != id {
        assert ReservationOk(r.sites, r.pending[i]);
      }
    }
  }

  lemma NobodyHolds(r: Registry, s: nat, a: string)
    requires CountsOk(r) && s in r.sites && a !in r.sites[s].authorities
    ensures Holding(r.pending, s, a) == {}
  {
    forall i | i in r.pending ensures !(r.pending[i].site == s && r.pending[i].authority == a) {
      assert ReservationOk(r.sites, r.pending[i]);
    }
  }

  lemma ReserveLimits(r: Registry, s: nat, a: string, x: Authority)
    requires AuthorityLimits(r) && s in r.sites
    requires a !in r.sites[s].authorities ==> |r.sites[s].authorities| < r.sites[s].limits.maxAuthorities
    ensures forall t :: t in r.sites && WithAuthority(r, s, a, x).sites[t].authorities != map[] ==>
      |WithAuthority(r, s, a, x).sites[t].authorities| <= r.sites[t].limits.maxAuthorities
  {
    var before := r.sites[s].authorities;
    var after := before[a := x];
    assert after.Keys == before.Keys + {a};
    assert |after| == |after.Keys| && |before| == |before.Keys|;
  }

  lemma HoldersLimit(holders: map<string, nat>, a: string, n: nat)
    requires |holders| <= MAX_AUTHORITIES && (HeldBy(holders, a) == 0 ==> |holders| < MAX_AUTHORITIES)
    requires a in holders ==> holders[a] > 0
    ensures |holders[a := n]| <= MAX_AUTHORITIES
  {
    assert holders[a := n].Keys == holders.Keys + {a};
    assert |holders[a := n]| == |holders[a := n].Keys| && |holders| == |holders.Keys|;
  }

  /** The authority part of a registry without the rate windows, which no count depends on. */
  lemma WindowsIrrelevant(r: Registry, s: nat, siteRecent: seq<int>, recent: seq<int>)
    requires AuthoritiesOk(r) && s in r.sites
    ensures AuthoritiesOk(WithSite(r, s, r.sites[s].(recent := siteRecent)).(recent := recent))
  {
    hide CountsOk, IdsOk, HoldersOk, AuthorityLimits;
    var q := WithSite(r, s, r.sites[s].(recent := siteRecent)).(recent := recent);
    AuthoritiesKept(r, q);
  }

  lemma ReserveKnown(r: Registry, s: nat, a: string, now: int)
    requires AuthoritiesOk(r) && s in r.sites && a != "" && a in r.sites[s].authorities
    ensures AuthoritiesOk(Reserve(r, s, a, now).registry)
  {
    hide CountsOk, IdsOk, HoldersOk, AuthorityLimits;
    var x := r.sites[s].authorities[a];
    var y := x.(inFlight := x.inFlight + 1);
    var r1 := WithAuthority(r, s, a, y);
    var pending := r.pending[r.nextId := Reservation(s, a, x.id)];
    ReserveCounts(r, s, a, y, r.nextId);
    HoldersSame(r, s, a, y);
    PendingIrrelevant(r1, pending);
    ReserveLimits(r, s, a, y);
    IdsGrow(r, s, a, y, r.nextId, r.nextId + 1, r.recent);
    HoldersWithin(r);
    HoldersOnly(r1.(pending := pending), r1.(pending := pending, nextId := r.nextId + 1));
    CountsOnly(r1.(pending := pending), r1.(pending := pending, nextId := r.nextId + 1));
    LimitsOnly(r, r1.(pending := pending, nextId := r.nextId + 1));
  }

  lemma HoldersOnly(r: Registry, q: Registry)
    requires HoldersOk(r) && q.holders == r.holders && q.sites.Keys == r.sites.Keys
    requires forall s :: s in r.sites ==> q.sites[s].authorities == r.sites[s].authorities
    ensures HoldersOk(q)
  {
    forall a ensures HolderOk(q.sites, q.holders, a) {
      assert HolderOk(r.sites, r.holders, a);
      assert HoldersOf(q.sites, a) == HoldersOf(r.sites, a);
    }
  }

  lemma CountsOnly(r: Registry, q: Registry)
    requires CountsOk(r) && q.pending == r.pending && q.sites.Keys == r.sites.Keys
    requires forall s :: s in r.sites ==> q.sites[s].authorities == r.sites[s].authorities
    ensures CountsOk(q)
  {
    forall i | i in q.pending ensures ReservationOk(q.sites, q.pending[i]) {
      assert ReservationOk(r.sites, r.pending[i]);
    }
    forall s, a | s in q.sites && a in q.sites[s].authorities ensures AuthorityOk(q.pending, s, a, q.sites[s].authorities[a]) {
      assert AuthorityOk(r.pending, s, a, r.sites[s].authorities[a]);
    }
  }

  lemma LimitsOnly(r: Registry, q: Registry)
    requires |q.holders| <= MAX_AUTHORITIES && q.sites.Keys == r.sites.Keys
    requires forall s :: s in r.sites ==> q.sites[s].limits == r.sites[s].limits
    requires forall s :: s in r.sites && q.sites[s].authorities != map[] ==>
      |q.sites[s].authorities| <= r.sites[s].limits.maxAuthorities
    ensures AuthorityLimits(q)
  {
  }

  lemma IdsGrow(r: Registry, s: nat, a: string, x: Authority, id: nat, nextId: nat, recent: seq<int>)
    requires IdsOk(r) && s in r.sites && r.nextId <= id < nextId
    ensures IdsOk(WithAuthority(r, s, a, x).(pending := r.pending[id := Reservation(s, a, x.id)], nextId := nextId))
  {
  }

  lemma EnteredOk(r: Registry, s: nat, a: string, now: int, siteRecent: seq<int>)
    requires AuthoritiesOk(r) && s in r.sites && a !in r.sites[s].authorities
    requires |r.sites[s].authorities| < r.sites[s].limits.maxAuthorities
    requires HeldBy(r.holders, a) == 0 ==> |r.holders| < MAX_AUTHORITIES
    ensures AuthoritiesOk(Entered(r, s, a, now, siteRecent, HeldBy(r.holders, a)))
  {
    hide CountsOk, IdsOk, HoldersOk, AuthorityLimits, HeldBy, WithAuthority;
    var x := Authority(r.nextId, 1, false);
    var id := r.nextId + 1;
    var holders := r.holders[a := HeldBy(r.holders, a) + 1];
    var pending := r.pending[id := Reservation(s, a, x.id)];
    var q := Entered(r, s, a, now, siteRecent, HeldBy(r.holders, a));
    EnteredAuthorities(r, s, a, now, siteRecent, HeldBy(r.holders, a));
    ReserveCounts(r, s, a, x, id);
    CountsOnly(WithAuthority(r, s, a, x).(pending := pending), q);
    HoldersGrow(r, s, a, x);
    HoldersOnly(WithAuthority(r, s, a, x).(holders := holders), q);
    IdsGrow(r, s, a, x, id, r.nextId + 2, r.recent);
    IdsOnly(WithAuthority(r, s, a, x).(pending := pending, nextId := r.nextId + 2), q);
    EnteredLimits(r, s, a, now, siteRecent);
  }

  lemma EnteredAuthorities(r: Registry, s: nat, a: string, now: int, siteRecent: seq<int>, held: nat)
    requires s in r.sites
    ensures var q := Entered(r, s, a, now, siteRecent, held); var p := WithAuthority(r, s, a, Authority(r.nextId, 1, false));
      && q.sites.Keys == p.sites.Keys
      && (forall t :: t in p.sites ==> q.sites[t].authorities == p.sites[t].authorities && q.sites[t].limits == r.sites[t].limits)
  {
  }

  lemma EnteredLimits(r: Registry, s: nat, a: string, now: int, siteRecent: seq<int>)
    requires AuthoritiesOk(r) && s in r.sites && a !in r.sites[s].authorities
    requires |r.sites[s].authorities| < r.sites[s].limits.maxAuthorities
    requires HeldBy(r.holders, a) == 0 ==> |r.holders| < MAX_AUTHORITIES
    ensures AuthorityLimits(Entered(r, s, a, now, siteRecent, HeldBy(r.holders, a)))
  {
    hide CountsOk, IdsOk, HoldersOk, HeldBy;
    var x := Authority(r.nextId, 1, false);
    EnteredAuthorities(r, s, a, now, siteRecent, HeldBy(r.holders, a));
    ReserveLimits(r, s, a, x);
    assert HolderOk(r.sites, r.holders, a) by { HolderAt(r, a); }
    HoldersLimit(r.holders, a, HeldBy(r.holders, a) + 1);
    hide AuthorityLimits;
    LimitsOnly(r, Entered(r, s, a, now, siteRecent, HeldBy(r.holders, a)));
  }

  lemma ReserveNew(r: Registry, s: nat, a: string, now: int)
    requires AuthoritiesOk(r) && s in r.sites && a != "" && a !in r.sites[s].authorities
    requires Reserve(r, s, a, now).Granted?
    ensures AuthoritiesOk(Reserve(r, s, a, now).registry)
  {
    hide AuthoritiesOk, HeldBy, RateWindow, Entered;
    var p := r.(recent := RateWindow(r.recent, now));
    AuthoritiesKept(r, p);
    EnteredOk(p, s, a, now, RateWindow(r.sites[s].recent, now));
  }

  lemma HoldersWithin(r: Registry)
    requires AuthorityLimits(r)
    ensures |r.holders| <= MAX_AUTHORITIES
  {
  }

  lemma HolderAt(r: Registry, a: string)
    requires HoldersOk(r)
    ensures HolderOk(r.sites, r.holders, a)
  {
  }

  lemma IdsOnly(r: Registry, q: Registry)
    requires IdsOk(r) && q.pending == r.pending && q.nextId == r.nextId && q.sites.Keys == r.sites.Keys
    ensures IdsOk(q)
  {
  }

  /** Admitting an authority, or refusing to, keeps all counts exact and every limit. */
  lemma ReserveOk(r: Registry, s: nat, a: string, now: int)
    requires AuthoritiesOk(r) && s in r.sites
    ensures AuthoritiesOk(Reserve(r, s, a, now).registry)
  {
    hide AuthoritiesOk;
    if a != "" {
      if a in r.sites[s].authorities {
        ReserveKnown(r, s, a, now);
      } else if Reserve(r, s, a, now).Granted? {
        ReserveNew(r, s, a, now);
      } else {
        WindowsIrrelevant(r, s, RateWindow(r.sites[s].recent, now), RateWindow(r.recent, now));
      }
    }
  }

  // ---------- closing a site ----------

  lemma HeldAfter(holders: map<string, nat>, gone: set<string>, a: string)
    ensures HeldBy(ReleaseHolders(holders, gone), a)
         == if a in gone then Minus(HeldBy(holders, a), 1) else HeldBy(holders, a)
  {
  }

  lemma HoldersOfClosed(sites: map<nat, Site>, s: nat, a: string)
    requires s in sites
    ensures |HoldersOf(sites - {s}, a)| == |HoldersOf(sites, a)| - (if a in sites[s].authorities then 1 else 0)
  {
    var before := HoldersOf(sites, a);
    assert HoldersOf(sites - {s}, a) == before - {s};
    assert s in before <==> a in sites[s].authorities;
  }

  /** Closing a site gives back its share of every authority it holds. */
  lemma CloseOk(r: Registry, s: nat)
    requires AuthoritiesOk(r)
    ensures AuthoritiesOk(CloseSite(r, s))
  {
    if s in r.sites {
      var q := CloseSite(r, s);
      var gone := r.sites[s].authorities.Keys;
      CloseCounts(r, s);
      forall a ensures HolderOk(q.sites, q.holders, a) {
        hide HoldersOf;
        assert HolderOk(r.sites, r.holders, a);
        HoldersOfClosed(r.sites, s, a);
        HeldAfter(r.holders, gone, a);
      }
      assert q.holders.Keys <= r.holders.Keys;
      SubsetSize(q.holders.Keys, r.holders.Keys);
    }
  }

  lemma CloseCounts(r: Registry, s: nat)
    requires CountsOk(r) && s in r.sites
    ensures CountsOk(CloseSite(r, s))
  {
    hide Holding;
    var q := CloseSite(r, s);
    forall i | i in q.pending ensures ReservationOk(q.sites, q.pending[i]) {
      assert ReservationOk(r.sites, r.pending[i]);
    }
    forall t, a | t in q.sites && a in q.sites[t].authorities ensures AuthorityOk(q.pending, t, a, q.sites[t].authorities[a]) {
      assert AuthorityOk(r.pending, t, a, r.sites[t].authorities[a]);
    }
  }

  lemma OpenOk(r: Registry, limits: Limits)
    requires AuthoritiesOk(r)
    ensures AuthoritiesOk(OpenSite(r, limits).0)
  {
    var q := OpenSite(r, limits).0;
    forall a ensures HolderOk(q.sites, q.holders, a) {
      assert HolderOk(r.sites, r.holders, a);
      assert HoldersOf(q.sites, a) == HoldersOf(r.sites, a);
    }
    forall i | i in q.pending ensures ReservationOk(q.sites, q.pending[i]) {
      assert ReservationOk(r.sites, r.pending[i]);
    }
  }
}
