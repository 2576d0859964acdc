/**
 The capability and authority registry: per-site tables of capabilities and
 authorities under process-wide budgets. Every function is one critical section.
 A capability's table key is the digest of its token; the digest is taken to be
 injective, so the token itself is the key here.
 */
module RegistrySpec {
  import opened Wrappers

  const MAX_AUTHORITIES := 16384
  const MAX_NEW_AUTHORITIES := 2400
  const MAX_CAPABILITIES := 131072
  const MAX_MEMORY := 0x1000_0000
  const MAX_SITE_MEMORY := 0x400_0000
  const MINUTE := 60_000_000_000

  datatype Limits = Limits(maxAuthorities: int, maxNewAuthorities: int, maxCapabilities: int, idle: int)

  datatype Authority = Authority(id: nat, inFlight: nat, committed: bool)

  datatype Entry = Entry(expiresAt: int, lastUsed: int, token: string, cacheKey: string, pending: nat, published: bool,
                         reservation: Option<nat>)

  datatype Site = Site(limits: Limits, authorities: map<string, Authority>, table: map<string, Entry>,
                       index: map<string, string>, memory: nat, recent: seq<int>)

  /** A reservation that is not finished yet; entry is the authority entry it was made on. */
  datatype Reservation = Reservation(site: nat, authority: string, entry: nat)

  datatype Registry = Registry(sites: map<nat, Site>, holders: map<string, nat>, active: nat, memory: nat,
                               recent: seq<int>, pending: map<nat, Reservation>, nextId: nat)

  function Minus(a: nat, b: nat): nat {
    if b <= a then a - b else 0
  }

  function EntryMemory(e: Entry): nat {
    32 + |e.token| + |e.cacheKey| + 128
  }

  predicate EntryValid(e: Entry, now: int, idle: int) {
    e.token != "" && now < e.expiresAt && idle > 0 && now < e.lastUsed + idle
  }

  /** Drops the times that are a minute old or older. */
  function RateWindow(times: seq<int>, now: int): (window: seq<int>)
    ensures |window| <= |times|
  {
    if times != [] && times[0] <= now - MINUTE then RateWindow(times[1..], now) else times
  }

  function WithSite(r: Registry, s: nat, site: Site): Registry {
    r.(sites := r.sites[s := site])
  }

  // ---------- authorities ----------

  datatype Reason = Capacity | Rate | Unavailable

  datatype Reserved = Granted(registry: Registry, id: nat) | Refused(registry: Registry, reason: Reason)

  function HeldBy(holders: map<string, nat>, authority: string): nat {
    if authority in holders then holders[authority] else 0
  }

  function Reserve(r: Registry, s: nat, authority: string, now: int): Reserved
    requires s in r.sites
  {
    var site := r.sites[s];
    if authority == "" then Refused(r, Unavailable)
    else if authority in site.authorities then
      var a := site.authorities[authority];
      var r1 := WithSite(r, s, site.(authorities := site.authorities[authority := a.(inFlight := a.inFlight + 1)]));
      Granted(r1.(pending := r.pending[r.nextId := Reservation(s, authority, a.id)], nextId := r.nextId + 1), r.nextId)
    else
      var siteRecent := RateWindow(site.recent, now);
      var recent := RateWindow(r.recent, now);
      var first := HeldBy(r.holders, authority) == 0;
      var pruned := WithSite(r, s, site.(recent := siteRecent)).(recent := recent);
      if |site.authorities| >= site.limits.maxAuthorities || (first && |r.holders| >= MAX_AUTHORITIES) then
        Refused(pruned, Capacity)
      else if |siteRecent| >= site.limits.maxNewAuthorities || (first && |recent| >= MAX_NEW_AUTHORITIES) then
        Refused(pruned, Rate)
      else
        Granted(Entered(r.(recent := recent), s, authority, now, siteRecent, HeldBy(r.holders, authority)), r.nextId + 1)
  }

  /** A new authority of a site, in flight once. */
  function Entered(r: Registry, s: nat, authority: string, now: int, siteRecent: seq<int>, held: nat): Registry
    requires s in r.sites
  {
    var site := r.sites[s];
    var entry := Authority(r.nextId, 1, false);
    WithSite(r, s, site.(authorities := site.authorities[authority := entry], recent := siteRecent + [now]))
      .(recent := if held == 0 then r.recent + [now] else r.recent,
        holders := r.holders[authority := held + 1],
        pending := r.pending[r.nextId + 1 := Reservation(s, authority, r.nextId)],
        nextId := r.nextId + 2)
  }

  function ReleaseHolder(holders: map<string, nat>, authority: string): map<string, nat> {
    if HeldBy(holders, authority) <= 1 then holders - {authority}
    else holders[authority := holders[authority] - 1]
  }

  /** Ends a reservation, once. */
  function Finish(r: Registry, id: nat, commit: bool): Registry {
    if id !in r.pending then r
    else
      var p := r.pending[id];
      var r1 := r.(pending := r.pending - {id});
      if p.site !in r.sites || p.authority !in r.sites[p.site].authorities
         || r.sites[p.site].authorities[p.authority].id != p.entry then r1
      else
        var site := r.sites[p.site];
        var a := site.authorities[p.authority];
        var after := a.(inFlight := Minus(a.inFlight, 1), committed := a.committed || commit);
        if after.committed || after.inFlight > 0 then
          WithSite(r1, p.site, site.(authorities := site.authorities[p.authority := after]))
        else
          WithSite(r1, p.site, site.(authorities := site.authorities - {p.authority}))
            .(holders := ReleaseHolder(r.holders, p.authority))
  }

  function FinishOption(r: Registry, id: Option<nat>, commit: bool): Registry {
    if id.None? then r else Finish(r, id.value, commit)
  }

  // ---------- capabilities ----------

  function WithoutIndex(index: map<string, string>, e: Entry): map<string, string> {
    if e.cacheKey != "" && e.cacheKey in index && index[e.cacheKey] == e.token then index - {e.cacheKey} else index
  }

  function TakeOut(r: Registry, s: nat, e: Entry): Registry
    requires s in r.sites
  {
    var site := r.sites[s];
    WithSite(r, s, site.(table := site.table - {e.token}, index := WithoutIndex(site.index, e),
                         memory := Minus(site.memory, EntryMemory(e))))
      .(memory := Minus(r.memory, EntryMemory(e)), active := Minus(r.active, 1))
  }

  /** Takes an entry out of the table of an open site, with everything that belongs to it. */
  function Delete(r: Registry, s: nat, e: Entry): Registry
    requires s in r.sites
  {
    var r1 := FinishOption(r, e.reservation, false);
    if s !in r1.sites then r1 else TakeOut(r1, s, e)
  }

  function SetEntry(r: Registry, s: nat, t: string, e: Entry): Registry
    requires s in r.sites
  {
    WithSite(r, s, r.sites[s].(table := r.sites[s].table[t := e]))
  }

  function Claim(r: Registry, s: nat, t: string): Registry
    requires s in r.sites && t in r.sites[s].table
  {
    var e := r.sites[s].table[t];
    SetEntry(r, s, t, e.(pending := e.pending + 1))
  }

  function DropIndex(r: Registry, s: nat, cacheKey: string): Registry
    requires s in r.sites
  {
    WithSite(r, s, r.sites[s].(index := r.sites[s].index - {cacheKey}))
  }

  function Insert(r: Registry, s: nat, e: Entry): Registry
    requires s in r.sites
  {
    var site := r.sites[s];
    WithSite(r, s, site.(table := site.table[e.token := e], index := site.index[e.cacheKey := e.token],
                         memory := site.memory + EntryMemory(e)))
      .(active := r.active + 1, memory := r.memory + EntryMemory(e))
  }

  predicate Fits(r: Registry, s: nat, e: Entry)
    requires s in r.sites
  {
    var site := r.sites[s];
    && |site.table| < site.limits.maxCapabilities && r.active < MAX_CAPABILITIES
    && site.memory + EntryMemory(e) <= MAX_SITE_MEMORY && r.memory + EntryMemory(e) <= MAX_MEMORY
  }

  function IndexedToken(site: Site, cacheKey: string): string {
    if cacheKey in site.index then site.index[cacheKey] else ""
  }

  /** Claims the capability a cache key leads to, if it is still usable. */
  function Reuse(r: Registry, s: nat, cacheKey: string, now: int): (Registry, Option<string>)
    requires s in r.sites
  {
    var site := r.sites[s];
    var token := IndexedToken(site, cacheKey);
    if cacheKey == "" then (r, None)
    else if token !in site.table || site.table[token].cacheKey != cacheKey
         || !EntryValid(site.table[token], now, site.limits.idle) then
      var dropped := DropIndex(r, s, cacheKey);
      if token in site.table && site.table[token].pending == 0 then (Delete(dropped, s, site.table[token]), None)
      else (dropped, None)
    else (Claim(r, s, token), Some(token))
  }

  /** Enters a new capability, or claims the one its cache key already leads to. */
  function Register(r: Registry, s: nat, token: string, cacheKey: string, expiresAt: int, now: int, reservation: Option<nat>)
    : (Registry, Option<string>)
    requires s in r.sites
  {
    var site := r.sites[s];
    var existing := IndexedToken(site, cacheKey);
    if token == "" || cacheKey == "" || expiresAt <= now then (r, None)
    else if existing in site.table && site.table[existing].cacheKey == cacheKey then (Claim(r, s, existing), Some(existing))
    else
      var dropped := DropIndex(r, s, cacheKey);
      var e := Entry(expiresAt, now, token, cacheKey, 1, false, reservation);
      if !Fits(r, s, e) || token in site.table then (dropped, None) else (Insert(dropped, s, e), Some(token))
  }

  function CountOf(tokens: seq<string>, t: string): nat {
    multiset(tokens)[t]
  }

  predicate Settleable(site: Site, tokens: seq<string>, publish: bool, now: int) {
    forall t :: t in tokens ==>
      && t in site.table && site.table[t].pending >= CountOf(tokens, t)
      && (publish ==> EntryValid(site.table[t], now, site.limits.idle))
  }

  /** Settles the claims on one token. */
  function SettleOne(r: Registry, s: nat, t: string, count: nat, publishing: bool): Registry {
    if s !in r.sites || t !in r.sites[s].table || r.sites[s].table[t].pending < count then r
    else
      var site := r.sites[s];
      var e := site.table[t];
      var after := e.(pending := e.pending - count);
      if publishing then
        var r1 := FinishOption(r, e.reservation, true);
        if s !in r1.sites then r1
        else SetEntry(r1, s, t, after.(published := true, reservation := None))
      else if after.pending == 0 && !e.published then Delete(r, s, after)
      else SetEntry(r, s, t, after)
  }

  function SettleEach(r: Registry, s: nat, order: seq<string>, tokens: seq<string>, publishing: bool): Registry
    decreases |order|
  {
    if order == [] then r
    else SettleEach(SettleOne(r, s, order[0], CountOf(tokens, order[0]), publishing), s, order[1..], tokens, publishing)
  }

  /** An order in which a set of tokens may be visited; the program leaves it open. */
  ghost predicate Enumerates(order: seq<string>, all: set<string>) {
    && (forall t :: t in order <==> t in all)
    && (forall i, j :: 0 <= i < j < |order| ==> order[i] != order[j])
  }

  function Settle(r: Registry, s: nat, tokens: seq<string>, order: seq<string>, publish: bool, now: int): (Registry, bool) {
    if tokens == [] then (r, true)
    else if s !in r.sites then (r, false)
    else
      var valid := Settleable(r.sites[s], tokens, publish, now);
      (SettleEach(r, s, order, tokens, publish && valid), valid)
  }

  /** Whether a published capability may be used; an expired one nobody claims is removed. */
  function Has(r: Registry, s: nat, token: string, now: int): (Registry, bool)
    requires s in r.sites
  {
    var site := r.sites[s];
    if token == "" || token !in site.table then (r, false)
    else
      var e := site.table[token];
      var valid := e.published && EntryValid(e, now, site.limits.idle);
      if !valid && e.pending == 0 then (Delete(r, s, e), false) else (r, valid)
  }

  function Use(r: Registry, s: nat, token: string, now: int): (Registry, bool)
    requires s in r.sites
  {
    var site := r.sites[s];
    var (r1, valid) := Has(r, s, token, now);
    if valid then (SetEntry(r, s, token, site.table[token].(lastUsed := now)), true)
    else (r1, false)
  }

  // ---------- pruning ----------

  /** Entries nobody claims that have expired or idled out. */
  function Dead(site: Site, now: int): set<string> {
    set t | t in site.table && site.table[t].pending == 0 && !EntryValid(site.table[t], now, site.limits.idle)
  }

  /** Takes the entries of the given tokens out one after the other. */
  function DeleteAll(r: Registry, s: nat, tokens: seq<string>): Registry
    decreases |tokens|
  {
    if tokens == [] || s !in r.sites then r
    else if tokens[0] !in r.sites[s].table then DeleteAll(r, s, tokens[1..])
    else DeleteAll(Delete(r, s, r.sites[s].table[tokens[0]]), s, tokens[1..])
  }

  function OpenSite(r: Registry, limits: Limits): (Registry, nat) {
    (r.(sites := r.sites[r.nextId := Site(limits, map[], map[], map[], 0, [])], nextId := r.nextId + 1), r.nextId)
  }

  function ReleaseHolders(holders: map<string, nat>, authorities: set<string>): map<string, nat> {
    map a | a in holders && !(a in authorities && holders[a] <= 1) :: if a in authorities then holders[a] - 1 else holders[a]
  }

  /** Takes a site out of the process; its table and its authorities go with it. */
  function CloseSite(r: Registry, s: nat): Registry {
    if s !in r.sites then r
    else
      var site := r.sites[s];
      r.(sites := r.sites - {s}, holders := ReleaseHolders(r.holders, site.authorities.Keys),
         active := Minus(r.active, |site.table|), memory := Minus(r.memory, site.memory))
  }
}
