/** A run in which a session is handed an expired capability, although it has looked its key up before. */
module RegistryLate {
  import opened Wrappers
  import opened RegistrySpec
  import opened RegistryAuthorities
  import opened RegistryTables
  import opened RegistrySessions
  import opened RegistryRuns
  import opened RegistryBeside
  import opened RegistryStale

  /**
   Two sessions of a site whose entries idle out after 10. Session 1 reads its clock at 0
   and looks the key up; session 0 looks it up at 10; only then session 1 registers, still
   with its reading of 0.
   */
  function Before(): seq<Step> {
    [NewSite(Limits(4, 4, 4, 10)), Begin(0, 0), Begin(0, 1), ReuseKey(1, "k", 0), ReuseKey(0, "k", 10),
     RegisterToken(1, "b", "k", 100, 0, None)]
  }

  function Mint(): Step {
    RegisterToken(0, "a", "k", 110, 10, None)
  }

  function Publish(): Step {
    SettleTokens(0, ["b"], [], ["b"], true, 10)
  }

  function Empty(): Site {
    Site(Limits(4, 4, 4, 10), map[], map[], map[], 0, [])
  }

  function TwoSessions(site: Site, one: seq<string>, two: seq<string>, used: nat): World {
    World(Registry(map[0 := site], map[], used, site.memory, [], map[], 1), map[0 := Session(0, one), 1 := Session(0, two)], {})
  }

  function Kept(pending: nat): Site {
    var e := Entry(100, 0, "b", "k", pending, false, None);
    Site(Limits(4, 4, 4, 10), map[], map["b" := e], map["k" := "b"], EntryMemory(e), [])
  }

  lemma RunsOn(w: World, x: Step, rest: seq<Step>)
    requires Enabled(w, x) && Runs(Next(w, x), rest)
    ensures Runs(w, [x] + rest) && After(w, [x] + rest) == After(Next(w, x), rest)
  {
    hide Next, Enabled;
    assert ([x] + rest)[1..] == rest;
  }

  lemma Opened()
    ensures var x, y, z := Before()[0], Before()[1], Before()[2];
      && Enabled(Fresh(), x) && Enabled(Next(Fresh(), x), y) && Enabled(Next(Next(Fresh(), x), y), z)
      && Next(Next(Next(Fresh(), x), y), z) == TwoSessions(Empty(), [], [], 0)
  {
  }

  lemma Vain(i: nat, now: int)
    requires i <= 1
    ensures var w, x := TwoSessions(Empty(), [], [], 0), ReuseKey(i, "k", now); Enabled(w, x) && Answer(w, x).None? && Next(w, x) == w
  {
    var r := TwoSessions(Empty(), [], [], 0).r;
    assert r.sites[0].index - {"k"} == r.sites[0].index;
    assert r.sites[0 := r.sites[0]] == r.sites;
  }

  lemma First()
    ensures var w, x := TwoSessions(Empty(), [], [], 0), Before()[5];
      Enabled(w, x) && Next(w, x) == TwoSessions(Kept(1), [], ["b"], 1)
  {
    hide EntryMemory;
    var w, x := TwoSessions(Empty(), [], [], 0), Before()[5];
    var r := w.r;
    var e := NewEntry(x);
    assert EntryMemory(e) == 162 by { MemoryOf(e); }
    assert r.sites[0].index - {"k"} == r.sites[0].index;
    assert DropIndex(r, 0, "k").sites == r.sites;
    assert DropIndex(r, 0, "k") == r;
    assert Register(r, 0, "b", "k", 100, 0, None) == (Insert(r, 0, e), Some("b"));
    assert Insert(r, 0, e).sites[0] == Kept(1);
    assert Insert(r, 0, e).sites == map[0 := Kept(1)];
    assert Insert(r, 0, e) == TwoSessions(Kept(1), [], ["b"], 1).r;
    assert w.sessions[1].minted + ["b"] == ["b"];
    assert w.sessions[1 := Session(0, ["b"])] == TwoSessions(Kept(1), [], ["b"], 1).sessions;
  }

  lemma MemoryOf(e: Entry)
    ensures EntryMemory(e) == 160 + |e.token| + |e.cacheKey|
  {
  }

  lemma Second()
    ensures var w, x := TwoSessions(Kept(1), [], ["b"], 1), Mint();
      Enabled(w, x) && Answer(w, x) == Some("b") && Next(w, x) == TwoSessions(Kept(2), ["b"], ["b"], 1)
  {
    hide EntryMemory;
    var w := TwoSessions(Kept(1), [], ["b"], 1);
    MemoryOf(Kept(1).table["b"]);
    MemoryOf(Kept(2).table["b"]);
    assert Register(w.r, 0, "a", "k", 110, 10, None) == (Claim(w.r, 0, "b"), Some("b"));
    assert Claim(w.r, 0, "b").sites[0].table == Kept(2).table;
    assert Claim(w.r, 0, "b").sites == map[0 := Kept(2)];
    assert w.sessions[0].minted + ["b"] == ["b"];
    assert w.sessions[0 := Session(0, ["b"])] == TwoSessions(Kept(2), ["b"], ["b"], 1).sessions;
  }

  lemma Arrived()
    ensures Runs(Fresh(), Before()) && After(Fresh(), Before()) == TwoSessions(Kept(1), [], ["b"], 1)
  {
    hide Next, Enabled, Answer;
    var b, w := Before(), TwoSessions(Empty(), [], [], 0);
    Opened();
    var w1 := Next(Fresh(), b[0]);
    Vain(1, 0);
    Vain(0, 10);
    First();
    RunsOn(w, b[5], []);
    RunsOn(w, b[4], [b[5]] + []);
    RunsOn(w, b[3], [b[4]] + ([b[5]] + []));
    RunsOn(Next(w1, b[1]), b[2], [b[3]] + ([b[4]] + ([b[5]] + [])));
    RunsOn(w1, b[1], [b[2]] + ([b[3]] + ([b[4]] + ([b[5]] + []))));
    RunsOn(Fresh(), b[0], [b[1]] + ([b[2]] + ([b[3]] + ([b[4]] + ([b[5]] + [])))));
    assert [b[0]] + ([b[1]] + ([b[2]] + ([b[3]] + ([b[4]] + ([b[5]] + []))))) == b;
  }

  /**
   In a reachable state a session registers a capability and is handed another one that
   has expired at its own reading of the clock; publishing, it fails.
   */
  lemma ExpiredHandedOut()
    ensures Runs(Fresh(), Before())
    ensures var w := After(Fresh(), Before());
      && Before()[4] == ReuseKey(Mint().i, Mint().cacheKey, Mint().now)
      && Enabled(w, Mint()) && Answer(w, Mint()) == Some("b")
      && var w1 := Next(w, Mint());
      && 0 in w1.r.sites && Stale(w1.r, 0, Some("b"), Mint().now)
      && w1.sessions[0].minted == ["b"] && Enabled(w1, Publish())
      && !Settle(w1.r, 0, ["b"], ["b"], true, Mint().now).1
  {
    hide Next, Answer, Runs, After;
    Arrived();
    Second();
    var w1 := TwoSessions(Kept(2), ["b"], ["b"], 1);
    assert Stale(w1.r, 0, Some("b"), 10);
    StaleUnpublished(w1.r, 0, "b", 10, ["b"], ["b"], 10);
    assert multiset(["b"]) == multiset(["b"]) + multiset([]);
    assert forall t :: t in ["b"] <==> t in (set v | v in ["b"]);
  }
}
