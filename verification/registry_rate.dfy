/** The sliding window that limits how many new authorities are admitted per minute. */
module RegistryRate {
  import opened Wrappers
  import opened RegistrySpec

  /** Admissions at times t - span < h <= t. */
  function InSpan(history: seq<int>, t: int, span: int): nat {
    if history == [] then 0
    else
      var h := history[|history| - 1];
      InSpan(history[..|history| - 1], t, span) + (if t - span < h <= t then 1 else 0)
  }

  /** What the window remembers of all admissions: it has forgotten only what is a minute older than the latest reading. */
  ghost predicate Remembers(history: seq<int>, window: seq<int>, latest: int) {
    && |window| <= |history| && history[|history| - |window|..] == window
    && (forall i :: 0 <= i < |history| ==> history[i] <= latest)
    && (forall i :: 0 <= i < |history| - |window| ==> history[i] <= latest - MINUTE)
  }

  /** No stretch of time of this length has more than max admissions. */
  ghost predicate Limited(history: seq<int>, span: int, max: int) {
    forall t :: InSpan(history, t, span) <= max
  }

  function Latest(a: int, b: int): int {
    if a <= b then b else a
  }

  lemma {:induction false} WindowIsSuffix(times: seq<int>, now: int)
    ensures var w := RateWindow(times, now); var gone := |times| - |w|;
      times[gone..] == w && forall i :: 0 <= i < gone ==> times[i] <= now - MINUTE
  {
    if times != [] && times[0] <= now - MINUTE {
      WindowIsSuffix(times[1..], now);
      var gone := |times[1..]| - |RateWindow(times[1..], now)|;
      forall i | 0 <= i < gone + 1 ensures times[i] <= now - MINUTE {
        if i > 0 {
          assert times[i] == times[1..][i - 1];
        }
      }
      assert times[1..][gone..] == times[gone + 1..];
    }
  }

  /** Looking at the window forgets more, but never an admission of the minute before the latest reading. */
  lemma WindowRemembers(history: seq<int>, window: seq<int>, latest: int, now: int)
    requires Remembers(history, window, latest)
    ensures Remembers(history, RateWindow(window, now), Latest(latest, now))
  {
    var w := RateWindow(window, now);
    WindowIsSuffix(window, now);
    var a, b := |history| - |window|, |history| - |w|;
    forall i | 0 <= i < b ensures history[i] <= Latest(latest, now) - MINUTE {
      if i >= a {
        assert history[i] == history[a..][i - a] == window[i - a];
      }
    }
    assert history[b..] == history[a..][b - a..] == window[b - a..];
  }

  lemma {:induction false} OldOnesDoNotCount(history: seq<int>, n: nat, t: int, span: int)
    requires n <= |history| && forall i :: 0 <= i < n ==> history[i] <= t - span
    ensures InSpan(history, t, span) <= |history| - n
    decreases |history|
  {
    if n < |history| {
      OldOnesDoNotCount(history[..|history| - 1], n, t, span);
    } else if n > 0 {
      OldOnesDoNotCount(history[..n - 1], n - 1, t, span);
    }
  }

  /**
   An admission into a window that is not full, by a clock that lags behind the latest
   reading by no more than lag: what stretches that are shorter than a minute by lag hold
   stays within the limit.
   */
  lemma AdmissionLimited(history: seq<int>, window: seq<int>, latest: int, now: int, lag: nat, max: int)
    requires Remembers(history, window, latest) && Limited(history, MINUTE - lag, max) && |window| < max
    requires latest - lag <= now <= latest
    ensures Remembers(history + [now], window + [now], latest) && Limited(history + [now], MINUTE - lag, max)
  {
    var after, span := history + [now], MINUTE - lag;
    assert after[..|history|] == history;
    assert after[|after| - |window + [now]|..] == history[|history| - |window|..] + [now];
    forall t ensures InSpan(after, t, span) <= max {
      if t >= now {
        OldOnesDoNotCount(after, |history| - |window|, t, span);
      } else {
        assert InSpan(history, t, span) <= max;
      }
    }
  }

  /** The admissions of a site, attempt by attempt. */
  datatype Attempt = Attempt(authority: string, now: int)

  /** Clock readings that are never more than lag behind the latest one before them; any readings are, for some lag. */
  ghost predicate Lagging(attempts: seq<Attempt>, latest: int, lag: nat) {
    attempts == []
    || (latest - lag <= attempts[0].now && Lagging(attempts[1..], Latest(latest, attempts[0].now), lag))
  }

  function SiteAdmitted(r: Registry, s: nat, x: Attempt): seq<int>
    requires s in r.sites
  {
    if x.authority !in r.sites[s].authorities && Reserve(r, s, x.authority, x.now).Granted? then [x.now] else []
  }

  /** One attempt at a site: the window follows the admissions and the limit holds. */
  lemma ReserveWithinRate(r: Registry, s: nat, x: Attempt, history: seq<int>, latest: int, lag: nat)
    requires s in r.sites && Remembers(history, r.sites[s].recent, latest) && latest - lag <= x.now
    requires Limited(history, MINUTE - lag, r.sites[s].limits.maxNewAuthorities)
    ensures var q := Reserve(r, s, x.authority, x.now).registry; var after := history + SiteAdmitted(r, s, x);
      && s in q.sites && q.sites[s].limits == r.sites[s].limits
      && Remembers(after, q.sites[s].recent, Latest(latest, x.now))
      && Limited(after, MINUTE - lag, r.sites[s].limits.maxNewAuthorities)
  {
    hide HeldBy, Limited, RateWindow;
    var window := RateWindow(r.sites[s].recent, x.now);
    WindowRemembers(history, r.sites[s].recent, latest, x.now);
    assert history + [] == history;
    if |window| < r.sites[s].limits.maxNewAuthorities {
      AdmissionLimited(history, window, Latest(latest, x.now), x.now, lag, r.sites[s].limits.maxNewAuthorities);
    }
    RemembersLater(history, r.sites[s].recent, latest, x.now);
  }

  lemma RemembersLater(history: seq<int>, window: seq<int>, latest: int, now: int)
    requires Remembers(history, window, latest)
    ensures Remembers(history, window, Latest(latest, now))
  {
  }

  function History(r: Registry, s: nat, attempts: seq<Attempt>): seq<int>
    requires s in r.sites
    decreases |attempts|
  {
    if attempts == [] then []
    else
      var q := Reserve(r, s, attempts[0].authority, attempts[0].now).registry;
      SiteAdmitted(r, s, attempts[0]) + if s in q.sites then History(q, s, attempts[1..]) else []
  }

  /**
   However often a site is asked, no stretch of a minute less the lag of the clock sees
   more new authorities than its limit; with readings in order that is a minute.
   */
  lemma {:induction false} SiteRateLimited(r: Registry, s: nat, attempts: seq<Attempt>, history: seq<int>, latest: int, lag: nat)
    requires s in r.sites && Remembers(history, r.sites[s].recent, latest) && Lagging(attempts, latest, lag)
    requires Limited(history, MINUTE - lag, r.sites[s].limits.maxNewAuthorities)
    ensures Limited(history + History(r, s, attempts), MINUTE - lag, r.sites[s].limits.maxNewAuthorities)
    decreases |attempts|
  {
    hide Limited, Remembers, Reserve, SiteAdmitted;
    if attempts == [] {
      assert history + [] == history;
    } else {
      var q := Reserve(r, s, attempts[0].authority, attempts[0].now).registry;
      var admitted := SiteAdmitted(r, s, attempts[0]);
      ReserveWithinRate(r, s, attempts[0], history, latest, lag);
      SiteRateLimited(q, s, attempts[1..], history + admitted, Latest(latest, attempts[0].now), lag);
      assert (history + admitted) + History(q, s, attempts[1..]) == history + History(r, s, attempts);
    }
  }

  // ---------- how much a lag costs ----------

  lemma {:induction false} LagMore(attempts: seq<Attempt>, latest: int, lag: nat, more: nat)
    requires Lagging(attempts, latest, lag) && lag <= more
    ensures Lagging(attempts, latest, more)
    decreases |attempts|
  {
    if attempts != [] {
      LagMore(attempts[1..], Latest(latest, attempts[0].now), lag, more);
    }
  }

  /** Any readings lag by no more than some time. */
  lemma {:induction false} SomeLag(attempts: seq<Attempt>, latest: int) returns (lag: nat)
    ensures Lagging(attempts, latest, lag)
    decreases |attempts|
  {
    if attempts == [] {
      lag := 0;
    } else {
      var later := SomeLag(attempts[1..], Latest(latest, attempts[0].now));
      lag := Latest(later, latest - attempts[0].now);
      LagMore(attempts[1..], Latest(latest, attempts[0].now), later, lag);
    }
  }

  /** The one site has this window, and these authorities and no others are held. */
  ghost predicate Holds(r: Registry, names: set<string>, recent: seq<int>) {
    && 0 in r.sites && r.sites[0].limits == Limits(4, 2, 1, 10) && r.sites[0].recent == recent
    && r.sites[0].authorities.Keys == names && r.holders.Keys == names && |r.recent| <= |names|
  }

  /** A new authority within all limits is admitted. */
  lemma Admits(r: Registry, names: set<string>, recent: seq<int>, x: Attempt)
    requires Holds(r, names, recent) && x.authority != "" && x.authority !in names && |names| < 4
    requires |RateWindow(recent, x.now)| < 2
    ensures SiteAdmitted(r, 0, x) == [x.now] && 0 in Reserve(r, 0, x.authority, x.now).registry.sites
    ensures Holds(Reserve(r, 0, x.authority, x.now).registry, names + {x.authority}, RateWindow(recent, x.now) + [x.now])
  {
    hide RateWindow, Entered;
    assert |r.sites[0].authorities| == |r.sites[0].authorities.Keys| && |r.holders| == |r.holders.Keys|;
    EnteredHolds(r.(recent := RateWindow(r.recent, x.now)), names, recent, x, RateWindow(recent, x.now));
  }

  lemma EnteredHolds(r: Registry, names: set<string>, recent: seq<int>, x: Attempt, window: seq<int>)
    requires Holds(r, names, recent) && x.authority !in names
    ensures Holds(Entered(r, 0, x.authority, x.now, window, 0), names + {x.authority}, window + [x.now])
  {
    var q := Entered(r, 0, x.authority, x.now, window, 0);
    assert q.sites[0].authorities.Keys == r.sites[0].authorities.Keys + {x.authority};
    assert q.holders.Keys == r.holders.Keys + {x.authority};
  }

  /** A site that admits two new authorities a minute, and nothing else. */
  function Pair(): Registry {
    Registry(map[0 := Site(Limits(4, 2, 1, 10), map[], map[], map[], 0, [])], map[], 0, 0, [], map[], 1)
  }

  /** Two attempts at once, one a minute later, and one more by a clock that lags behind it. */
  function Four(lag: nat): seq<Attempt> {
    [Attempt("a", 0), Attempt("b", 0), Attempt("c", MINUTE), Attempt("e", MINUTE - lag)]
  }

  lemma AllFourAdmitted(lag: nat)
    ensures History(Pair(), 0, Four(lag)) == [0, 0, MINUTE, MINUTE - lag]
  {
    hide Reserve, SiteAdmitted, Holds, History, RateWindow;
    var f, r0 := Four(lag), Pair();
    Windows(lag);
    assert Holds(r0, {}, []) by { PairHolds(); }
    Admits(r0, {}, [], f[0]);
    var r1 := Reserve(r0, 0, "a", 0).registry;
    assert {} + {"a"} == {"a"} && [] + [0] == [0];
    Admits(r1, {"a"}, [0], f[1]);
    var r2 := Reserve(r1, 0, "b", 0).registry;
    assert {"a"} + {"b"} == {"a", "b"} && [0] + [0] == [0, 0];
    Admits(r2, {"a", "b"}, [0, 0], f[2]);
    var r3 := Reserve(r2, 0, "c", MINUTE).registry;
    assert {"a", "b"} + {"c"} == {"a", "b", "c"} && [] + [MINUTE] == [MINUTE];
    Admits(r3, {"a", "b", "c"}, [MINUTE], f[3]);
    HistoryFour(r0, f);
  }

  lemma PairHolds()
    ensures Holds(Pair(), {}, [])
  {
  }

  lemma Windows(lag: nat)
    ensures RateWindow([], 0) == [] && RateWindow([0], 0) == [0] && RateWindow([0, 0], MINUTE) == []
    ensures RateWindow([MINUTE], MINUTE - lag) == [MINUTE]
  {
    assert [0, 0][1..] == [0] && [0][1..] == [];
    assert RateWindow([0], MINUTE) == [];
  }

  lemma HistoryFour(r: Registry, f: seq<Attempt>)
    requires 0 in r.sites && |f| == 4
    requires var r1 := Reserve(r, 0, f[0].authority, f[0].now).registry;
      && 0 in r1.sites
      && var r2 := Reserve(r1, 0, f[1].authority, f[1].now).registry;
      && 0 in r2.sites
      && var r3 := Reserve(r2, 0, f[2].authority, f[2].now).registry;
      && 0 in r3.sites && 0 in Reserve(r3, 0, f[3].authority, f[3].now).registry.sites
    ensures var r1 := Reserve(r, 0, f[0].authority, f[0].now).registry;
      var r2 := Reserve(r1, 0, f[1].authority, f[1].now).registry;
      var r3 := Reserve(r2, 0, f[2].authority, f[2].now).registry;
      History(r, 0, f)
        == SiteAdmitted(r, 0, f[0]) + (SiteAdmitted(r1, 0, f[1]) + (SiteAdmitted(r2, 0, f[2]) + SiteAdmitted(r3, 0, f[3])))
  {
    hide Reserve, SiteAdmitted, History;
    var r1 := Reserve(r, 0, f[0].authority, f[0].now).registry;
    var r2 := Reserve(r1, 0, f[1].authority, f[1].now).registry;
    var r3 := Reserve(r2, 0, f[2].authority, f[2].now).registry;
    HistoryOne(r, f);
    HistoryOne(r1, f[1..]);
    HistoryOne(r2, f[2..]);
    HistoryOne(r3, f[3..]);
    assert f[1..][1..] == f[2..] && f[2..][1..] == f[3..] && f[3..][1..] == [];
    HistoryNone(Reserve(r3, 0, f[3].authority, f[3].now).registry);
  }

  lemma HistoryNone(r: Registry)
    requires 0 in r.sites
    ensures History(r, 0, []) == []
  {
  }

  lemma HistoryOne(r: Registry, attempts: seq<Attempt>)
    requires 0 in r.sites && attempts != []
    requires 0 in Reserve(r, 0, attempts[0].authority, attempts[0].now).registry.sites
    ensures History(r, 0, attempts) == SiteAdmitted(r, 0, attempts[0])
              + History(Reserve(r, 0, attempts[0].authority, attempts[0].now).registry, 0, attempts[1..])
  {
  }

  lemma FourCounted(lag: nat, span: int)
    requires MINUTE - lag < span && lag <= MINUTE
    ensures InSpan([0, 0, MINUTE, MINUTE - lag], MINUTE - lag, span) >= 3
  {
    var h, t := [0, 0, MINUTE, MINUTE - lag], MINUTE - lag;
    assert h[..3] == [0, 0, MINUTE] && h[..3][..2] == [0, 0] && [0, 0][..1] == [0] && [0][..0] == [];
    assert InSpan([0], t, span) == 1;
    assert InSpan([0, 0], t, span) == 2;
    assert InSpan([0, 0, MINUTE], t, span) >= 2;
  }

  /**
   Readings out of order: by a clock that lags behind by any time up to a minute, three
   are admitted within a minute where two are allowed.
   */
  lemma ClockBackwards(lag: nat)
    requires 0 < lag <= MINUTE
    ensures Lagging(Four(lag), 0, lag) && !Limited(History(Pair(), 0, Four(lag)), MINUTE, 2)
  {
    FourLag(lag, lag);
    AllFourAdmitted(lag);
    FourCounted(lag, MINUTE);
  }

  lemma FourLag(lag: nat, most: nat)
    requires lag <= most
    ensures Lagging(Four(lag), 0, most)
  {
    var f := Four(lag);
    assert Lagging(f[1..][1..][1..][1..], MINUTE, most);
    assert f[1..][1..][1..][0] == f[3] && f[1..][1..][0] == f[2];
    assert Lagging(f[1..][1..][1..], MINUTE, most);
    assert Lagging(f[1..][1..], 0, most);
    assert Lagging(f[1..], 0, most);
  }

  /** Whatever the site, its limits and the attempts: stretches of this length keep the limit while clocks lag by no more than lag. */
  ghost predicate AlwaysLimited(span: int, lag: nat) {
    forall r: Registry, s: nat, attempts: seq<Attempt> ::
      s in r.sites && r.sites[s].recent == [] && r.sites[s].limits.maxNewAuthorities >= 0 && Lags(attempts, lag) ==>
        Limited(History(r, s, attempts), span, r.sites[s].limits.maxNewAuthorities)
  }

  ghost predicate Lags(attempts: seq<Attempt>, lag: nat) {
    attempts != [] ==> Lagging(attempts, attempts[0].now, lag)
  }

  /**
   A stretch of time keeps the limit, in all runs of clocks that lag, if and only if it is
   shorter than a minute by the lag; a clock may lag so much that none is.
   */
  lemma RateExactly(span: int, lag: nat)
    ensures AlwaysLimited(span, lag) <==> span <= MINUTE - lag || span <= 0
  {
    hide Lagging;
    if span <= MINUTE - lag || span <= 0 {
      forall r: Registry, s: nat, attempts: seq<Attempt>
        | s in r.sites && r.sites[s].recent == [] && r.sites[s].limits.maxNewAuthorities >= 0 && Lags(attempts, lag)
        ensures Limited(History(r, s, attempts), span, r.sites[s].limits.maxNewAuthorities)
      {
        ShortLimited(r, s, attempts, span, lag);
      }
    } else {
      var l := if lag <= MINUTE then lag else MINUTE;
      FourLag(l, lag);
      AllFourAdmitted(l);
      FourCounted(l, span);
      assert Lags(Four(l), lag);
      assert Pair().sites[0].limits.maxNewAuthorities == 2;
      assert !Limited(History(Pair(), 0, Four(l)), span, 2);
    }
  }

  lemma ShortLimited(r: Registry, s: nat, attempts: seq<Attempt>, span: int, lag: nat)
    requires s in r.sites && r.sites[s].recent == [] && r.sites[s].limits.maxNewAuthorities >= 0 && Lags(attempts, lag)
    requires span <= MINUTE - lag || span <= 0
    ensures Limited(History(r, s, attempts), span, r.sites[s].limits.maxNewAuthorities)
  {
    hide Lagging, Reserve;
    var history, max := History(r, s, attempts), r.sites[s].limits.maxNewAuthorities;
    if attempts != [] && span <= MINUTE - lag {
      SiteRateLimited(r, s, attempts, [], attempts[0].now, lag);
      assert [] + history == history;
      ShorterLimited(history, span, MINUTE - lag, max);
    } else if span <= 0 {
      forall t ensures InSpan(history, t, span) <= max {
        NothingCounts(history, t, span);
      }
    }
  }

  lemma {:induction false} NothingCounts(history: seq<int>, t: int, span: int)
    requires span <= 0
    ensures InSpan(history, t, span) == 0
    decreases |history|
  {
    if history != [] {
      NothingCounts(history[..|history| - 1], t, span);
    }
  }

  lemma {:induction false} ShorterCounts(history: seq<int>, t: int, span: int, longer: int)
    requires span <= longer
    ensures InSpan(history, t, span) <= InSpan(history, t, longer)
    decreases |history|
  {
    if history != [] {
      ShorterCounts(history[..|history| - 1], t, span, longer);
    }
  }

  lemma ShorterLimited(history: seq<int>, span: int, longer: int, max: int)
    requires span <= longer && Limited(history, longer, max)
    ensures Limited(history, span, max)
  {
    forall t ensures InSpan(history, t, span) <= max {
      ShorterCounts(history, t, span, longer);
    }
  }

  // ---------- all sites together ----------

  /** An attempt at one of the sites. */
  datatype Placed = Placed(site: nat, attempt: Attempt)

  ghost predicate PlacedLagging(attempts: seq<Placed>, latest: int, lag: nat) {
    attempts == []
    || (latest - lag <= attempts[0].attempt.now
        && PlacedLagging(attempts[1..], Latest(latest, attempts[0].attempt.now), lag))
  }

  ghost predicate AtSites(r: Registry, attempts: seq<Placed>) {
    forall i :: 0 <= i < |attempts| ==> attempts[i].site in r.sites
  }

  /** The process counts an admission of an authority that no site held before. */
  ghost function ProcessAdmitted(r: Registry, x: Placed): seq<int>
    requires x.site in r.sites
  {
    if HeldBy(r.holders, x.attempt.authority) == 0 then SiteAdmitted(r, x.site, x.attempt) else []
  }

  lemma ReserveWithinProcessRate(r: Registry, x: Placed, history: seq<int>, latest: int, lag: nat)
    requires x.site in r.sites && Remembers(history, r.recent, latest) && latest - lag <= x.attempt.now
    requires Limited(history, MINUTE - lag, MAX_NEW_AUTHORITIES)
    ensures var q := Reserve(r, x.site, x.attempt.authority, x.attempt.now).registry;
      var after := history + ProcessAdmitted(r, x);
      && q.sites.Keys == r.sites.Keys
      && Remembers(after, q.recent, Latest(latest, x.attempt.now)) && Limited(after, MINUTE - lag, MAX_NEW_AUTHORITIES)
  {
    hide HeldBy, Limited, RateWindow;
    var now := x.attempt.now;
    var window := RateWindow(r.recent, now);
    WindowRemembers(history, r.recent, latest, now);
    assert history + [] == history;
    if |window| < MAX_NEW_AUTHORITIES {
      AdmissionLimited(history, window, Latest(latest, now), now, lag, MAX_NEW_AUTHORITIES);
    }
    RemembersLater(history, r.recent, latest, now);
  }

  ghost function ProcessHistory(r: Registry, attempts: seq<Placed>): seq<int>
    requires AtSites(r, attempts)
    decreases |attempts|
  {
    if attempts == [] then []
    else
      var q := Reserve(r, attempts[0].site, attempts[0].attempt.authority, attempts[0].attempt.now).registry;
      ProcessAdmitted(r, attempts[0]) + if AtSites(q, attempts[1..]) then ProcessHistory(q, attempts[1..]) else []
  }

  /** However the sites are asked, the same holds of the authorities that are new to the process, and its limit. */
  lemma {:induction false} ProcessRateLimited(r: Registry, attempts: seq<Placed>, history: seq<int>, latest: int, lag: nat)
    requires AtSites(r, attempts) && Remembers(history, r.recent, latest) && PlacedLagging(attempts, latest, lag)
    requires Limited(history, MINUTE - lag, MAX_NEW_AUTHORITIES)
    ensures Limited(history + ProcessHistory(r, attempts), MINUTE - lag, MAX_NEW_AUTHORITIES)
    decreases |attempts|
  {
    hide Limited, Remembers, Reserve, ProcessAdmitted;
    if attempts == [] {
      assert history + [] == history;
    } else {
      var x := attempts[0];
      var q := Reserve(r, x.site, x.attempt.authority, x.attempt.now).registry;
      var admitted := ProcessAdmitted(r, x);
      ReserveWithinProcessRate(r, x, history, latest, lag);
      assert AtSites(q, attempts[1..]) by { assert forall i :: 0 < i < |attempts| ==> attempts[i].site in r.sites; }
      ProcessRateLimited(q, attempts[1..], history + admitted, Latest(latest, x.attempt.now), lag);
      assert (history + admitted) + ProcessHistory(q, attempts[1..]) == history + ProcessHistory(r, attempts);
    }
  }
}
