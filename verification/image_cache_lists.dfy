/**
 The two intrusive lists of the image cache on the heap. Every entry carries the
 links of both: one list holds the entries of all sites, the other those of its
 own site. Ghost sequences say what the links spell.
 */
module ImageCacheLists {
  import opened ImageCacheSpec

  class ImageCacheEntry {
    const key: Key
    const owner: ImageCacheSite
    var globalPrev: ImageCacheEntry?
    var globalNext: ImageCacheEntry?
    var sitePrev: ImageCacheEntry?
    var siteNext: ImageCacheEntry?

    constructor (key: Key, owner: ImageCacheSite)
      ensures this.key == key && this.owner == owner
      ensures globalPrev == null && globalNext == null && sitePrev == null && siteNext == null
    {
      this.key, this.owner := key, owner;
      globalPrev, globalNext, sitePrev, siteNext := null, null, null, null;
    }
  }

  // ---------- sequences of entries ----------

  ghost function Members(order: seq<ImageCacheEntry>): set<ImageCacheEntry> {
    set e | e in order
  }

  /** The entry at an index, and null beyond either end, as the links at the ends are. */
  ghost function At(order: seq<ImageCacheEntry>, k: int): ImageCacheEntry? {
    if 0 <= k < |order| then order[k] else null
  }

  ghost function Cut(order: seq<ImageCacheEntry>, i: nat): (rest: seq<ImageCacheEntry>)
    requires i < |order|
    ensures |rest| == |order| - 1
  {
    order[..i] + order[i + 1..]
  }

  ghost function Without(order: seq<ImageCacheEntry>, e: ImageCacheEntry): (rest: seq<ImageCacheEntry>)
    ensures |rest| <= |order|
  {
    if order == [] then []
    else if order[0] == e then Without(order[1..], e)
    else [order[0]] + Without(order[1..], e)
  }

  /** The entries of one site, in the order of the list. */
  ghost function OwnedBy(order: seq<ImageCacheEntry>, s: ImageCacheSite): (rest: seq<ImageCacheEntry>)
    ensures |rest| <= |order|
  {
    if order == [] then []
    else if order[0].owner == s then [order[0]] + OwnedBy(order[1..], s)
    else OwnedBy(order[1..], s)
  }

  ghost predicate Unrepeated(order: seq<ImageCacheEntry>) {
    forall i, j :: 0 <= i < j < |order| ==> order[i] != order[j]
  }

  lemma CutAt(order: seq<ImageCacheEntry>, i: nat, k: int)
    requires i < |order|
    ensures At(Cut(order, i), k) == if k < i then At(order, k) else At(order, k + 1)
  {
    var rest := Cut(order, i);
    if 0 <= k < |rest| {
      assert rest[k] == if k < i then order[k] else order[k + 1];
    }
  }

  lemma AtMember(order: seq<ImageCacheEntry>, i: int)
    ensures At(order, i) != null ==> 0 <= i < |order| && order[i] == At(order, i) && At(order, i) in Members(order)
    ensures 0 <= i < |order| ==> order[i] == At(order, i)
  {
  }

  lemma OnlyAt(order: seq<ImageCacheEntry>, i: int)
    requires Unrepeated(order)
    ensures forall k :: 0 <= k < |order| && k != i ==> order[k] != At(order, i)
  {
  }

  lemma {:induction false} WithoutAbsent(order: seq<ImageCacheEntry>, e: ImageCacheEntry)
    requires e !in order
    ensures Without(order, e) == order
  {
    if order != [] {
      WithoutAbsent(order[1..], e);
    }
  }

  lemma {:induction false} WithoutAt(order: seq<ImageCacheEntry>, i: nat)
    requires Unrepeated(order) && i < |order|
    ensures Without(order, order[i]) == Cut(order, i)
  {
    var rest := order[1..];
    assert Unrepeated(rest);
    if i > 0 {
      WithoutAt(rest, i - 1);
      assert order[..i] == [order[0]] + rest[..i - 1];
    } else {
      WithoutAbsent(rest, order[0]);
    }
  }

  lemma {:induction false} WithoutMembers(order: seq<ImageCacheEntry>, e: ImageCacheEntry)
    ensures forall x :: x in Without(order, e) <==> x in order && x != e
    ensures Unrepeated(order) ==> Unrepeated(Without(order, e))
  {
    if order != [] {
      WithoutMembers(order[1..], e);
      if Unrepeated(order) {
        assert order[0] !in order[1..];
        assert Unrepeated(order[1..]);
      }
    }
  }

  lemma {:induction false} OwnedMembers(order: seq<ImageCacheEntry>, s: ImageCacheSite)
    ensures forall x :: x in OwnedBy(order, s) <==> x in order && x.owner == s
  {
    if order != [] {
      OwnedMembers(order[1..], s);
    }
  }

  /** Leaving the list of all entries, an entry leaves its owner's part and no other. */
  lemma {:induction false} OwnedWithout(order: seq<ImageCacheEntry>, e: ImageCacheEntry, s: ImageCacheSite)
    ensures OwnedBy(Without(order, e), s) == if e.owner == s then Without(OwnedBy(order, s), e) else OwnedBy(order, s)
  {
    if order != [] {
      OwnedWithout(order[1..], e, s);
    }
  }

  lemma OwnedFront(e: ImageCacheEntry, order: seq<ImageCacheEntry>, s: ImageCacheSite)
    ensures OwnedBy([e] + order, s) == if e.owner == s then [e] + OwnedBy(order, s) else OwnedBy(order, s)
  {
    assert ([e] + order)[1..] == order;
  }

  lemma CutUnrepeated(order: seq<ImageCacheEntry>, i: nat)
    requires i < |order| && Unrepeated(order)
    ensures Unrepeated(Cut(order, i))
  {
    var rest := Cut(order, i);
    assert forall j :: 0 <= j < |rest| ==> rest[j] == if j < i then order[j] else order[j + 1];
  }

  lemma FrontUnrepeated(e: ImageCacheEntry, order: seq<ImageCacheEntry>)
    requires Unrepeated(order) && e !in order
    ensures Unrepeated([e] + order)
    ensures At([e] + order, 0) == e
    ensures At([e] + order, |order|) == if order == [] then e else At(order, |order| - 1)
  {
  }

  // ---------- the list of all entries ----------

  /** With its neighbours joined, an unlinked entry's links no longer belong to the list. */
  lemma GlobalUnlinked(before: seq<ImageCacheEntry>, i: nat)
    requires i < |before|
    requires forall k :: 0 <= k < |before| ==>
      before[k].globalNext == if k == i then null else if k == i - 1 then At(before, i + 1) else At(before, k + 1)
    requires forall k :: 0 <= k < |before| ==>
      before[k].globalPrev == if k == i then null else if k == i + 1 then At(before, i - 1) else At(before, k - 1)
    ensures GlobalLinks(Cut(before, i))
  {
    hide Cut;
    var order := Cut(before, i);
    forall k | 0 <= k < |order|
      ensures order[k].globalPrev == At(order, k - 1) && order[k].globalNext == At(order, k + 1)
    {
      CutAt(before, i, k - 1);
      CutAt(before, i, k);
      CutAt(before, i, k + 1);
      assert order[k] == At(order, k) == before[if k < i then k else k + 1];
    }
  }

  lemma GlobalLinkedFront(before: seq<ImageCacheEntry>, e: ImageCacheEntry)
    requires e.globalNext == At(before, 0) && e.globalPrev == null
    requires forall k :: 0 <= k < |before| ==> before[k].globalNext == At(before, k + 1)
    requires forall k :: 0 <= k < |before| ==> before[k].globalPrev == if k == 0 then e else At(before, k - 1)
    ensures GlobalLinks([e] + before)
  {
    var order := [e] + before;
    forall k | 0 <= k < |order|
      ensures order[k].globalPrev == At(order, k - 1) && order[k].globalNext == At(order, k + 1)
    {
      assert k > 0 ==> order[k] == before[k - 1];
    }
  }

  ghost predicate GlobalLinks(order: seq<ImageCacheEntry>)
    reads Members(order)`globalPrev, Members(order)`globalNext
  {
    && (forall k :: 0 <= k < |order| ==> order[k].globalPrev == At(order, k - 1))
    && (forall k :: 0 <= k < |order| ==> order[k].globalNext == At(order, k + 1))
  }

  class ImageCacheRuntime {
    var globalHead: ImageCacheEntry?
    var globalTail: ImageCacheEntry?
    ghost var order: seq<ImageCacheEntry>

    constructor ()
      ensures Linked() && order == []
    {
      globalHead, globalTail, order := null, null, [];
    }

    /** The links spell the ghost sequence, forwards and backwards, and no entry occurs twice. */
    ghost predicate Linked()
      reads this, Members(order)`globalPrev, Members(order)`globalNext
    {
      && Unrepeated(order)
      && globalHead == At(order, 0) && globalTail == At(order, |order| - 1)
      && GlobalLinks(order)
    }

    method UnlinkGlobal(e: ImageCacheEntry)
      requires Linked() && e in order
      modifies this`globalHead, this`globalTail, this`order, Members(order)`globalPrev, Members(order)`globalNext
      ensures Linked() && order == Without(old(order), e)
      ensures e.globalPrev == null && e.globalNext == null
    {
      hide Without, Cut, Unrepeated, Members, At;
      ghost var before := order;
      ghost var i :| 0 <= i < |before| && before[i] == e;
      OnlyAt(before, i);
      OnlyAt(before, i - 1);
      OnlyAt(before, i + 1);
      AtMember(before, i - 1);
      AtMember(before, i);
      AtMember(before, i + 1);
      var p, n := e.globalPrev, e.globalNext;
      if p != null {
        p.globalNext := n;
      } else {
        globalHead := n;
      }
      assert forall k :: 0 <= k < |before| ==> before[k].globalNext == if k == i - 1 then n else At(before, k + 1);
      assert forall k :: 0 <= k < |before| ==> before[k].globalPrev == At(before, k - 1);
      if n != null {
        n.globalPrev := p;
      } else {
        globalTail := p;
      }
      assert forall k :: 0 <= k < |before| ==> before[k].globalNext == if k == i - 1 then n else At(before, k + 1);
      assert forall k :: 0 <= k < |before| ==> before[k].globalPrev == if k == i + 1 then p else At(before, k - 1);
      e.globalPrev, e.globalNext := null, null;
      GlobalUnlinked(before, i);
      CutUnrepeated(before, i);
      CutAt(before, i, 0);
      CutAt(before, i, |before| - 2);
      WithoutAt(before, i);
      order := Cut(before, i);
    }

    method LinkGlobalFront(e: ImageCacheEntry)
      requires Linked() && e !in order
      modifies this`globalHead, this`globalTail, this`order, Members(order)`globalPrev, e`globalPrev, e`globalNext
      ensures Linked() && order == [e] + old(order)
    {
      hide Unrepeated, Members, At;
      ghost var before := order;
      OnlyAt(before, 0);
      AtMember(before, 0);
      e.globalNext := globalHead;
      e.globalPrev := null;
      assert forall k :: 0 <= k < |before| ==> before[k].globalNext == At(before, k + 1);
      assert forall k :: 0 <= k < |before| ==> before[k].globalPrev == At(before, k - 1);
      if globalHead != null {
        globalHead.globalPrev := e;
      } else {
        globalTail := e;
      }
      assert forall k :: 0 <= k < |before| ==> before[k].globalNext == At(before, k + 1);
      assert forall k :: 0 <= k < |before| ==> before[k].globalPrev == if k == 0 then e else At(before, k - 1);
      GlobalLinkedFront(before, e);
      FrontUnrepeated(e, before);
      globalHead := e;
      order := [e] + before;
    }
  }

  // ---------- the list of one site ----------

  /** With its neighbours joined, an unlinked entry's links no longer belong to the list. */
  lemma SiteUnlinked(before: seq<ImageCacheEntry>, i: nat)
    requires i < |before|
    requires forall k :: 0 <= k < |before| ==>
      before[k].siteNext == if k == i then null else if k == i - 1 then At(before, i + 1) else At(before, k + 1)
    requires forall k :: 0 <= k < |before| ==>
      before[k].sitePrev == if k == i then null else if k == i + 1 then At(before, i - 1) else At(before, k - 1)
    ensures SiteLinks(Cut(before, i))
  {
    hide Cut;
    var order := Cut(before, i);
    forall k | 0 <= k < |order|
      ensures order[k].sitePrev == At(order, k - 1) && order[k].siteNext == At(order, k + 1)
    {
      CutAt(before, i, k - 1);
      CutAt(before, i, k);
      CutAt(before, i, k + 1);
      assert order[k] == At(order, k) == before[if k < i then k else k + 1];
    }
  }

  lemma SiteLinkedFront(before: seq<ImageCacheEntry>, e: ImageCacheEntry)
    requires e.siteNext == At(before, 0) && e.sitePrev == null
    requires forall k :: 0 <= k < |before| ==> before[k].siteNext == At(before, k + 1)
    requires forall k :: 0 <= k < |before| ==> before[k].sitePrev == if k == 0 then e else At(before, k - 1)
    ensures SiteLinks([e] + before)
  {
    var order := [e] + before;
    forall k | 0 <= k < |order|
      ensures order[k].sitePrev == At(order, k - 1) && order[k].siteNext == At(order, k + 1)
    {
      assert k > 0 ==> order[k] == before[k - 1];
    }
  }

  ghost predicate SiteLinks(order: seq<ImageCacheEntry>)
    reads Members(order)`sitePrev, Members(order)`siteNext
  {
    && (forall k :: 0 <= k < |order| ==> order[k].sitePrev == At(order, k - 1))
    && (forall k :: 0 <= k < |order| ==> order[k].siteNext == At(order, k + 1))
  }

  class ImageCacheSite {
    var head: ImageCacheEntry?
    var tail: ImageCacheEntry?
    ghost var lru: seq<ImageCacheEntry>
    var entries: map<Key, ImageCacheEntry>

    constructor ()
      ensures Linked() && lru == [] && entries == map[]
    {
      head, tail, lru := null, null, [];
      entries := map[];
    }

    /** The links spell the ghost sequence, forwards and backwards, and no entry occurs twice. */
    ghost predicate Linked()
      reads this, Members(lru)`sitePrev, Members(lru)`siteNext
    {
      && Unrepeated(lru)
      && head == At(lru, 0) && tail == At(lru, |lru| - 1)
      && SiteLinks(lru)
    }

    method Unlink(e: ImageCacheEntry)
      requires Linked() && e in lru
      modifies this`head, this`tail, this`lru, Members(lru)`sitePrev, Members(lru)`siteNext
      ensures Linked() && lru == Without(old(lru), e)
      ensures e.sitePrev == null && e.siteNext == null
    {
      hide Without, Cut, Unrepeated, Members, At;
      ghost var before := lru;
      ghost var i :| 0 <= i < |before| && before[i] == e;
      OnlyAt(before, i);
      OnlyAt(before, i - 1);
      OnlyAt(before, i + 1);
      AtMember(before, i - 1);
      AtMember(before, i);
      AtMember(before, i + 1);
      var p, n := e.sitePrev, e.siteNext;
      if p != null {
        p.siteNext := n;
      } else {
        head := n;
      }
      assert forall k :: 0 <= k < |before| ==> before[k].siteNext == if k == i - 1 then n else At(before, k + 1);
      assert forall k :: 0 <= k < |before| ==> before[k].sitePrev == At(before, k - 1);
      if n != null {
        n.sitePrev := p;
      } else {
        tail := p;
      }
      assert forall k :: 0 <= k < |before| ==> before[k].siteNext == if k == i - 1 then n else At(before, k + 1);
      assert forall k :: 0 <= k < |before| ==> before[k].sitePrev == if k == i + 1 then p else At(before, k - 1);
      e.sitePrev, e.siteNext := null, null;
      SiteUnlinked(before, i);
      CutUnrepeated(before, i);
      CutAt(before, i, 0);
      CutAt(before, i, |before| - 2);
      WithoutAt(before, i);
      lru := Cut(before, i);
    }

    method LinkFront(e: ImageCacheEntry)
      requires Linked() && e !in lru
      modifies this`head, this`tail, this`lru, Members(lru)`sitePrev, e`sitePrev, e`siteNext
      ensures Linked() && lru == [e] + old(lru)
    {
      hide Unrepeated, Members, At;
      ghost var before := lru;
      OnlyAt(before, 0);
      AtMember(before, 0);
      e.siteNext := head;
      e.sitePrev := null;
      assert forall k :: 0 <= k < |before| ==> before[k].siteNext == At(before, k + 1);
      assert forall k :: 0 <= k < |before| ==> before[k].sitePrev == At(before, k - 1);
      if head != null {
        head.sitePrev := e;
      } else {
        tail := e;
      }
      assert forall k :: 0 <= k < |before| ==> before[k].siteNext == At(before, k + 1);
      assert forall k :: 0 <= k < |before| ==> before[k].sitePrev == if k == 0 then e else At(before, k - 1);
      SiteLinkedFront(before, e);
      FrontUnrepeated(e, before);
      head := e;
      lru := [e] + before;
    }
  }

  // ---------- both lists together ----------

  /** Every site's list is the list of all entries restricted to that site, and holds what its table holds. */
  ghost predicate Coherent(r: ImageCacheRuntime, sites: set<ImageCacheSite>)
    reads r, r.order, sites
  {
    && r.Linked()
    && (forall s :: s in sites ==> SiteCoherent(r, s))
    && (forall e :: e in r.order ==> e.owner in sites)
  }

  ghost predicate SiteCoherent(r: ImageCacheRuntime, s: ImageCacheSite)
    reads r, r.order, s
  {
    && s.lru == OwnedBy(r.order, s)
    && Members(s.lru) <= Members(r.order)
    && s.Linked()
    && TableMatches(s.entries, Members(s.lru))
  }

  ghost predicate TableMatches(entries: map<Key, ImageCacheEntry>, members: set<ImageCacheEntry>) {
    && (forall k :: k in entries ==> entries[k] in members && entries[k].key == k)
    && (forall e :: e in members ==> e.key in entries && entries[e.key] == e)
  }

  lemma MembersFront(e: ImageCacheEntry, order: seq<ImageCacheEntry>)
    ensures Members([e] + order) == {e} + Members(order)
  {
  }

  lemma {:induction false} FewerMembers(e: ImageCacheEntry, order: seq<ImageCacheEntry>)
    ensures Members(Without(order, e)) == Members(order) - {e}
  {
    if order != [] {
      FewerMembers(e, order[1..]);
      MembersFront(order[0], order[1..]);
      MembersFront(order[0], Without(order[1..], e));
      assert order == [order[0]] + order[1..];
    }
  }

  lemma SameMembers(e: ImageCacheEntry, order: seq<ImageCacheEntry>)
    requires e in order
    ensures forall x :: x in [e] + Without(order, e) <==> x in order
    ensures Members([e] + Without(order, e)) == Members(order)
  {
    WithoutMembers(order, e);
    FewerMembers(e, order);
    MembersFront(e, Without(order, e));
    assert e in Members(order);
  }

  lemma {:induction false} OwnersApart(order: seq<ImageCacheEntry>, s: ImageCacheSite, t: ImageCacheSite)
    ensures Members(OwnedBy(order, s)) <= Members(order)
    ensures s != t ==> Members(OwnedBy(order, s)) !! Members(OwnedBy(order, t))
  {
    if order != [] {
      var first, rest := order[0], order[1..];
      OwnersApart(rest, s, t);
      OwnedMembers(rest, s);
      OwnedMembers(rest, t);
      MembersFront(first, rest);
      MembersFront(first, OwnedBy(rest, s));
      MembersFront(first, OwnedBy(rest, t));
      assert order == [first] + rest;
    }
  }

  lemma MovedOwners(e: ImageCacheEntry, before: seq<ImageCacheEntry>, after: seq<ImageCacheEntry>,
                    sites: set<ImageCacheSite>)
    requires forall x :: x in before ==> x.owner in sites
    requires e.owner in sites
    requires after == [e] + Without(before, e) || after == Without(before, e) || after == [e] + before
    ensures forall x :: x in after ==> x.owner in sites
  {
    WithoutMembers(before, e);
  }

  /** The last entry of the whole list is the last one of its own site. */
  lemma {:induction false} LastOwned(order: seq<ImageCacheEntry>)
    requires order != []
    ensures var last := order[|order| - 1]; var owned := OwnedBy(order, last.owner);
      owned != [] && owned[|owned| - 1] == last
  {
    if |order| > 1 {
      LastOwned(order[1..]);
    }
  }

  lemma CutLast(order: seq<ImageCacheEntry>)
    requires order != [] && Unrepeated(order)
    ensures Without(order, order[|order| - 1]) == order[..|order| - 1]
  {
    WithoutAt(order, |order| - 1);
  }

  method TouchGlobal(r: ImageCacheRuntime, e: ImageCacheEntry)
    requires r.Linked() && e in r.order
    modifies r, Members(r.order)`globalPrev, Members(r.order)`globalNext
    ensures r.Linked() && r.order == [e] + Without(old(r.order), e)
  {
    hide Without, Unrepeated, At, GlobalLinks;
    WithoutMembers(r.order, e);
    r.UnlinkGlobal(e);
    r.LinkGlobalFront(e);
  }

  method TouchSite(s: ImageCacheSite, e: ImageCacheEntry)
    requires s.Linked() && e in s.lru
    modifies s`head, s`tail, s`lru, Members(s.lru)`sitePrev, Members(s.lru)`siteNext
    ensures s.Linked() && s.lru == [e] + Without(old(s.lru), e)
  {
    hide Without, Unrepeated, At, SiteLinks;
    WithoutMembers(s.lru, e);
    s.Unlink(e);
    s.LinkFront(e);
  }

  /** A used entry moves to the front of both lists; every list of another site stays as it is. */
  method Touch(r: ImageCacheRuntime, ghost sites: set<ImageCacheSite>, e: ImageCacheEntry)
    requires Coherent(r, sites) && e in r.order
    modifies r, Members(r.order)`globalPrev, Members(r.order)`globalNext
    modifies e.owner`head, e.owner`tail, e.owner`lru, Members(e.owner.lru)`sitePrev, Members(e.owner.lru)`siteNext
    ensures Coherent(r, sites)
    ensures r.order == [e] + Without(old(r.order), e)
    ensures e.owner.lru == [e] + Without(old(e.owner.lru), e)
    ensures forall s :: s in sites && s != e.owner ==> s.lru == old(s.lru)
  {
    hide Without, OwnedBy, Unrepeated, At, GlobalLinks, SiteLinks, TableMatches;
    ghost var before := r.order;
    ghost var mine := e.owner.lru;
    SameMembers(e, before);
    OwnedMembers(before, e.owner);
    SameMembers(e, mine);
    TouchGlobal(r, e);
    TouchSite(e.owner, e);
    MovedOwners(e, before, r.order, sites);
    forall s | s in sites ensures SiteCoherent(r, s) {
      OwnedWithout(before, e, s);
      OwnedFront(e, Without(before, e), s);
      OwnersApart(before, s, e.owner);
    }
  }

  /** A cached entry leaves its site's table and both lists; any other is left alone. */
  method Remove(r: ImageCacheRuntime, ghost sites: set<ImageCacheSite>, e: ImageCacheEntry)
    requires Coherent(r, sites) && e.owner in sites
    modifies r, Members(r.order)`globalPrev, Members(r.order)`globalNext
    modifies e.owner, Members(e.owner.lru)`sitePrev, Members(e.owner.lru)`siteNext
    ensures Coherent(r, sites)
    ensures r.order == Without(old(r.order), e)
    ensures e.owner.lru == Without(old(e.owner.lru), e)
    ensures e.owner.entries == if e in old(r.order) then old(e.owner.entries) - {e.key} else old(e.owner.entries)
    ensures forall s :: s in sites && s != e.owner ==> s.lru == old(s.lru) && s.entries == old(s.entries)
  {
    hide Without, OwnedBy, Unrepeated, At, GlobalLinks, SiteLinks, TableMatches;
    ghost var before := r.order;
    ghost var mine := e.owner.lru;
    ghost var table := e.owner.entries;
    OwnedMembers(before, e.owner);
    InTable(table, mine, e);
    if e.key !in e.owner.entries || e.owner.entries[e.key] != e {
      WithoutAbsent(before, e);
      WithoutAbsent(mine, e);
      return;
    }
    RemovedTable(table, mine, e);
    e.owner.entries := e.owner.entries - {e.key};
    r.UnlinkGlobal(e);
    e.owner.Unlink(e);
    MovedOwners(e, before, r.order, sites);
    forall s | s in sites ensures SiteCoherent(r, s) {
      StillOwned(before, e, s);
      OwnersApart(before, s, e.owner);
    }
  }

  lemma StillOwned(order: seq<ImageCacheEntry>, e: ImageCacheEntry, s: ImageCacheSite)
    ensures var rest := OwnedBy(Without(order, e), s);
      && rest == (if e.owner == s then Without(OwnedBy(order, s), e) else OwnedBy(order, s))
      && Members(rest) == (if e.owner == s then Members(OwnedBy(order, s)) - {e} else Members(OwnedBy(order, s)))
      && Members(rest) <= Members(Without(order, e))
  {
    hide OwnedBy, Without;
    OwnedWithout(order, e, s);
    FewerMembers(e, OwnedBy(order, s));
    OwnersApart(Without(order, e), s, s);
  }

  lemma InTable(entries: map<Key, ImageCacheEntry>, lru: seq<ImageCacheEntry>, e: ImageCacheEntry)
    requires TableMatches(entries, Members(lru))
    ensures e in lru <==> e.key in entries && entries[e.key] == e
  {
  }

  lemma RemovedTable(entries: map<Key, ImageCacheEntry>, lru: seq<ImageCacheEntry>, e: ImageCacheEntry)
    requires TableMatches(entries, Members(lru)) && e in lru
    ensures TableMatches(entries - {e.key}, Members(lru) - {e})
  {
  }

  lemma AddedTable(entries: map<Key, ImageCacheEntry>, lru: seq<ImageCacheEntry>, e: ImageCacheEntry)
    requires TableMatches(entries, Members(lru)) && e.key !in entries
    ensures TableMatches(entries[e.key := e], Members([e] + lru))
  {
    assert Members([e] + lru) == {e} + Members(lru);
  }

  /** A stored entry becomes the most recently used one of the process and of its site. */
  method Insert(r: ImageCacheRuntime, ghost sites: set<ImageCacheSite>, e: ImageCacheEntry)
    requires Coherent(r, sites) && e !in r.order && e.owner in sites && e.key !in e.owner.entries
    modifies r, Members(r.order)`globalPrev, e`globalPrev, e`globalNext
    modifies e`sitePrev, e`siteNext, e.owner, Members(e.owner.lru)`sitePrev
    ensures Coherent(r, sites)
    ensures r.order == [e] + old(r.order) && e.owner.lru == [e] + old(e.owner.lru)
    ensures e.owner.entries == old(e.owner.entries)[e.key := e]
    ensures forall s :: s in sites && s != e.owner ==> s.lru == old(s.lru) && s.entries == old(s.entries)
  {
    hide Without, OwnedBy, Unrepeated, At, GlobalLinks, SiteLinks, TableMatches;
    ghost var before := r.order;
    ghost var mine := e.owner.lru;
    OwnedMembers(before, e.owner);
    AddedTable(e.owner.entries, mine, e);
    e.owner.entries := e.owner.entries[e.key := e];
    e.owner.LinkFront(e);
    r.LinkGlobalFront(e);
    MovedOwners(e, before, r.order, sites);
    forall s | s in sites ensures SiteCoherent(r, s) {
      OwnedFront(e, before, s);
      OwnersApart(before, s, e.owner);
      OwnersApart(r.order, s, e.owner);
    }
  }

  /** Over the process limit, the entry at the end of the process list goes: the least recently used of its site. */
  method EvictLast(r: ImageCacheRuntime, ghost sites: set<ImageCacheSite>) returns (victim: ImageCacheEntry?)
    requires Coherent(r, sites)
    modifies r, Members(r.order), sites
    ensures Coherent(r, sites)
    ensures victim == null <==> old(r.order) == []
    ensures victim != null ==>
      && r.order == old(r.order)[..|old(r.order)| - 1] && victim == old(r.order)[|old(r.order)| - 1]
      && r.order == Without(old(r.order), victim) && victim.owner.lru == Without(old(victim.owner.lru), victim)
      && victim.owner in sites && old(victim.owner.lru) != []
      && victim == old(victim.owner.lru)[|old(victim.owner.lru)| - 1]
      && victim.owner.lru == old(victim.owner.lru)[..|old(victim.owner.lru)| - 1]
      && victim.key in old(victim.owner.entries) && victim.owner.entries == old(victim.owner.entries) - {victim.key}
      && forall s :: s in sites && s != victim.owner ==> s.lru == old(s.lru) && s.entries == old(s.entries)
    ensures victim == null ==> r.order == [] && forall s :: s in sites ==> s.lru == old(s.lru) && s.entries == old(s.entries)
  {
    hide Without, OwnedBy, GlobalLinks, SiteLinks, TableMatches;
    victim := r.globalTail;
    if victim != null {
      LastOwned(r.order);
      CutLast(r.order);
      CutLast(victim.owner.lru);
      OwnersApart(r.order, victim.owner, victim.owner);
      InTable(victim.owner.entries, victim.owner.lru, victim);
      Remove(r, sites, victim);
    }
  }

  /** Over a site's limit, the entry at the end of that site's list goes. */
  method EvictSiteLast(r: ImageCacheRuntime, ghost sites: set<ImageCacheSite>, s: ImageCacheSite)
    returns (victim: ImageCacheEntry?)
    requires Coherent(r, sites) && s in sites
    modifies r, Members(r.order), s
    ensures Coherent(r, sites)
    ensures victim == null <==> old(s.lru) == []
    ensures victim != null ==>
      && victim == old(s.lru)[|old(s.lru)| - 1] && s.lru == old(s.lru)[..|old(s.lru)| - 1]
      && s.lru == Without(old(s.lru), victim)
      && victim in old(r.order) && r.order == Without(old(r.order), victim) && victim.owner == s
      && victim.key in old(s.entries) && s.entries == old(s.entries) - {victim.key}
      && forall t :: t in sites && t != s ==> t.lru == old(t.lru) && t.entries == old(t.entries)
    ensures victim == null ==>
      r.order == old(r.order) && forall t :: t in sites ==> t.lru == old(t.lru) && t.entries == old(t.entries)
  {
    hide Without, OwnedBy, GlobalLinks, SiteLinks, TableMatches;
    victim := s.tail;
    if victim != null {
      OwnedMembers(r.order, s);
      CutLast(s.lru);
      InTable(s.entries, s.lru, victim);
      Remove(r, sites, victim);
    }
  }
}
