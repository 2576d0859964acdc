/**
 Segment addressing of an MPD. SegmentTemplate, SegmentList and SegmentBase may
 stand at any level and are inherited; the rewriter merges what a Representation
 inherits, rewrites its URLs and puts the result into the Representation itself.
 */
module DashAddressing {
  import opened Wrappers
  import opened DashTree
  import opened DashValues

  // ---------- merging inherited and local addressing ----------

  function Rank(c: Content): int {
    if c.Text? then -1
    else if IsNamed(c.node, "Initialization") then 0
    else if IsNamed(c.node, "RepresentationIndex") then 1
    else if IsNamed(c.node, "SegmentTimeline") then 2
    else if IsNamed(c.node, "BitstreamSwitching") then 3
    else if IsNamed(c.node, "SegmentURL") then 4
    else 5
  }

  function OfRank(content: seq<Content>, rank: int): seq<Content> {
    if content == [] then []
    else if Rank(content[0]) == rank then [content[0]] + OfRank(content[1..], rank)
    else OfRank(content[1..], rank)
  }

  function FromRank(content: seq<Content>, rank: int): seq<Content>
    requires -1 <= rank <= 6
    decreases 6 - rank
  {
    if rank == 6 then [] else OfRank(content, rank) + FromRank(content, rank + 1)
  }

  /** The stable sort by rank: one rank after the other, each in the original order. */
  function SortByRank(content: seq<Content>): seq<Content> {
    FromRank(content, -1)
  }

  function PutAttr(attrs: seq<Attr>, a: Attr): seq<Attr> {
    if attrs == [] then [a]
    else if attrs[0].name == a.name then [a] + attrs[1..]
    else [attrs[0]] + PutAttr(attrs[1..], a)
  }

  function PutAttrs(attrs: seq<Attr>, local: seq<Attr>): seq<Attr>
    decreases |local|
  {
    if local == [] then attrs else PutAttrs(PutAttr(attrs, local[0]), local[1..])
  }

  function ElementNames(content: seq<Content>): set<Name> {
    set c | c in content && c.Element? :: c.node.name
  }

  function Without(content: seq<Content>, names: set<Name>): seq<Content> {
    if content == [] then []
    else if content[0].Element? && content[0].node.name in names then Without(content[1..], names)
    else [content[0]] + Without(content[1..], names)
  }

  function Elements(content: seq<Content>): seq<Content> {
    if content == [] then []
    else if content[0].Element? then [content[0]] + Elements(content[1..])
    else Elements(content[1..])
  }

  function MergedContent(inherited: seq<Content>, local: seq<Content>): seq<Content> {
    var names := ElementNames(local);
    SortByRank(if names == {} then inherited else Without(inherited, names) + Elements(local))
  }

  function Merge(inherited: Option<Node>, local: Option<Node>): Option<Node> {
    if local.None? then inherited
    else if inherited.None? || inherited.value.name.local != local.value.name.local then local
    else
      Some(Node(inherited.value.name, PutAttrs(inherited.value.attrs, local.value.attrs),
                MergedContent(inherited.value.content, local.value.content)))
  }

  // ---------- the merge as its loops do it ----------

  lemma {:induction false} PutAttrAt(attrs: seq<Attr>, a: Attr, i: nat)
    requires i <= |attrs| && forall j :: 0 <= j < i ==> attrs[j].name != a.name
    requires i < |attrs| ==> attrs[i].name == a.name
    ensures PutAttr(attrs, a) == if i < |attrs| then attrs[i := a] else attrs + [a]
  {
    if i > 0 {
      assert forall j :: 0 <= j < i - 1 ==> attrs[1..][j] == attrs[j + 1];
      PutAttrAt(attrs[1..], a, i - 1);
      if i < |attrs| {
        assert [attrs[0]] + attrs[1..][i - 1 := a] == attrs[i := a];
      } else {
        assert [attrs[0]] + (attrs[1..] + [a]) == attrs + [a];
      }
    }
  }

  lemma {:induction false} WithoutSnoc(content: seq<Content>, c: Content, names: set<Name>)
    ensures Without(content + [c], names)
         == Without(content, names) + (if c.Element? && c.node.name in names then [] else [c])
  {
    if content != [] {
      WithoutSnoc(content[1..], c, names);
      assert (content + [c])[1..] == content[1..] + [c];
    }
  }

  lemma {:induction false} ElementsSnoc(content: seq<Content>, c: Content)
    ensures Elements(content + [c]) == Elements(content) + (if c.Element? then [c] else [])
  {
    if content != [] {
      ElementsSnoc(content[1..], c);
      assert (content + [c])[1..] == content[1..] + [c];
    }
  }

  method MergeAttributes(inherited: seq<Attr>, local: seq<Attr>) returns (merged: seq<Attr>)
    ensures merged == PutAttrs(inherited, local)
  {
    hide PutAttr;
    merged := inherited;
    var i := 0;
    while i < |local|
      invariant 0 <= i <= |local|
      invariant PutAttrs(inherited, local) == PutAttrs(merged, local[i..])
    {
      assert local[i..][0] == local[i] && local[i..][1..] == local[i + 1..];
      var index := 0;
      while index < |merged| && merged[index].name != local[i].name
        invariant 0 <= index <= |merged|
        invariant forall j :: 0 <= j < index ==> merged[j].name != local[i].name
      {
        index := index + 1;
      }
      PutAttrAt(merged, local[i], index);
      if index < |merged| {
        merged := merged[index := local[i]];
      } else {
        merged := merged + [local[i]];
      }
      i := i + 1;
    }
  }

  method MergeContents(inherited: seq<Content>, local: seq<Content>) returns (merged: seq<Content>)
    ensures merged == MergedContent(inherited, local)
  {
    hide SortByRank;
    var names := ElementNames(local);
    merged := inherited;
    if names != {} {
      var filtered: seq<Content> := [];
      var i := 0;
      while i < |inherited|
        invariant 0 <= i <= |inherited|
        invariant filtered == Without(inherited[..i], names)
      {
        WithoutSnoc(inherited[..i], inherited[i], names);
        assert inherited[..i + 1] == inherited[..i] + [inherited[i]];
        if !(inherited[i].Element? && inherited[i].node.name in names) {
          filtered := filtered + [inherited[i]];
        }
        i := i + 1;
      }
      assert inherited[..i] == inherited;
      merged := filtered;
      i := 0;
      while i < |local|
        invariant 0 <= i <= |local|
        invariant merged == filtered + Elements(local[..i])
      {
        ElementsSnoc(local[..i], local[i]);
        assert local[..i + 1] == local[..i] + [local[i]];
        if local[i].Element? {
          merged := merged + [local[i]];
        }
        i := i + 1;
      }
      assert local[..i] == local;
    }
    merged := SortByRank(merged);
  }

  method MergeSegmentAddressing(inherited: Option<Node>, local: Option<Node>) returns (merged: Option<Node>)
    ensures merged == Merge(inherited, local)
  {
    if local.None? {
      return inherited;
    }
    if inherited.None? || inherited.value.name.local != local.value.name.local {
      return local;
    }
    var attrs := MergeAttributes(inherited.value.attrs, local.value.attrs);
    var content := MergeContents(inherited.value.content, local.value.content);
    merged := Some(Node(inherited.value.name, attrs, content));
  }

  // ---------- what merging means ----------

  function Named(content: seq<Content>, name: Name): seq<Content> {
    if content == [] then []
    else if content[0].Element? && content[0].node.name == name then [content[0]] + Named(content[1..], name)
    else Named(content[1..], name)
  }

  function Lookup(attrs: seq<Attr>, name: Name): Option<string> {
    if attrs == [] then None
    else if attrs[0].name == name then Some(attrs[0].value)
    else Lookup(attrs[1..], name)
  }

  function LastValue(attrs: seq<Attr>, name: Name): Option<string> {
    if attrs == [] then None
    else if attrs[|attrs| - 1].name == name then Some(attrs[|attrs| - 1].value)
    else LastValue(attrs[..|attrs| - 1], name)
  }

  lemma {:induction false} LookupPut(attrs: seq<Attr>, a: Attr, name: Name)
    ensures Lookup(PutAttr(attrs, a), name) == if a.name == name then Some(a.value) else Lookup(attrs, name)
  {
    if attrs != [] && attrs[0].name != a.name {
      LookupPut(attrs[1..], a, name);
      assert PutAttr(attrs, a)[1..] == PutAttr(attrs[1..], a);
    } else if attrs != [] {
      assert PutAttr(attrs, a)[1..] == attrs[1..];
    }
  }

  /** A local attribute overrides the inherited one of that name; the others are inherited. */
  lemma {:induction false} AttributesInherited(attrs: seq<Attr>, local: seq<Attr>, name: Name)
    ensures Lookup(PutAttrs(attrs, local), name)
         == if LastValue(local, name).Some? then LastValue(local, name) else Lookup(attrs, name)
    decreases |local|
  {
    if local != [] {
      AttributesInherited(PutAttr(attrs, local[0]), local[1..], name);
      LookupPut(attrs, local[0], name);
      LastValueTail(local, name);
    }
  }

  lemma {:induction false} LastValueTail(local: seq<Attr>, name: Name)
    requires local != []
    ensures LastValue(local, name)
         == if LastValue(local[1..], name).Some? then LastValue(local[1..], name)
            else if local[0].name == name then Some(local[0].value) else None
  {
    var n := |local| - 1;
    if n > 0 && local[n].name != name {
      LastValueTail(local[..n], name);
      assert local[..n][1..] == local[1..][..n - 1];
    } else if n == 0 {
      assert local[..0] == [];
    }
  }

  lemma {:induction false} NamedConcat(a: seq<Content>, b: seq<Content>, name: Name)
    ensures Named(a + b, name) == Named(a, name) + Named(b, name)
  {
    if a == [] {
      assert a + b == b;
    } else {
      NamedConcat(a[1..], b, name);
      assert (a + b)[1..] == a[1..] + b;
    }
  }

  function RankOfName(name: Name): int {
    Rank(Element(Node(name, [], [])))
  }

  lemma {:induction false} NamedOfRank(content: seq<Content>, rank: int, name: Name)
    ensures Named(OfRank(content, rank), name) == if rank == RankOfName(name) then Named(content, name) else []
  {
    if content != [] {
      NamedOfRank(content[1..], rank, name);
      if Rank(content[0]) == rank {
        NamedConcat([content[0]], OfRank(content[1..], rank), name);
      }
    }
  }

  lemma {:induction false} NamedFromRank(content: seq<Content>, rank: int, name: Name)
    requires -1 <= rank <= 6
    ensures Named(FromRank(content, rank), name) == if rank <= RankOfName(name) then Named(content, name) else []
    decreases 6 - rank
  {
    hide OfRank, Named;
    NothingNamed(name);
    if rank < 6 {
      NamedFromRank(content, rank + 1, name);
      NamedOfRank(content, rank, name);
      NamedConcat(OfRank(content, rank), FromRank(content, rank + 1), name);
    }
  }

  lemma NothingNamed(name: Name)
    ensures Named([], name) == [] && RankOfName(name) <= 5
  {
  }

  lemma {:induction false} NamedWithout(content: seq<Content>, names: set<Name>, name: Name)
    ensures Named(Without(content, names), name) == if name in names then [] else Named(content, name)
  {
    if content != [] {
      NamedWithout(content[1..], names, name);
      if !(content[0].Element? && content[0].node.name in names) {
        NamedConcat([content[0]], Without(content[1..], names), name);
      }
    }
  }

  lemma {:induction false} NamedElements(content: seq<Content>, name: Name)
    ensures Named(Elements(content), name) == Named(content, name)
    ensures Named(content, name) != [] <==> name in ElementNames(content)
  {
    if content != [] {
      NamedElements(content[1..], name);
      assert ElementNames(content) == ElementNames(content[1..]) + ElementNames([content[0]]);
      if content[0].Element? {
        NamedConcat([content[0]], Elements(content[1..]), name);
        assert content[0] in [content[0]];
      }
    }
  }

  /** Child elements of a name are the local ones if there are any, else the inherited ones, in their order. */
  lemma ElementsInherited(inherited: seq<Content>, local: seq<Content>, name: Name)
    ensures Named(MergedContent(inherited, local), name)
         == if Named(local, name) != [] then Named(local, name) else Named(inherited, name)
  {
    hide Named, Without, Elements, ElementNames, Rank;
    var names := ElementNames(local);
    var joined := Without(inherited, names) + Elements(local);
    NothingNamed(name);
    RankBounds(name);
    NamedElements(local, name);
    NamedWithout(inherited, names, name);
    NamedConcat(Without(inherited, names), Elements(local), name);
    NamedFromRank(if names == {} then inherited else joined, -1, name);
  }

  lemma RankBounds(name: Name)
    ensures -1 <= RankOfName(name)
  {
  }

  /**
   Addressing of another kind replaces what is inherited; of the same kind, each
   attribute and each list of children of a name is the local one if there is one.
   */
  lemma MergeExactly(inherited: Option<Node>, local: Option<Node>)
    ensures local.None? ==> Merge(inherited, local) == inherited
    ensures local.Some? && (inherited.None? || inherited.value.name.local != local.value.name.local) ==>
      Merge(inherited, local) == local
    ensures local.Some? && inherited.Some? && inherited.value.name.local == local.value.name.local ==>
      && Merge(inherited, local).Some?
      && var m, up, own := Merge(inherited, local).value, inherited.value, local.value;
      && m.name == up.name
      && (forall name :: Lookup(m.attrs, name)
            == if LastValue(own.attrs, name).Some? then LastValue(own.attrs, name) else Lookup(up.attrs, name))
      && (forall name :: Named(m.content, name)
            == if Named(own.content, name) != [] then Named(own.content, name) else Named(up.content, name))
  {
    hide PutAttrs, MergedContent, Named, Lookup, LastValue;
    if local.Some? && inherited.Some? {
      forall name { AttributesInherited(inherited.value.attrs, local.value.attrs, name); }
      forall name { ElementsInherited(inherited.value.content, local.value.content, name); }
    }
  }

  lemma {:induction false} OfRankOnly(content: seq<Content>, rank: int)
    ensures forall c :: c in OfRank(content, rank) ==> Rank(c) == rank
  {
    hide Rank;
    if content != [] {
      OfRankOnly(content[1..], rank);
    }
  }

  lemma {:induction false} RanksRise(content: seq<Content>, rank: int)
    requires -1 <= rank <= 6
    ensures var out := FromRank(content, rank);
      && (forall c :: c in out ==> Rank(c) >= rank)
      && (forall i, j :: 0 <= i < j < |out| ==> Rank(out[i]) <= Rank(out[j]))
    decreases 6 - rank
  {
    hide Rank, OfRank;
    if rank < 6 {
      RanksRise(content, rank + 1);
      OfRankOnly(content, rank);
      var a, b := OfRank(content, rank), FromRank(content, rank + 1);
      forall i, j | 0 <= i < j < |a + b| ensures Rank((a + b)[i]) <= Rank((a + b)[j]) {
        assert (a + b)[i] == (if i < |a| then a[i] else b[i - |a|]) && (a + b)[j] == (if j < |a| then a[j] else b[j - |a|]);
        assert j >= |a| ==> b[j - |a|] in b;
      }
    }
  }

  /** The children of merged addressing stand in the order of the schema. */
  lemma SchemaOrder(inherited: seq<Content>, local: seq<Content>, i: nat, j: nat, p: nat, q: nat)
    requires i < j < |MergedContent(inherited, local)| && p < q < 5
    requires var names := ["Initialization", "RepresentationIndex", "SegmentTimeline", "BitstreamSwitching", "SegmentURL"];
      var c := MergedContent(inherited, local)[j]; c.Element? && IsNamed(c.node, names[p])
    ensures var names := ["Initialization", "RepresentationIndex", "SegmentTimeline", "BitstreamSwitching", "SegmentURL"];
      var c := MergedContent(inherited, local)[i]; !(c.Element? && IsNamed(c.node, names[q]))
  {
    hide OfRank, FromRank, Without, Elements;
    var names := ElementNames(local);
    RanksRise(if names == {} then inherited else Without(inherited, names) + Elements(local), -1);
    Ranked(MergedContent(inherited, local)[j], p);
    Ranked(MergedContent(inherited, local)[i], q);
  }

  lemma Ranked(c: Content, p: nat)
    requires p < 5
    ensures var names := ["Initialization", "RepresentationIndex", "SegmentTimeline", "BitstreamSwitching", "SegmentURL"];
      c.Element? && IsNamed(c.node, names[p]) ==> Rank(c) == p
  {
    assert |"Initialization"| == 14 && |"RepresentationIndex"| == 19 && |"SegmentTimeline"| == 15;
    assert |"BitstreamSwitching"| == 18 && |"SegmentURL"| == 10;
  }
}
