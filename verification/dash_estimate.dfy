/** The bound on how much a manifest may grow, computed before anything is rewritten. */
module DashEstimate {
  import opened Wrappers
  import opened DashTree
  import opened DashAddressing
  import opened DashPushdown
  import opened DashMeaning

  const MAX_XML_NODES := 50000

  datatype Shape = Shape(nodes: nat, bytes: nat)

  function Zero(): Shape { Shape(0, 0) }

  function Plus(a: Shape, b: Shape): Shape {
    Shape(a.nodes + b.nodes, a.bytes + b.bytes)
  }

  predicate AtMost(a: Shape, b: Shape) {
    a.nodes <= b.nodes && a.bytes <= b.bytes
  }

  function AttrBytes(a: Attr): nat {
    24 + |a.name.space| + |a.name.local| + |a.value|
  }

  function AttrsBytes(attrs: seq<Attr>): nat {
    if attrs == [] then 0 else AttrBytes(attrs[0]) + AttrsBytes(attrs[1..])
  }

  /** The number of elements and an upper bound of the memory of a subtree. */
  function ShapeOf(n: Node): (s: Shape)
    ensures s.nodes >= 1
    decreases ContentSize(n.content), 1
  {
    Plus(Shape(1, 32 + |n.name.space| + |n.name.local| + AttrsBytes(n.attrs)), ShapeAll(n.content))
  }

  function ShapeAll(content: seq<Content>): Shape
    decreases ContentSize(content), 0
  {
    if content == [] then Zero()
    else Plus(if content[0].Text? then Shape(0, |content[0].text|) else ShapeOf(content[0].node), ShapeAll(content[1..]))
  }

  function ShapeOne(c: Content): Shape {
    if c.Text? then Shape(0, |c.text|) else ShapeOf(c.node)
  }

  function ShapeOption(n: Option<Node>): Shape {
    if n.None? then Zero() else ShapeOf(n.value)
  }

  function AddressingShape(content: seq<Content>): Shape {
    if content == [] then Zero()
    else if IsAddressing(content[0]) then Plus(ShapeOf(content[0].node), AddressingShape(content[1..]))
    else AddressingShape(content[1..])
  }

  /** Adds to used what the Representations below n may receive. */
  function Estimate(n: Node, inherited: Shape, used: Shape, maxBytes: nat): Result<Shape>
    decreases ContentSize(n.content), 1
  {
    var effective := Plus(inherited, AddressingShape(n.content));
    if IsRepresentation(n) && effective.nodes > 0 then
      if effective.nodes > MAX_XML_NODES - used.nodes || effective.bytes > maxBytes - used.bytes then Err
      else EstimateAll(n.content, effective, Plus(used, effective), maxBytes)
    else EstimateAll(n.content, effective, used, maxBytes)
  }

  function EstimateAll(content: seq<Content>, inherited: Shape, used: Shape, maxBytes: nat): Result<Shape>
    decreases ContentSize(content), 0
  {
    if content == [] then Ok(used)
    else if content[0].Text? || IsAddressing(content[0]) then EstimateAll(content[1..], inherited, used, maxBytes)
    else
      match Estimate(content[0].node, inherited, used, maxBytes)
      case Err => Err
      case Ok(after) => EstimateAll(content[1..], inherited, after, maxBytes)
  }

  // ---------- merging does not grow ----------

  lemma {:induction false} PutAttrBytes(attrs: seq<Attr>, a: Attr)
    ensures AttrsBytes(PutAttr(attrs, a)) <= AttrsBytes(attrs) + AttrBytes(a)
  {
    hide AttrBytes;
    if attrs != [] {
      PutAttrBytes(attrs[1..], a);
      var put := PutAttr(attrs, a);
      assert put[1..] == if attrs[0].name == a.name then attrs[1..] else PutAttr(attrs[1..], a);
    }
  }

  lemma {:induction false} PutAttrsBytes(attrs: seq<Attr>, local: seq<Attr>)
    ensures AttrsBytes(PutAttrs(attrs, local)) <= AttrsBytes(attrs) + AttrsBytes(local)
    decreases |local|
  {
    hide AttrBytes, PutAttr;
    if local != [] {
      PutAttrBytes(attrs, local[0]);
      PutAttrsBytes(PutAttr(attrs, local[0]), local[1..]);
    }
  }

  lemma ShapeCons(c: Content, rest: seq<Content>)
    ensures ShapeAll([c] + rest) == Plus(ShapeOne(c), ShapeAll(rest))
  {
    hide ShapeOf;
    assert ([c] + rest)[1..] == rest;
  }

  lemma ShapeNone()
    ensures ShapeAll([]) == Zero()
  {
  }

  lemma {:induction false} ShapeConcat(a: seq<Content>, b: seq<Content>)
    ensures ShapeAll(a + b) == Plus(ShapeAll(a), ShapeAll(b))
    decreases |a|
  {
    hide ShapeAll, ShapeOne;
    ShapeNone();
    if a == [] {
      assert a + b == b;
    } else {
      ShapeConcat(a[1..], b);
      ShapeCons(a[0], a[1..]);
      ShapeCons(a[0], a[1..] + b);
      assert a == [a[0]] + a[1..] && a + b == [a[0]] + (a[1..] + b);
    }
  }

  function FromRankOn(content: seq<Content>, rank: int): seq<Content> {
    if content == [] then []
    else if Rank(content[0]) >= rank then [content[0]] + FromRankOn(content[1..], rank)
    else FromRankOn(content[1..], rank)
  }

  lemma RankStep(content: seq<Content>, rank: int)
    requires content != []
    ensures var c, rest := content[0], content[1..];
      && FromRankOn(content, rank) == (if Rank(c) >= rank then [c] + FromRankOn(rest, rank) else FromRankOn(rest, rank))
      && OfRank(content, rank) == (if Rank(c) == rank then [c] + OfRank(rest, rank) else OfRank(rest, rank))
      && FromRankOn(content, rank + 1)
        == (if Rank(c) >= rank + 1 then [c] + FromRankOn(rest, rank + 1) else FromRankOn(rest, rank + 1))
  {
    hide Rank;
  }

  lemma RankNone(rank: int)
    ensures FromRankOn([], rank) == OfRank([], rank) == FromRankOn([], rank + 1) == []
  {
  }

  lemma {:induction false} RankSplit(content: seq<Content>, rank: int)
    ensures ShapeAll(FromRankOn(content, rank))
         == Plus(ShapeAll(OfRank(content, rank)), ShapeAll(FromRankOn(content, rank + 1)))
    decreases |content|
  {
    hide ShapeAll, ShapeOne, Rank, FromRankOn, OfRank, Plus;
    if content == [] {
      ShapeNone();
      assert Plus(Zero(), Zero()) == Zero() by { PlusZero(); }
      RankNone(rank);
    } else {
      RankSplit(content[1..], rank);
      var c, rest := content[0], content[1..];
      var from, at, above := FromRankOn(rest, rank), OfRank(rest, rank), FromRankOn(rest, rank + 1);
      RankStep(content, rank);
      ShapeSplit(c, from, at, above, Rank(c), rank,
        FromRankOn(content, rank), OfRank(content, rank), FromRankOn(content, rank + 1));
    }
  }

  lemma ShapeSplit(c: Content, from: seq<Content>, at: seq<Content>, above: seq<Content>, k: int, rank: int,
                   f: seq<Content>, g: seq<Content>, h: seq<Content>)
    requires ShapeAll(from) == Plus(ShapeAll(at), ShapeAll(above))
    requires f == if k >= rank then [c] + from else from
    requires g == if k == rank then [c] + at else at
    requires h == if k >= rank + 1 then [c] + above else above
    ensures ShapeAll(f) == Plus(ShapeAll(g), ShapeAll(h))
  {
    hide ShapeAll, ShapeOne, Plus;
    PlusMoves(ShapeOne(c), ShapeAll(at), ShapeAll(above));
    if k > rank {
      ShapeCons(c, from);
      ShapeCons(c, above);
    } else if k == rank {
      ShapeCons(c, from);
      ShapeCons(c, at);
    }
  }

  lemma PlusZero()
    ensures Plus(Zero(), Zero()) == Zero()
  {
  }

  lemma PlusMoves(a: Shape, b: Shape, c: Shape)
    ensures Plus(a, Plus(b, c)) == Plus(b, Plus(a, c)) == Plus(Plus(a, b), c)
  {
  }

  lemma {:induction false} SortedShapeFrom(content: seq<Content>, rank: int)
    requires -1 <= rank <= 6
    ensures ShapeAll(FromRank(content, rank)) == ShapeAll(FromRankOn(content, rank))
    decreases 6 - rank
  {
    hide ShapeAll, OfRank;
    if rank == 6 {
      NoHigherRank(content);
    } else {
      SortedShapeFrom(content, rank + 1);
      RankSplit(content, rank);
      ShapeConcat(OfRank(content, rank), FromRank(content, rank + 1));
    }
  }

  lemma {:induction false} NoHigherRank(content: seq<Content>)
    ensures FromRankOn(content, 6) == [] && FromRankOn(content, -1) == content
  {
    if content != [] {
      NoHigherRank(content[1..]);
    }
  }

  lemma SortedShape(content: seq<Content>)
    ensures ShapeAll(SortByRank(content)) == ShapeAll(content)
  {
    hide ShapeAll, FromRank;
    SortedShapeFrom(content, -1);
    NoHigherRank(content);
  }

  lemma {:induction false} WithoutShape(content: seq<Content>, names: set<Name>)
    ensures AtMost(ShapeAll(Without(content, names)), ShapeAll(content))
    decreases |content|
  {
    hide ShapeOf;
    if content != [] {
      WithoutShape(content[1..], names);
      ShapeCons(content[0], Without(content[1..], names));
    }
  }

  lemma {:induction false} ElementsShape(content: seq<Content>)
    ensures AtMost(ShapeAll(Elements(content)), ShapeAll(content))
    decreases |content|
  {
    hide ShapeOf;
    if content != [] {
      ElementsShape(content[1..]);
      ShapeCons(content[0], Elements(content[1..]));
    }
  }

  lemma MergedContentShape(inherited: seq<Content>, local: seq<Content>)
    ensures AtMost(ShapeAll(MergedContent(inherited, local)), Plus(ShapeAll(inherited), ShapeAll(local)))
  {
    hide ShapeAll, SortByRank;
    var names := ElementNames(local);
    WithoutShape(inherited, names);
    ElementsShape(local);
    ShapeConcat(Without(inherited, names), Elements(local));
    SortedShape(inherited);
    SortedShape(Without(inherited, names) + Elements(local));
  }

  /** Merging never takes more elements or bytes than its two inputs together. */
  lemma MergeShape(inherited: Option<Node>, local: Option<Node>)
    ensures AtMost(ShapeOption(Merge(inherited, local)), Plus(ShapeOption(inherited), ShapeOption(local)))
  {
    hide ShapeAll, MergedContent, PutAttrs, AttrsBytes;
    if inherited.Some? && local.Some? {
      PutAttrsBytes(inherited.value.attrs, local.value.attrs);
      MergedContentShape(inherited.value.content, local.value.content);
    }
  }

  // ---------- the estimate covers what is placed ----------

  function Total(placed: seq<Option<Node>>): Shape {
    if placed == [] then Zero() else Plus(ShapeOption(placed[0]), Total(placed[1..]))
  }

  lemma TotalCons(a: Option<Node>, rest: seq<Option<Node>>)
    ensures Total([a] + rest) == Plus(ShapeOption(a), Total(rest))
    ensures Total([]) == Zero()
  {
    hide ShapeOption;
    assert ([a] + rest)[1..] == rest;
  }

  lemma {:induction false} TotalConcat(a: seq<Option<Node>>, b: seq<Option<Node>>)
    ensures Total(a + b) == Plus(Total(a), Total(b))
  {
    hide ShapeOption, Total;
    TotalCons(None, []);
    if a == [] {
      assert a + b == b;
    } else {
      TotalConcat(a[1..], b);
      TotalCons(a[0], a[1..]);
      TotalCons(a[0], a[1..] + b);
      assert a == [a[0]] + a[1..] && a + b == [a[0]] + (a[1..] + b);
    }
  }

  lemma {:induction false} LocalShape(content: seq<Content>)
    ensures AtMost(ShapeOption(LocalOf(content)), AddressingShape(content))
  {
    hide ShapeOf, IsAddressing;
    if content != [] {
      LocalShape(content[1..]);
    }
  }

  ghost predicate Covers(after: Shape, used: Shape, placed: seq<Option<Node>>, maxBytes: nat) {
    && AtMost(Plus(used, Total(placed)), after)
    && after.nodes <= MAX_XML_NODES && after.bytes <= maxBytes
  }

  ghost predicate WithinLimits(used: Shape, maxBytes: nat) {
    used.nodes <= MAX_XML_NODES && used.bytes <= maxBytes
  }

  lemma {:induction false} NodeCovered(n: Node, inherited: Option<Node>, shape: Shape, used: Shape, maxBytes: nat)
    requires AtMost(ShapeOption(inherited), shape) && WithinLimits(used, maxBytes)
    requires Estimate(n, shape, used, maxBytes).Ok?
    ensures Covers(Estimate(n, shape, used, maxBytes).value, used, Meaning(n, inherited), maxBytes)
    decreases ContentSize(n.content), 1
  {
    hide ContentSize, ShapeOf, Merge, MeaningAll, EstimateAll, AddressingShape, LocalOf, IsRepresentation, Total;
    var effective := Merge(inherited, LocalOf(n.content));
    var bound := Plus(shape, AddressingShape(n.content));
    LocalShape(n.content);
    MergeShape(inherited, LocalOf(n.content));
    var next := if IsRepresentation(n) && bound.nodes > 0 then Plus(used, bound) else used;
    ContentCovered(n.content, effective, bound, next, maxBytes);
    if IsRepresentation(n) {
      TotalConcat([effective], MeaningAll(n.content, effective));
      TotalOne(effective);
    } else {
      assert [] + MeaningAll(n.content, effective) == MeaningAll(n.content, effective);
    }
  }

  lemma TotalOne(a: Option<Node>)
    ensures Total([a]) == ShapeOption(a)
  {
    hide ShapeOption;
    assert [a][1..] == [];
  }

  lemma {:induction false} ContentCovered(content: seq<Content>, inherited: Option<Node>, shape: Shape, used: Shape, maxBytes: nat)
    requires AtMost(ShapeOption(inherited), shape) && WithinLimits(used, maxBytes)
    requires EstimateAll(content, shape, used, maxBytes).Ok?
    ensures Covers(EstimateAll(content, shape, used, maxBytes).value, used, MeaningAll(content, inherited), maxBytes)
    decreases ContentSize(content), 0
  {
    hide ContentSize, ShapeOf, Meaning, MeaningAll, Estimate, IsAddressing, Inner, Total, Covers, Plus, AtMost;
    if content == [] {
      NothingCovered(inherited, used, maxBytes);
    } else {
      SizeSplit(content);
      var c, rest := content[0], content[1..];
      InnerKinds(c);
      MeaningStep(content, inherited);
      if c.Text? || IsAddressing(c) {
        ContentCovered(rest, inherited, shape, used, maxBytes);
      } else {
        NodeCovered(c.node, inherited, shape, used, maxBytes);
        var after := Estimate(c.node, shape, used, maxBytes).value;
        assert WithinLimits(after, maxBytes) by { CoveredLimits(after, used, Meaning(c.node, inherited), maxBytes); }
        ContentCovered(rest, inherited, shape, after, maxBytes);
        CoveredTogether(EstimateAll(rest, shape, after, maxBytes).value, after, used,
          Meaning(c.node, inherited), MeaningAll(rest, inherited), maxBytes);
      }
    }
  }

  lemma NothingCovered(inherited: Option<Node>, used: Shape, maxBytes: nat)
    requires WithinLimits(used, maxBytes)
    ensures Covers(used, used, MeaningAll([], inherited), maxBytes)
  {
  }

  lemma CoveredLimits(after: Shape, used: Shape, placed: seq<Option<Node>>, maxBytes: nat)
    requires Covers(after, used, placed, maxBytes)
    ensures WithinLimits(after, maxBytes)
  {
  }

  lemma MeaningStep(content: seq<Content>, inherited: Option<Node>)
    requires content != []
    ensures Inner(content[0]) ==> content[0].Element?
    ensures MeaningAll(content, inherited)
         == if Inner(content[0]) then Meaning(content[0].node, inherited) + MeaningAll(content[1..], inherited)
            else MeaningAll(content[1..], inherited)
  {
    hide Meaning;
    assert [] + MeaningAll(content[1..], inherited) == MeaningAll(content[1..], inherited);
  }

  lemma CoveredTogether(last: Shape, after: Shape, used: Shape, a: seq<Option<Node>>, b: seq<Option<Node>>, maxBytes: nat)
    requires Covers(after, used, a, maxBytes) && Covers(last, after, b, maxBytes)
    ensures Covers(last, used, a + b, maxBytes) && Covers(last, used, b, maxBytes)
  {
    hide Total;
    TotalConcat(a, b);
  }

  lemma InnerKinds(c: Content)
    ensures Inner(c) ==> c.Element? && !IsAddressing(c)
  {
  }

  /**
   If the estimate of a manifest is within its limits, then so is everything that
   will be placed at its Representations, counted before the URLs are rewritten.
   */
  lemma EstimateSound(root: Node, maxBytes: nat)
    requires Estimate(root, Zero(), Zero(), maxBytes).Ok?
    ensures var estimate := Estimate(root, Zero(), Zero(), maxBytes).value;
      && AtMost(Total(Meaning(root, None)), estimate)
      && estimate.nodes <= MAX_XML_NODES && estimate.bytes <= maxBytes
  {
    hide Estimate, Meaning, Total;
    NodeCovered(root, None, Zero(), Zero(), maxBytes);
  }
}
