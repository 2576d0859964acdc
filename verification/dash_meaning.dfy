/**
 Pushing segment addressing down to the Representations changes where it stands
 and how its URLs are written, not what any Representation inherits.
 */
module DashMeaning {
  import opened Wrappers
  import opened DashTree
  import opened DashValues
  import opened DashAddressing
  import opened DashPushdown

  // ---------- what a tree says ----------

  /** Children that are elements of the tree itself, not properties of their parent. */
  predicate Inner(c: Content) {
    c.Element? && !IsBase(c) && !IsAddressing(c)
  }

  function LocalOf(content: seq<Content>): Option<Node> {
    if content == [] then None
    else if IsAddressing(content[0]) then Some(content[0].node)
    else LocalOf(content[1..])
  }

  function BaseOf(content: seq<Content>): Option<Node> {
    if content == [] then None
    else if IsBase(content[0]) then Some(content[0].node)
    else BaseOf(content[1..])
  }

  /** The addressing every Representation of a tree ends up with, in document order. */
  function Meaning(n: Node, inherited: Option<Node>): seq<Option<Node>>
    decreases ContentSize(n.content), 1
  {
    var effective := Merge(inherited, LocalOf(n.content));
    (if IsRepresentation(n) then [effective] else []) + MeaningAll(n.content, effective)
  }

  function MeaningAll(content: seq<Content>, inherited: Option<Node>): seq<Option<Node>>
    decreases ContentSize(content), 0
  {
    if content == [] then []
    else (if Inner(content[0]) then Meaning(content[0].node, inherited) else []) + MeaningAll(content[1..], inherited)
  }

  /** One Representation: its addressing, the base of its URLs and its template bindings. */
  datatype Scope = Scope(addressing: Option<Node>, base: string, bindings: Result<Bindings>)

  function ResolvedBase(content: seq<Content>, base: string, env: Env): string {
    match BaseOf(content)
    case None => base
    case Some(n) =>
      match NodeText(n)
      case Err => base
      case Ok(value) =>
        match env.reference(value, base)
        case None => base
        case Some(p) => p.1
  }

  function Scopes(n: Node, base: string, inherited: Option<Node>, env: Env): seq<Scope>
    decreases ContentSize(n.content), 1
  {
    var effective := Merge(inherited, LocalOf(n.content));
    var current := ResolvedBase(n.content, base, env);
    (if IsRepresentation(n) then [Scope(effective, current, BindingsOf(n))] else [])
    + ScopesAll(n.content, current, effective, env)
  }

  function ScopesAll(content: seq<Content>, base: string, inherited: Option<Node>, env: Env): seq<Scope>
    decreases ContentSize(content), 0
  {
    if content == [] then []
    else (if Inner(content[0]) then Scopes(content[0].node, base, inherited, env) else [])
         + ScopesAll(content[1..], base, inherited, env)
  }

  function RewriteScope(s: Scope, env: Env): Result<Option<Node>> {
    if s.addressing.None? then Ok(None)
    else if s.bindings.Err? then Err
    else
      match RewriteAddressing(s.addressing.value, s.base, s.bindings.value, env)
      case Err => Err
      case Ok(n) => Ok(Some(n))
  }

  /** The meaning consists of the rewritten scopes, one by one. */
  ghost predicate Means(meaning: seq<Option<Node>>, scopes: seq<Scope>, env: Env) {
    |meaning| == |scopes| && forall i :: 0 <= i < |scopes| ==> RewriteScope(scopes[i], env) == Ok(meaning[i])
  }

  lemma MeansConcat(a: seq<Option<Node>>, b: seq<Option<Node>>, s: seq<Scope>, t: seq<Scope>, env: Env)
    requires Means(a, s, env) && Means(b, t, env)
    ensures Means(a + b, s + t, env)
  {
    hide RewriteScope;
    forall i | 0 <= i < |s + t| ensures RewriteScope((s + t)[i], env) == Ok((a + b)[i]) {
      if i >= |s| {
        assert (s + t)[i] == t[i - |s|];
      }
    }
  }

  // ---------- Representations ----------

  function Representations(n: Node): nat
    decreases ContentSize(n.content), 1
  {
    (if IsRepresentation(n) then 1 else 0) + RepresentationsAll(n.content)
  }

  function RepresentationsAll(content: seq<Content>): nat
    decreases ContentSize(content), 0
  {
    if content == [] then 0
    else (if Inner(content[0]) then Representations(content[0].node) else 0) + RepresentationsAll(content[1..])
  }

  predicate NoNesting(n: Node)
    decreases ContentSize(n.content), 1
  {
    (IsRepresentation(n) ==> RepresentationsAll(n.content) == 0) && NoNestingAll(n.content)
  }

  predicate NoNestingAll(content: seq<Content>)
    decreases ContentSize(content), 0
  {
    content == [] || ((Inner(content[0]) ==> NoNesting(content[0].node)) && NoNestingAll(content[1..]))
  }

  /** Only Representations have addressing of their own. */
  predicate OnlyAtRepresentations(n: Node)
    decreases ContentSize(n.content), 1
  {
    (LocalOf(n.content).Some? ==> IsRepresentation(n)) && OnlyAtRepresentationsAll(n.content)
  }

  predicate OnlyAtRepresentationsAll(content: seq<Content>)
    decreases ContentSize(content), 0
  {
    content == [] || ((Inner(content[0]) ==> OnlyAtRepresentations(content[0].node)) && OnlyAtRepresentationsAll(content[1..]))
  }

  lemma {:induction false} NothingMeant(content: seq<Content>, inherited: Option<Node>)
    requires RepresentationsAll(content) == 0
    ensures MeaningAll(content, inherited) == []
    decreases ContentSize(content)
  {
    hide Merge, Inner, IsRepresentation;
    if content != [] {
      NothingMeant(content[1..], inherited);
      if Inner(content[0]) {
        InnerElement(content[0]);
        var n := content[0].node;
        NothingMeant(n.content, Merge(inherited, LocalOf(n.content)));
      }
    }
  }

  lemma {:induction false} NothingScoped(content: seq<Content>, base: string, inherited: Option<Node>, env: Env)
    requires RepresentationsAll(content) == 0
    ensures ScopesAll(content, base, inherited, env) == []
    decreases ContentSize(content)
  {
    hide Merge, Inner, IsRepresentation, ResolvedBase;
    if content != [] {
      NothingScoped(content[1..], base, inherited, env);
      if Inner(content[0]) {
        InnerElement(content[0]);
        var n := content[0].node;
        NothingScoped(n.content, ResolvedBase(n.content, base, env), Merge(inherited, LocalOf(n.content)), env);
      }
    }
  }

  lemma InnerElement(c: Content)
    requires Inner(c)
    ensures c.Element?
  {
  }

  // ---------- names survive ----------

  lemma RewriteAttrNamed(n: Node, local: string, rewrite: string -> Option<string>)
    ensures RewriteAttr(n, local, rewrite).Ok? ==>
      RewriteAttr(n, local, rewrite).value.name == n.name && RewriteAttr(n, local, rewrite).value.content == n.content
  {
  }

  lemma {:induction false} RewriteAttrsNamed(n: Node, names: seq<string>, rewrite: string -> Option<string>)
    ensures RewriteAttrs(n, names, rewrite).Ok? ==>
      RewriteAttrs(n, names, rewrite).value.name == n.name && RewriteAttrs(n, names, rewrite).value.content == n.content
    decreases |names|
  {
    hide RewriteAttr;
    if names != [] && RewriteAttr(n, names[0], rewrite).Ok? {
      RewriteAttrNamed(n, names[0], rewrite);
      RewriteAttrsNamed(RewriteAttr(n, names[0], rewrite).value, names[1..], rewrite);
    }
  }

  lemma RewriteAddressingNamed(n: Node, base: string, b: Bindings, env: Env)
    requires RewriteAddressing(n, base, b, env).Ok?
    ensures RewriteAddressing(n, base, b, env).value.name == n.name && Standard(n) && AddressingName(n.name.local)
  {
    hide RewriteAttrs, RewriteChildren;
    var names := if n.name.local == "SegmentTemplate" then ["media", "initialization", "index", "bitstreamSwitching"] else [];
    RewriteAttrsNamed(n, names, TemplateAt(env, base, b));
  }

  lemma RewriteOwnNamed(n: Node, base: string, env: Env)
    requires RewriteOwn(n, base, env).Ok?
    ensures RewriteOwn(n, base, env).value.0.name == n.name && RewriteOwn(n, base, env).value.0.content == n.content
    ensures IsRepresentation(n) ==> !RewriteOwn(n, base, env).value.1
  {
    hide RewriteAttr, AttrValue, Callback;
    RewriteAttrNamed(n, "value", Reference(env, base));
  }

  lemma RewriteEventNamed(n: Node, base: string, env: Env)
    requires RewriteEvent(n, base, env).Ok?
    ensures RewriteEvent(n, base, env).value.name == n.name && RewriteEvent(n, base, env).value.content == n.content
    ensures IsNamed(n, "Event")
  {
    hide RewriteAttr, AttrValue;
    RewriteAttrNamed(n, "messageData", Reference(env, base));
  }

  lemma KindsByName(n: Node, m: Node)
    requires n.name == m.name
    ensures IsRepresentation(n) == IsRepresentation(m)
    ensures Inner(Element(n)) == Inner(Element(m))
    ensures IsBase(Element(n)) == IsBase(Element(m)) && IsAddressing(Element(n)) == IsAddressing(Element(m))
  {
  }

  lemma {:induction false} ScanFinds(content: seq<Content>)
    requires Scan(content).Ok?
    ensures Scan(content).value == Level(BaseOf(content), LocalOf(content))
  {
    hide ValidNamespace, IsAddressing, IsBase;
    if content != [] {
      ScanFinds(content[1..]);
      BaseIsNotAddressing(content[0]);
    }
  }

  lemma BaseIsNotAddressing(c: Content)
    ensures !(IsBase(c) && IsAddressing(c))
  {
  }

  lemma {:induction false} LocalIsAddressing(content: seq<Content>)
    ensures LocalOf(content).Some? ==> IsAddressing(Element(LocalOf(content).value))
  {
    if content != [] {
      LocalIsAddressing(content[1..]);
    }
  }

  ghost predicate AddressingOk(a: Option<Node>) {
    a.Some? ==> IsAddressing(Element(a.value))
  }

  lemma MergeOk(inherited: Option<Node>, local: Option<Node>)
    requires AddressingOk(inherited) && AddressingOk(local)
    ensures AddressingOk(Merge(inherited, local))
  {
  }

  lemma {:induction false} AddressingAppended(content: seq<Content>, a: Node)
    requires IsAddressing(Element(a))
    ensures LocalOf(content + [Element(a)]) == if LocalOf(content).Some? then LocalOf(content) else Some(a)
    ensures RepresentationsAll(content + [Element(a)]) == RepresentationsAll(content)
    ensures OnlyAtRepresentationsAll(content + [Element(a)]) == OnlyAtRepresentationsAll(content)
    decreases |content|
  {
    hide Inner, OnlyAtRepresentations, Representations;
    var all := content + [Element(a)];
    if content == [] {
      AddressingIsNotInner(a);
      assert all[1..] == [];
    } else {
      hide IsAddressing;
      AddressingAppended(content[1..], a);
      assert all[1..] == content[1..] + [Element(a)];
    }
  }

  lemma AddressingIsNotInner(a: Node)
    requires IsAddressing(Element(a))
    ensures !Inner(Element(a))
  {
  }

  lemma {:induction false} TextsOnly(content: seq<Content>, base: string, inherited: Option<Node>, env: Env)
    requires TextsOf(content).Some?
    ensures ScopesAll(content, base, inherited, env) == [] && RepresentationsAll(content) == 0 && LocalOf(content) == None
    decreases |content|
  {
    if content != [] {
      TextsOnly(content[1..], base, inherited, env);
    }
  }

  // ---------- the traversal ----------

  /** What the traversal of one element establishes. */
  ghost predicate NodePushed(n: Node, base: string, inherited: Option<Node>, env: Env, out: Rewritten) {
    && out.node.name == n.name
    && out.representations == Representations(n) == Representations(out.node)
    && OnlyAtRepresentations(out.node)
    && Means(Meaning(out.node, None), Scopes(n, base, inherited, env), env)
  }

  ghost predicate ContentPushed(content: seq<Content>, c: Context, env: Env, out: RewrittenContent) {
    && out.representations == RepresentationsAll(content) == RepresentationsAll(out.content)
    && OnlyAtRepresentationsAll(out.content)
    && LocalOf(out.content) == (if LocalOf(content).Some? then c.placed else None)
    && Means(MeaningAll(out.content, None), ScopesAll(content, c.base, c.effective, env), env)
  }

  lemma {:induction false} ContentStep(content: seq<Content>, c: Context, env: Env, head: seq<Content>, count: nat, rest: RewrittenContent)
    requires content != [] && |head| <= 1 && ContentPushed(content[1..], c, env, rest) && AddressingOk(c.placed)
    requires !Inner(content[0]) && count == 0
    requires head == [] || !Inner(head[0])
    requires LocalOf(head) == (if IsAddressing(content[0]) then c.placed else None)
    requires IsAddressing(content[0]) && c.placed.None? ==> head == []
    ensures ContentPushed(content, c, env, RewrittenContent(head + rest.content, count + rest.representations))
  {
    hide Inner, IsAddressing, Means, Meaning, Scopes, OnlyAtRepresentations, Representations;
    var all := head + rest.content;
    assert content[1..] == content[1..];
    if head == [] {
      assert all == rest.content;
    } else {
      assert all[0] == head[0] && all[1..] == rest.content;
      assert head[1..] == [];
    }
    assert [] + MeaningAll(rest.content, None) == MeaningAll(rest.content, None);
    assert [] + ScopesAll(content[1..], c.base, c.effective, env) == ScopesAll(content[1..], c.base, c.effective, env);
  }

  lemma ContentChild(content: seq<Content>, c: Context, env: Env, out: Rewritten, rest: RewrittenContent)
    requires content != [] && Inner(content[0]) && ContentPushed(content[1..], c, env, rest)
    requires NodePushed(content[0].node, c.base, c.effective, env, out)
    ensures ContentPushed(content, c, env, RewrittenContent([Element(out.node)] + rest.content, out.representations + rest.representations))
  {
    hide Inner, IsAddressing, Means, Meaning, Scopes, OnlyAtRepresentations, Representations, IsBase;
    var all := [Element(out.node)] + rest.content;
    InnerIsNotAddressing(content[0]);
    KindsByName(content[0].node, out.node);
    assert content[0] == Element(content[0].node);
    assert all[1..] == rest.content;
    MeansConcat(Meaning(out.node, None), MeaningAll(rest.content, None),
      Scopes(content[0].node, c.base, c.effective, env), ScopesAll(content[1..], c.base, c.effective, env), env);
  }

  lemma InnerIsNotAddressing(c: Content)
    requires Inner(c)
    ensures c.Element? && !IsAddressing(c) && !IsBase(c)
  {
  }

  /** An event is rewritten before it is visited; that does not change what it contains. */
  lemma EventVisited(n: Node, m: Node, base: string, inherited: Option<Node>, env: Env, out: Rewritten)
    requires m.name == n.name && m.content == n.content && !IsRepresentation(n)
    requires NodePushed(m, base, inherited, env, out)
    ensures NodePushed(n, base, inherited, env, out)
  {
    hide Means, Meaning, OnlyAtRepresentations, IsRepresentation;
    KindsByName(n, m);
  }

  lemma EventIsNot(n: Node)
    requires IsNamed(n, "Event")
    ensures !IsRepresentation(n)
  {
  }

  lemma NestingOf(n: Node, m: Node)
    requires m.name == n.name && m.content == n.content && NoNesting(n)
    ensures NoNesting(m)
  {
  }

  lemma {:induction false} PushContent(content: seq<Content>, c: Context, env: Env)
    requires RewriteContent(content, c, env).Ok? && NoNestingAll(content)
    requires AddressingOk(c.effective) && AddressingOk(c.placed)
    ensures ContentPushed(content, c, env, RewriteContent(content, c, env).value)
    decreases ContentSize(content), 0
  {
    hide Inner, IsAddressing, IsBase, RewriteNode, RewriteEvent, NoNesting, NodePushed, ContentPushed, AddressingOk, ContentSize, Size;
    if content == [] {
      NothingPushed(c, env);
    } else {
      SizeSplit(content);
      var rest := RewriteContent(content[1..], c, env).value;
      PushContent(content[1..], c, env);
      if !Inner(content[0]) {
        PushOther(content, c, env, rest);
      } else {
        InnerIsNotAddressing(content[0]);
        var n := content[0].node;
        var m := if c.events then RewriteEvent(n, c.base, env).value else n;
        if c.events {
          RewriteEventNamed(n, c.base, env);
        }
        NestingOf(n, m);
        PushNode(m, c.base, c.effective, env);
        var out := RewriteNode(m, c.base, c.effective, env).value;
        if c.events {
          EventIsNot(n);
          EventVisited(n, m, c.base, c.effective, env, out);
        }
        ContentChild(content, c, env, out, rest);
      }
    }
  }

  lemma SizeSplit(content: seq<Content>)
    requires content != []
    ensures ContentSize(content[1..]) < ContentSize(content)
    ensures content[0].Element? ==> ContentSize(content[0].node.content) < ContentSize(content)
  {
  }

  lemma NothingPushed(c: Context, env: Env)
    ensures ContentPushed([], c, env, RewrittenContent([], 0))
  {
  }

  lemma PushOther(content: seq<Content>, c: Context, env: Env, rest: RewrittenContent)
    requires content != [] && !Inner(content[0]) && RewriteContent(content, c, env).Ok?
    requires AddressingOk(c.placed)
    requires RewriteContent(content[1..], c, env) == Ok(rest) && ContentPushed(content[1..], c, env, rest)
    ensures ContentPushed(content, c, env, RewriteContent(content, c, env).value)
  {
    hide Inner, IsAddressing, IsBase, RewriteNode, RewriteEvent, ContentPushed;
    OtherKinds(content[0]);
    var head := if content[0].Text? then [content[0]]
                else if IsBase(content[0]) then
                  [Element(if c.baseText.Some? then WithText(content[0].node, c.baseText.value) else content[0].node)]
                else PlacedAt(c);
    OtherHead(content[0], c, head);
    ContentStep(content, c, env, head, 0, rest);
    assert RewriteContent(content, c, env).value == RewrittenContent(head + rest.content, 0 + rest.representations);
  }

  lemma OtherKinds(c: Content)
    requires !Inner(c)
    ensures c.Text? || IsBase(c) || IsAddressing(c)
    ensures !(IsBase(c) && IsAddressing(c)) && (c.Text? ==> !IsAddressing(c) && !IsBase(c))
  {
  }

  lemma OtherHead(c0: Content, c: Context, head: seq<Content>)
    requires !Inner(c0) && AddressingOk(c.placed)
    requires head == if c0.Text? then [c0]
                     else if IsBase(c0) then
                       [Element(if c.baseText.Some? then WithText(c0.node, c.baseText.value) else c0.node)]
                     else PlacedAt(c)
    ensures |head| <= 1 && (head == [] || !Inner(head[0]))
    ensures LocalOf(head) == (if IsAddressing(c0) then c.placed else None)
    ensures IsAddressing(c0) && c.placed.None? ==> head == []
  {
    if head != [] {
      assert head[1..] == [];
    }
  }

  lemma {:induction false} PushNode(n: Node, base: string, inherited: Option<Node>, env: Env)
    requires RewriteNode(n, base, inherited, env).Ok? && NoNesting(n) && AddressingOk(inherited)
    ensures NodePushed(n, base, inherited, env, RewriteNode(n, base, inherited, env).value)
    decreases ContentSize(n.content), 1
  {
    hide ContentSize, ContentPushed, NodePushed, AddressingOk, Merge, IsRepresentation, Scan, RewriteContent, Finished, RewriteOwn,
      Placed, BaseBelow, RewriteLocation, Unsupported, ValidNamespace;
    var level := Scan(n.content).value;
    var below := BaseBelow(level, base, env).value;
    var effective := Merge(inherited, level.local);
    var placed := Placed(n, effective, below.base, env).value;
    var own := RewriteOwn(n, below.base, env).value;
    ScanFinds(n.content);
    if n.name.local == "Location" {
      PushLocation(n, base, inherited, env);
    } else {
      LocalFits(n.content, inherited);
      PlacedFits(n, effective, below.base, env);
      var down := if placed.Some? then placed else effective;
      var c := Context(below.base, below.text, down, placed, own.1);
      PushContent(n.content, c, env);
      FinishNode(n, base, inherited, env, RewriteContent(n.content, c, env).value);
    }
  }

  lemma LocalFits(content: seq<Content>, inherited: Option<Node>)
    requires AddressingOk(inherited)
    ensures AddressingOk(LocalOf(content)) && AddressingOk(Merge(inherited, LocalOf(content)))
  {
    hide IsAddressing, Merge;
    LocalIsAddressing(content);
    MergeOk(inherited, LocalOf(content));
  }

  lemma PlacedFits(n: Node, effective: Option<Node>, base: string, env: Env)
    requires Placed(n, effective, base, env).Ok?
    ensures AddressingOk(Placed(n, effective, base, env).value)
    ensures IsRepresentation(n) ==>
      RewriteScope(Scope(effective, base, BindingsOf(n)), env) == Ok(Placed(n, effective, base, env).value)
    ensures !IsRepresentation(n) ==> Placed(n, effective, base, env).value == None
  {
    hide RewriteAddressing, BindingsOf;
    if IsRepresentation(n) && effective.Some? {
      RewriteAddressingNamed(effective.value, base, BindingsOf(n).value, env);
    }
  }

  lemma PushLocation(n: Node, base: string, inherited: Option<Node>, env: Env)
    requires RewriteNode(n, base, inherited, env).Ok? && n.name.local == "Location"
    ensures NodePushed(n, base, inherited, env, RewriteNode(n, base, inherited, env).value)
  {
    hide Merge, Scan, RewriteContent, Finished, RewriteOwn, Placed, BaseBelow, Unsupported, ValidNamespace, Trim;
    var m := RewriteLocation(n, env).value;
    assert RewriteNode(n, base, inherited, env).value == Rewritten(m, 0);
    assert |n.name.local| == 8;
    assert !IsRepresentation(n) && !IsRepresentation(m);
    assert m.content[0].Text?;
    TextsOnly(n.content, ResolvedBase(n.content, base, env), Merge(inherited, LocalOf(n.content)), env);
    TextsOnly(m.content, base, None, env);
    assert m.content[1..] == [];
    NothingMeant(m.content, Merge(None, LocalOf(m.content)));
    assert OnlyAtRepresentationsAll(m.content[1..]);
    assert OnlyAtRepresentations(m);
    assert Meaning(m, None) == [];
    assert Scopes(n, base, inherited, env) == [];
    assert Representations(n) == 0 == Representations(m);
  }

  /** The level is put together: its own meaning and that of its children. */
  lemma FinishNode(n: Node, base: string, inherited: Option<Node>, env: Env, r: RewrittenContent)
    requires RewriteNode(n, base, inherited, env).Ok? && n.name.local != "Location" && NoNesting(n) && Scan(n.content).Ok?
    requires var level := Scan(n.content).value;
      && level == Level(BaseOf(n.content), LocalOf(n.content))
      && BaseBelow(level, base, env).Ok?
      && var below := BaseBelow(level, base, env).value;
      && var effective := Merge(inherited, level.local);
      && Placed(n, effective, below.base, env).Ok?
      && var placed := Placed(n, effective, below.base, env).value;
      && RewriteOwn(n, below.base, env).Ok?
      && var own := RewriteOwn(n, below.base, env).value;
      && var c := Context(below.base, below.text, if placed.Some? then placed else effective, placed, own.1);
      && RewriteContent(n.content, c, env) == Ok(r)
      && ContentPushed(n.content, c, env, r)
    ensures NodePushed(n, base, inherited, env, RewriteNode(n, base, inherited, env).value)
  {
    hide ContentSize, ContentPushed, NodePushed, Merge, IsRepresentation, Scan, RewriteContent, RewriteOwn,
      Placed, BaseBelow, RewriteLocation, Unsupported, ValidNamespace, Finished, NoNesting;
    var level := Scan(n.content).value;
    var below := BaseBelow(level, base, env).value;
    var effective := Merge(inherited, level.local);
    var placed := Placed(n, effective, below.base, env).value;
    var own := RewriteOwn(n, below.base, env).value;
    RewriteOwnNamed(n, below.base, env);
    PlacedFits(n, effective, below.base, env);
    BaseResolved(n.content, base, env, level);
    var c := Context(below.base, below.text, if placed.Some? then placed else effective, placed, own.1);
    if IsRepresentation(n) {
      FinishRepresentation(n, base, inherited, env, r, c, own.0);
    } else {
      FinishOther(n, base, inherited, env, r, c, own.0);
    }
  }

  lemma BaseResolved(content: seq<Content>, base: string, env: Env, level: Level)
    requires level.base == BaseOf(content) && BaseBelow(level, base, env).Ok?
    ensures BaseBelow(level, base, env).value.base == ResolvedBase(content, base, env)
  {
  }

  lemma FinishOther(n: Node, base: string, inherited: Option<Node>, env: Env, r: RewrittenContent, c: Context, own: Node)
    requires !IsRepresentation(n) && own.name == n.name && c.placed.None?
    requires c.base == ResolvedBase(n.content, base, env) && c.effective == Merge(inherited, LocalOf(n.content))
    requires ContentPushed(n.content, c, env, r) && Finished(n, LocalOf(n.content), None, own, r).Ok?
    ensures NodePushed(n, base, inherited, env, Finished(n, LocalOf(n.content), None, own, r).value)
  {
    hide ContentSize, Merge, IsRepresentation, Means, MeaningAll, ScopesAll, RepresentationsAll, OnlyAtRepresentationsAll, ResolvedBase;
    var out := Finished(n, LocalOf(n.content), None, own, r).value;
    KindsByName(n, out.node);
    assert r.content + [] == r.content;
    MergeNothing();
    assert [] + MeaningAll(r.content, None) == MeaningAll(r.content, None);
    assert [] + ScopesAll(n.content, c.base, c.effective, env) == ScopesAll(n.content, c.base, c.effective, env);
  }

  lemma MergeNothing()
    ensures Merge(None, None) == None
  {
  }

  lemma MergePlaced(a: Option<Node>)
    ensures Merge(None, a) == a
  {
  }

  lemma FinishRepresentation(n: Node, base: string, inherited: Option<Node>, env: Env, r: RewrittenContent, c: Context, own: Node)
    requires IsRepresentation(n) && own.name == n.name && NoNesting(n) && AddressingOk(c.placed)
    requires c.base == ResolvedBase(n.content, base, env)
    requires var effective := Merge(inherited, LocalOf(n.content));
      && RewriteScope(Scope(effective, c.base, BindingsOf(n)), env) == Ok(c.placed)
      && c.effective == (if c.placed.Some? then c.placed else effective)
    requires ContentPushed(n.content, c, env, r) && Finished(n, LocalOf(n.content), c.placed, own, r).Ok?
    ensures NodePushed(n, base, inherited, env, Finished(n, LocalOf(n.content), c.placed, own, r).value)
  {
    hide ContentSize, Merge, IsRepresentation, MeaningAll, ScopesAll, RepresentationsAll, OnlyAtRepresentationsAll, ResolvedBase,
      BindingsOf, RewriteScope;
    var out := Finished(n, LocalOf(n.content), c.placed, own, r).value;
    var effective := Merge(inherited, LocalOf(n.content));
    KindsByName(n, out.node);
    PlacedContent(n, r, c);
    MergePlaced(c.placed);
    NothingMeant(out.node.content, c.placed);
    NothingScoped(n.content, c.base, effective, env);
    assert [c.placed] + [] == [c.placed];
    var scope := Scope(effective, c.base, BindingsOf(n));
    assert [scope] + [] == [scope];
    assert Means([c.placed], [scope], env);
  }

  /** The Representation ends up with exactly the addressing placed in it. */
  lemma PlacedContent(n: Node, r: RewrittenContent, c: Context)
    requires AddressingOk(c.placed) && OnlyAtRepresentationsAll(r.content) && RepresentationsAll(r.content) == 0
    requires LocalOf(r.content) == (if LocalOf(n.content).Some? then c.placed else None)
    ensures var content := r.content + (if c.placed.Some? && LocalOf(n.content).None? then [Element(c.placed.value)] else []);
      && LocalOf(content) == c.placed
      && OnlyAtRepresentationsAll(content) && RepresentationsAll(content) == 0
  {
    hide OnlyAtRepresentationsAll, RepresentationsAll, IsAddressing;
    assert r.content + [] == r.content;
    if c.placed.Some? && LocalOf(n.content).None? {
      AddressingAppended(r.content, c.placed.value);
    }
  }

  /**
   Whatever an accepted manifest without nested Representations inherits, every
   Representation of the result has exactly that addressing with its URLs rewritten
   against its own base, in the same order, and nothing above carries addressing
   any more.
   */
  lemma PushedDown(root: Node, base: string, env: Env)
    requires RewriteNode(root, base, None, env).Ok? && NoNesting(root)
    ensures var out := RewriteNode(root, base, None, env).value;
      && OnlyAtRepresentations(out.node)
      && out.representations == Representations(root) == Representations(out.node)
      && Means(Meaning(out.node, None), Scopes(root, base, None, env), env)
  {
    hide RewriteNode, OnlyAtRepresentations, Representations, Means, Meaning, Scopes, NoNesting;
    PushNode(root, base, None, env);
  }
}
