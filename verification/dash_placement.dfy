/**
 What every Representation of an accepted manifest is given, attribute by attribute:
 its effective addressing with each URL made from the old one, its own base and, in
 templates, its own id and bandwidth.
 */
module DashPlacement {
  import opened Wrappers
  import opened DashTree
  import opened DashValues
  import opened DashAddressing
  import opened DashPushdown
  import opened DashMeaning

  // ---------- what is said of one attribute, one child, one element ----------

  datatype Use = Template | Url | Kept

  /** Which attributes of which elements of segment addressing are templates, and which are URLs. */
  function UseOf(element: string, attr: Name): Use {
    if attr.space != "" then Kept
    else if element == "SegmentTemplate" && attr.local in {"media", "initialization", "index", "bitstreamSwitching"} then Template
    else if element == "SegmentURL" && attr.local in {"media", "index"} then Url
    else if element in {"Initialization", "RepresentationIndex", "BitstreamSwitching"} && attr.local == "sourceURL" then Url
    else Kept
  }

  /** The attribute after rewriting, for a Representation with this base, id and bandwidth. */
  ghost predicate AttrAs(element: string, before: Attr, after: Attr, base: string, id: string, bandwidth: string, env: Env) {
    && after.name == before.name
    && match UseOf(element, before.name)
       case Template => env.template(before.value, base, Bindings(id, bandwidth)) == Some(after.value)
       case Url => env.reference(before.value, base).Some? && env.reference(before.value, base).value.0 == after.value
       case Kept => after.value == before.value
  }

  ghost predicate AttrsAs(element: string, before: seq<Attr>, after: seq<Attr>, base: string, id: string, bandwidth: string,
                          env: Env)
  {
    |after| == |before| && forall i :: 0 <= i < |before| ==> AttrAs(element, before[i], after[i], base, id, bandwidth, env)
  }

  /** A child after rewriting: its attributes are, and nothing else of it is. */
  ghost predicate ChildAs(before: Content, after: Content, base: string, id: string, bandwidth: string, env: Env) {
    if before.Text? then after == before
    else
      && after.Element? && after.node.name == before.node.name && after.node.content == before.node.content
      && before.node.name.local != "SegmentTemplate"
      && AttrsAs(before.node.name.local, before.node.attrs, after.node.attrs, base, id, bandwidth, env)
  }

  ghost predicate ChildrenAs(before: seq<Content>, after: seq<Content>, base: string, id: string, bandwidth: string, env: Env) {
    |after| == |before| && forall i :: 0 <= i < |before| ==> ChildAs(before[i], after[i], base, id, bandwidth, env)
  }

  ghost predicate AddressedAs(before: Node, after: Node, base: string, id: string, bandwidth: string, env: Env) {
    && after.name == before.name
    && AttrsAs(before.name.local, before.attrs, after.attrs, base, id, bandwidth, env)
    && ChildrenAs(before.content, after.content, base, id, bandwidth, env)
  }

  /** The value of an attribute, or nothing. */
  function Valued(n: Node, local: string): string {
    match Lookup(n.attrs, Name("", local))
    case None => ""
    case Some(v) => v
  }

  /** One Representation of the manifest, with the addressing and the base that it inherits. */
  datatype Place = Place(addressing: Option<Node>, base: string, node: Node)

  function Places(n: Node, base: string, inherited: Option<Node>, env: Env): seq<Place>
    decreases ContentSize(n.content), 1
  {
    var effective := Merge(inherited, LocalOf(n.content));
    var current := ResolvedBase(n.content, base, env);
    (if IsRepresentation(n) then [Place(effective, current, n)] else []) + PlacesAll(n.content, current, effective, env)
  }

  function PlacesAll(content: seq<Content>, base: string, inherited: Option<Node>, env: Env): seq<Place>
    decreases ContentSize(content), 0
  {
    if content == [] then []
    else (if Inner(content[0]) then Places(content[0].node, base, inherited, env) else [])
         + PlacesAll(content[1..], base, inherited, env)
  }

  /** A Representation ends up with its effective addressing, rewritten for it, or with none if there is none. */
  ghost predicate PlacedAs(p: Place, out: Option<Node>, env: Env) {
    match p.addressing
    case None => out == None
    case Some(n) => out.Some? && AddressedAs(n, out.value, p.base, Valued(p.node, "id"), Valued(p.node, "bandwidth"), env)
  }

  // ---------- attributes ----------

  lemma RewriteAttrAs(n: Node, local: string, f: string -> Option<string>)
    requires RewriteAttr(n, local, f).Ok?
    ensures var out := RewriteAttr(n, local, f).value;
      && |out.attrs| == |n.attrs|
      && (forall i :: 0 <= i < |n.attrs| ==>
            && out.attrs[i].name == n.attrs[i].name
            && (n.attrs[i].name == Name("", local) ==> f(n.attrs[i].value) == Some(out.attrs[i].value))
            && (n.attrs[i].name != Name("", local) ==> out.attrs[i] == n.attrs[i]))
  {
    hide AttrFrom;
    AttrFromFound(n.attrs, local, 0, None);
    var index := AttrIndex(n.attrs, local).value;
    forall i | 0 <= i < |n.attrs| && n.attrs[i].name == Name("", local) ensures index == Some(i) {
      assert n.attrs[i].name.local == local;
    }
  }

  lemma {:induction false} RewriteAttrsAs(n: Node, names: seq<string>, f: string -> Option<string>)
    requires RewriteAttrs(n, names, f).Ok? && forall i, j :: 0 <= i < j < |names| ==> names[i] != names[j]
    ensures var out := RewriteAttrs(n, names, f).value;
      && out.name == n.name && out.content == n.content && |out.attrs| == |n.attrs|
      && (forall i :: 0 <= i < |n.attrs| ==>
            && out.attrs[i].name == n.attrs[i].name
            && (n.attrs[i].name.space == "" && n.attrs[i].name.local in names ==>
                  f(n.attrs[i].value) == Some(out.attrs[i].value))
            && (!(n.attrs[i].name.space == "" && n.attrs[i].name.local in names) ==> out.attrs[i] == n.attrs[i]))
    decreases |names|
  {
    hide RewriteAttr;
    if names != [] {
      var m := RewriteAttr(n, names[0], f).value;
      RewriteAttrAs(n, names[0], f);
      RewriteAttrNamed(n, names[0], f);
      RewriteAttrsAs(m, names[1..], f);
      var out := RewriteAttrs(m, names[1..], f).value;
      assert names[0] !in names[1..];
      forall i | 0 <= i < |n.attrs|
        ensures out.attrs[i].name == n.attrs[i].name
        ensures n.attrs[i].name.space == "" && n.attrs[i].name.local in names ==> f(n.attrs[i].value) == Some(out.attrs[i].value)
        ensures !(n.attrs[i].name.space == "" && n.attrs[i].name.local in names) ==> out.attrs[i] == n.attrs[i]
      {
        assert m.attrs[i].name == n.attrs[i].name;
        assert n.attrs[i].name.local in names <==> n.attrs[i].name.local == names[0] || n.attrs[i].name.local in names[1..];
      }
    }
  }

  lemma TemplateAttrs(n: Node, base: string, b: Bindings, env: Env)
    requires n.name.local == "SegmentTemplate"
    requires RewriteAttrs(n, ["media", "initialization", "index", "bitstreamSwitching"], TemplateAt(env, base, b)).Ok?
    ensures var out := RewriteAttrs(n, ["media", "initialization", "index", "bitstreamSwitching"], TemplateAt(env, base, b)).value;
      AttrsAs(n.name.local, n.attrs, out.attrs, base, b.representationId, b.bandwidth, env)
  {
    hide RewriteAttrs;
    FourNames();
    RewriteAttrsAs(n, ["media", "initialization", "index", "bitstreamSwitching"], TemplateAt(env, base, b));
  }

  lemma FourNames()
    ensures var names := ["media", "initialization", "index", "bitstreamSwitching"];
      && (forall i, j :: 0 <= i < j < |names| ==> names[i] != names[j])
      && (forall s: string :: s in names <==> s in {"media", "initialization", "index", "bitstreamSwitching"})
  {
    assert |"media"| == 5 && |"initialization"| == 14 && |"index"| == 5 && |"bitstreamSwitching"| == 18;
    assert "media"[0] != "index"[0];
  }

  lemma UrlAttrs(n: Node, names: seq<string>, base: string, id: string, bandwidth: string, env: Env)
    requires RewriteAttrs(n, names, Reference(env, base)).Ok?
    requires (n.name.local == "SegmentURL" && names == ["media", "index"])
             || (n.name.local in {"Initialization", "RepresentationIndex", "BitstreamSwitching"} && names == ["sourceURL"])
    ensures AttrsAs(n.name.local, n.attrs, RewriteAttrs(n, names, Reference(env, base)).value.attrs, base, id, bandwidth, env)
  {
    hide RewriteAttrs;
    assert "media"[0] != "index"[0];
    RewriteAttrsAs(n, names, Reference(env, base));
    ElementNames2();
    forall s: string ensures s in names <==> (if n.name.local == "SegmentURL" then s in {"media", "index"} else s == "sourceURL") {
    }
  }

  lemma ElementNames2()
    ensures "SegmentURL" != "SegmentTemplate" && "SegmentURL" !in {"Initialization", "RepresentationIndex", "BitstreamSwitching"}
    ensures "SegmentTemplate" !in {"Initialization", "RepresentationIndex", "BitstreamSwitching"}
  {
    assert |"SegmentURL"| == 10 && |"SegmentTemplate"| == 15 && |"Initialization"| == 14 && |"RepresentationIndex"| == 19;
    assert |"BitstreamSwitching"| == 18;
  }

  lemma SameAttrs(element: string, attrs: seq<Attr>, base: string, id: string, bandwidth: string, env: Env)
    requires forall a :: a in attrs ==> UseOf(element, a.name) == Kept
    ensures AttrsAs(element, attrs, attrs, base, id, bandwidth, env)
  {
    hide UseOf;
  }

  // ---------- one addressing element ----------

  lemma RewriteChildAs(kind: string, n: Node, base: string, b: Bindings, env: Env)
    requires RewriteChild(kind, n, base, env).Ok?
    ensures ChildAs(Element(n), Element(RewriteChild(kind, n, base, env).value), base, b.representationId, b.bandwidth, env)
  {
    hide RewriteAttrs, Timeline, Leaf, AttrsAs;
    ElementNames2();
    assert |"SegmentTimeline"| == 15 && "SegmentTimeline"[8] != "SegmentTemplate"[8];
    if n.name.local == "SegmentURL" {
      UrlAttrs(n, ["media", "index"], base, b.representationId, b.bandwidth, env);
      RewriteAttrsNamed(n, ["media", "index"], Reference(env, base));
    } else if n.name.local == "SegmentTimeline" {
      SameAttrs(n.name.local, n.attrs, base, b.representationId, b.bandwidth, env);
    } else {
      UrlAttrs(n, ["sourceURL"], base, b.representationId, b.bandwidth, env);
      RewriteAttrsNamed(n, ["sourceURL"], Reference(env, base));
    }
  }

  lemma {:induction false} RewriteChildrenAs(kind: string, content: seq<Content>, base: string, b: Bindings, env: Env)
    requires RewriteChildren(kind, content, base, env).Ok?
    ensures ChildrenAs(content, RewriteChildren(kind, content, base, env).value, base, b.representationId, b.bandwidth, env)
  {
    hide RewriteChild, ChildAs, Blank;
    if content != [] {
      RewriteChildrenAs(kind, content[1..], base, b, env);
      var rest := RewriteChildren(kind, content[1..], base, env).value;
      var head := RewriteChildren(kind, content, base, env).value[0];
      assert ChildAs(content[0], head, base, b.representationId, b.bandwidth, env) by {
        if content[0].Text? {
          TextStays(content[0], base, b, env);
        } else {
          RewriteChildAs(kind, content[0].node, base, b, env);
          assert content[0] == Element(content[0].node);
        }
      }
      forall i | 0 <= i < |content|
        ensures ChildAs(content[i], ([head] + rest)[i], base, b.representationId, b.bandwidth, env)
      {
        if i > 0 {
          assert content[i] == content[1..][i - 1];
        }
      }
    }
  }

  lemma TextStays(c: Content, base: string, b: Bindings, env: Env)
    requires c.Text?
    ensures ChildAs(c, c, base, b.representationId, b.bandwidth, env)
  {
  }

  /** The addressing of a Representation after rewriting, attribute by attribute and child by child. */
  lemma RewriteAddressingAs(n: Node, base: string, b: Bindings, env: Env)
    requires RewriteAddressing(n, base, b, env).Ok?
    ensures AddressedAs(n, RewriteAddressing(n, base, b, env).value, base, b.representationId, b.bandwidth, env)
  {
    hide RewriteAttrs, RewriteChildren, AttrsAs, ChildrenAs;
    if n.name.local == "SegmentTemplate" {
      var names := ["media", "initialization", "index", "bitstreamSwitching"];
      TemplateAttrs(n, base, b, env);
      RewriteAttrsNamed(n, names, TemplateAt(env, base, b));
    } else {
      NoAttrs(n, TemplateAt(env, base, b));
      AddressingKinds(n.name.local);
      SameAttrs(n.name.local, n.attrs, base, b.representationId, b.bandwidth, env);
    }
    RewriteChildrenAs(n.name.local, n.content, base, b, env);
  }

  lemma NoAttrs(n: Node, f: string -> Option<string>)
    ensures RewriteAttrs(n, [], f) == Ok(n)
  {
  }

  lemma AddressingKinds(local: string)
    requires AddressingName(local) && local != "SegmentTemplate"
    ensures forall a: Name :: UseOf(local, a) == Kept
  {
    assert |"SegmentList"| == 11 && |"SegmentBase"| == 11 && |"SegmentURL"| == 10 && |"Initialization"| == 14;
    assert |"RepresentationIndex"| == 19 && |"BitstreamSwitching"| == 18;
  }

  // ---------- the bindings ----------

  lemma {:induction false} LookupAt(attrs: seq<Attr>, name: Name, i: nat)
    requires i < |attrs| && attrs[i].name == name && forall j :: 0 <= j < |attrs| && attrs[j].name == name ==> j == i
    ensures Lookup(attrs, name) == Some(attrs[i].value)
    decreases |attrs|
  {
    if i > 0 {
      assert attrs[0].name != name;
      forall j | 0 <= j < |attrs[1..]| && attrs[1..][j].name == name ensures j == i - 1 {
        assert attrs[j + 1].name == name;
      }
      LookupAt(attrs[1..], name, i - 1);
    }
  }

  lemma {:induction false} LookupNone(attrs: seq<Attr>, name: Name)
    requires forall j :: 0 <= j < |attrs| ==> attrs[j].name != name
    ensures Lookup(attrs, name) == None
  {
    if attrs != [] {
      LookupNone(attrs[1..], name);
    }
  }

  lemma AttrValued(n: Node, local: string)
    requires AttrValue(n, local).Ok?
    ensures AttrValue(n, local).value == Lookup(n.attrs, Name("", local))
  {
    hide AttrFrom;
    AttrFromFound(n.attrs, local, 0, None);
    var index := AttrIndex(n.attrs, local).value;
    forall j | 0 <= j < |n.attrs| && n.attrs[j].name == Name("", local) ensures index == Some(j) {
      assert n.attrs[j].name.local == local;
    }
    if index.Some? {
      LookupAt(n.attrs, Name("", local), index.value);
    } else {
      LookupNone(n.attrs, Name("", local));
    }
  }

  lemma BindingsValued(n: Node)
    requires BindingsOf(n).Ok?
    ensures BindingsOf(n).value == Bindings(Valued(n, "id"), Valued(n, "bandwidth"))
  {
    hide AttrValue, Lookup;
    AttrValued(n, "id");
    AttrValued(n, "bandwidth");
  }

  // ---------- all Representations ----------

  function ScopeOf(p: Place): Scope {
    Scope(p.addressing, p.base, BindingsOf(p.node))
  }

  ghost predicate ScopesOf(scopes: seq<Scope>, places: seq<Place>) {
    |scopes| == |places| && forall i :: 0 <= i < |places| ==> scopes[i] == ScopeOf(places[i])
  }

  lemma ScopesConcat(a: seq<Scope>, b: seq<Scope>, p: seq<Place>, q: seq<Place>)
    requires ScopesOf(a, p) && ScopesOf(b, q)
    ensures ScopesOf(a + b, p + q)
  {
    hide ScopeOf;
    forall i | 0 <= i < |p + q| ensures (a + b)[i] == ScopeOf((p + q)[i]) {
      if i >= |p| {
        assert (p + q)[i] == q[i - |p|] && (a + b)[i] == b[i - |p|];
      }
    }
  }

  lemma {:induction false} ScopesPlaced(n: Node, base: string, inherited: Option<Node>, env: Env)
    ensures ScopesOf(Scopes(n, base, inherited, env), Places(n, base, inherited, env))
    decreases ContentSize(n.content), 1
  {
    hide Merge, ResolvedBase, IsRepresentation, BindingsOf, ScopesOf;
    var effective, current := Merge(inherited, LocalOf(n.content)), ResolvedBase(n.content, base, env);
    ScopesAllPlaced(n.content, current, effective, env);
    var scopes := if IsRepresentation(n) then [Scope(effective, current, BindingsOf(n))] else [];
    var places := if IsRepresentation(n) then [Place(effective, current, n)] else [];
    assert ScopesOf(scopes, places) by { FirstScope(n, effective, current, scopes, places); }
    ScopesConcat(scopes, ScopesAll(n.content, current, effective, env), places, PlacesAll(n.content, current, effective, env));
  }

  lemma FirstScope(n: Node, effective: Option<Node>, current: string, scopes: seq<Scope>, places: seq<Place>)
    requires scopes == if IsRepresentation(n) then [Scope(effective, current, BindingsOf(n))] else []
    requires places == if IsRepresentation(n) then [Place(effective, current, n)] else []
    ensures ScopesOf(scopes, places)
  {
  }

  lemma {:induction false} ScopesAllPlaced(content: seq<Content>, base: string, inherited: Option<Node>, env: Env)
    ensures ScopesOf(ScopesAll(content, base, inherited, env), PlacesAll(content, base, inherited, env))
    decreases ContentSize(content), 0
  {
    hide ScopesOf, Inner, Scopes, Places;
    NothingPlaced();
    if content != [] {
      SizeSplit(content);
      ScopesAllPlaced(content[1..], base, inherited, env);
      if Inner(content[0]) {
        InnerElement(content[0]);
        ScopesPlaced(content[0].node, base, inherited, env);
        ScopesConcat(Scopes(content[0].node, base, inherited, env), ScopesAll(content[1..], base, inherited, env),
                     Places(content[0].node, base, inherited, env), PlacesAll(content[1..], base, inherited, env));
      } else {
        ScopesConcat([], ScopesAll(content[1..], base, inherited, env), [], PlacesAll(content[1..], base, inherited, env));
      }
    }
  }

  lemma NothingPlaced()
    ensures ScopesOf([], [])
  {
  }

  lemma ScopePlaced(p: Place, out: Option<Node>, env: Env)
    requires RewriteScope(ScopeOf(p), env) == Ok(out)
    ensures PlacedAs(p, out, env)
  {
    hide RewriteAddressing, BindingsOf, AddressedAs, Lookup;
    if p.addressing.Some? {
      BindingsValued(p.node);
      RewriteAddressingAs(p.addressing.value, p.base, BindingsOf(p.node).value, env);
    }
  }

  /**
   Every Representation of an accepted manifest without nested ones has, in document
   order, its effective addressing and nothing else: the templates are made from the old
   ones, the Representation's base, and its id and bandwidth, the URLs from the old ones
   and its base, and every other attribute and child is as it was.
   */
  lemma PlacedExactly(root: Node, base: string, env: Env)
    requires RewriteNode(root, base, None, env).Ok? && NoNesting(root)
    ensures var out, places := Meaning(RewriteNode(root, base, None, env).value.node, None), Places(root, base, None, env);
      |out| == |places| && forall i :: 0 <= i < |places| ==> PlacedAs(places[i], out[i], env)
  {
    hide RewriteNode, OnlyAtRepresentations, Representations, Meaning, Scopes, Places, NoNesting, RewriteScope, PlacedAs, ScopeOf;
    PushedDown(root, base, env);
    ScopesPlaced(root, base, None, env);
    var out, places := Meaning(RewriteNode(root, base, None, env).value.node, None), Places(root, base, None, env);
    var scopes := Scopes(root, base, None, env);
    forall i | 0 <= i < |places| ensures PlacedAs(places[i], out[i], env) {
      assert scopes[i] == ScopeOf(places[i]);
      ScopePlaced(places[i], out[i], env);
    }
  }
}
