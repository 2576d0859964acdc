/** What rewriting does to a manifest outside its segment addressing: to every other element, attribute and text. */
module DashSkeleton {
  import opened Wrappers
  import opened DashTree
  import opened DashValues
  import opened DashAddressing
  import opened DashPushdown
  import opened DashMeaning
  import opened DashPlacement

  function Skeleton(content: seq<Content>): seq<Content> {
    if content == [] then []
    else if IsAddressing(content[0]) then Skeleton(content[1..])
    else [content[0]] + Skeleton(content[1..])
  }

  function Addressings(content: seq<Content>): seq<Content> {
    if content == [] then []
    else if IsAddressing(content[0]) then [content[0]] + Addressings(content[1..])
    else Addressings(content[1..])
  }

  // ---------- what is said of one element ----------

  predicate Refused(local: string) {
    local in {"PatchLocation", "ContentSteering", "ImportedMPD", "Metrics", "Reporting", "ContentProtection"}
  }

  predicate Direct(scheme: string) {
    scheme in {"urn:mpeg:dash:utc:direct:2012", "urn:mpeg:dash:utc:direct:2014"}
  }

  /** Schemes of a clock whose value is the URL of a time. */
  predicate Fetched(scheme: string) {
    scheme in {"urn:mpeg:dash:utc:http-head:2012", "urn:mpeg:dash:utc:http-head:2014", "urn:mpeg:dash:utc:http-xsdate:2012",
               "urn:mpeg:dash:utc:http-xsdate:2014", "urn:mpeg:dash:utc:http-iso:2012", "urn:mpeg:dash:utc:http-iso:2014",
               "urn:mpeg:dash:utc:http-ntp:2014"}
  }

  predicate HasCallbacks(n: Node) {
    n.name.local == "EventStream" && Valued(n, "schemeIdUri") == "urn:mpeg:dash:event:callback:2015"
  }

  ghost predicate Linked(before: string, after: string, base: string, env: Env) {
    env.reference(before, base).Some? && env.reference(before, base).value.0 == after
  }

  /** The URL of a callback event, with the base around it, and that of a clock, with its own, are rewritten; nothing else is. */
  ghost predicate OwnAttr(n: Node, a: Attr, b: Attr, base: string, current: string, event: bool, env: Env) {
    && b.name == a.name
    && if event && a.name == Name("", "messageData") then Linked(a.value, b.value, base, env)
       else if n.name.local == "UTCTiming" && Fetched(Valued(n, "schemeIdUri")) && a.name == Name("", "value") then
         Linked(a.value, b.value, current, env)
       else b.value == a.value
  }

  ghost predicate OwnAttrs(n: Node, out: Node, base: string, current: string, event: bool, env: Env) {
    && |out.attrs| == |n.attrs|
    && (forall i :: 0 <= i < |n.attrs| ==> OwnAttr(n, n.attrs[i], out.attrs[i], base, current, event, env))
    && (n.name.local == "UTCTiming" ==>
          (Direct(Valued(n, "schemeIdUri")) && env.timestamp(Valued(n, "value"))) || Fetched(Valued(n, "schemeIdUri")))
  }

  ghost predicate BaseKept(n: Node, out: Content, base: string, env: Env) {
    && out.Element? && out.node.name == n.name && out.node.attrs == n.attrs
    && |out.node.content| == 1 && out.node.content[0].Text? && TextsOf(n.content).Some?
    && Linked(Trim(TextsOf(n.content).value), out.node.content[0].text, base, env)
  }

  /** One element: base is that of the URLs around it, event says that it is an event of a callback stream. */
  ghost predicate NodeKept(n: Node, out: Node, base: string, event: bool, env: Env)
    decreases ContentSize(n.content), 1
  {
    var current := ResolvedBase(n.content, base, env);
    && n.name.space == "urn:mpeg:dash:schema:mpd:2011" && !Refused(n.name.local) && out.name == n.name
    && OwnAttrs(n, out, base, current, event, env)
    && if n.name.local == "Location" then
         && TextsOf(n.content).Some? && |out.content| == 1 && out.content[0].Text?
         && env.location(Trim(TextsOf(n.content).value)) == Some(out.content[0].text)
       else
         && |Addressings(out.content)| <= 1
         && ContentKept(n.content, Skeleton(out.content), base, current, HasCallbacks(n), env)
  }

  /** The children without addressing, one by one. */
  ghost predicate ContentKept(content: seq<Content>, outs: seq<Content>, base: string, current: string, events: bool, env: Env)
    decreases ContentSize(content), 0
  {
    if content == [] then outs == []
    else if IsAddressing(content[0]) then ContentKept(content[1..], outs, base, current, events, env)
    else
      && outs != [] && ContentKept(content[1..], outs[1..], base, current, events, env)
      && if content[0].Text? then outs[0] == content[0] && (events ==> Trim(content[0].text) == "")
         else if IsBase(content[0]) then BaseKept(content[0].node, outs[0], base, env)
         else
           && outs[0].Element? && NodeKept(content[0].node, outs[0].node, current, events, env)
           && (events ==> content[0].node.name.local == "Event")
  }

  // ---------- lists without addressing ----------

  lemma SkeletonConcat(a: seq<Content>, b: seq<Content>)
    ensures Skeleton(a + b) == Skeleton(a) + Skeleton(b) && Addressings(a + b) == Addressings(a) + Addressings(b)
  {
    hide Skeleton, Addressings;
    SkeletonSum(a, b);
    AddressingsSum(a, b);
  }

  lemma {:induction false} SkeletonSum(a: seq<Content>, b: seq<Content>)
    ensures Skeleton(a + b) == Skeleton(a) + Skeleton(b)
  {
    hide IsAddressing;
    if a == [] {
      assert a + b == b;
    } else {
      SkeletonSum(a[1..], b);
      assert (a + b)[1..] == a[1..] + b && (a + b)[0] == a[0];
    }
  }

  lemma {:induction false} AddressingsSum(a: seq<Content>, b: seq<Content>)
    ensures Addressings(a + b) == Addressings(a) + Addressings(b)
  {
    hide IsAddressing;
    if a == [] {
      assert a + b == b;
    } else {
      AddressingsSum(a[1..], b);
      assert (a + b)[1..] == a[1..] + b && (a + b)[0] == a[0];
    }
  }

  lemma SkeletonOne(c: Content)
    ensures Skeleton([c]) == if IsAddressing(c) then [] else [c]
    ensures Addressings([c]) == if IsAddressing(c) then [c] else []
  {
    assert [c][1..] == [];
  }

  lemma SkeletonPlaced(a: Option<Node>)
    requires AddressingOk(a)
    ensures var c := if a.Some? then [Element(a.value)] else [];
      Skeleton(c) == [] && Addressings(c) == c
  {
    if a.Some? {
      SkeletonOne(Element(a.value));
    }
  }

  // ---------- one element's own part ----------

  lemma SameOwn(n: Node, base: string, current: string, env: Env)
    requires n.name.local != "UTCTiming"
    ensures OwnAttrs(n, n, base, current, false, env)
  {
  }

  lemma Timed(n: Node, base: string, current: string, env: Env)
    requires n.name.local == "UTCTiming" && RewriteTiming(n, current, env).Ok?
    ensures OwnAttrs(n, RewriteTiming(n, current, env).value, base, current, false, env)
  {
    hide AttrValue, RewriteAttr, Lookup;
    AttrValued(n, "schemeIdUri");
    AttrValued(n, "value");
    var scheme := AttrValue(n, "schemeIdUri").value.value;
    assert Valued(n, "schemeIdUri") == scheme && Valued(n, "value") == AttrValue(n, "value").value.value;
    Schemes(scheme);
    if !Prefixed(scheme, "direct") {
      RewriteAttrAs(n, "value", Reference(env, current));
      RewriteAttrNamed(n, "value", Reference(env, current));
    }
  }

  lemma Schemes(s: string)
    ensures Prefixed(s, "direct") <==> Direct(s)
    ensures (Prefixed(s, "http-head") || Prefixed(s, "http-xsdate") || Prefixed(s, "http-iso") || s == "urn:mpeg:dash:utc:http-ntp:2014")
       <==> Fetched(s)
    ensures !(Direct(s) && Fetched(s))
  {
    hide Prefixed;
    DirectSpelled(s);
    HeadSpelled(s);
    DateSpelled(s);
    IsoSpelled(s);
    Eighteenth(s);
  }

  lemma DirectSpelled(s: string)
    ensures Prefixed(s, "direct") <==> s == "urn:mpeg:dash:utc:direct:2012" || s == "urn:mpeg:dash:utc:direct:2014"
  {
    assert "urn:mpeg:dash:utc:" + "direct" + ":2012" == "urn:mpeg:dash:utc:direct:2012";
    assert "urn:mpeg:dash:utc:" + "direct" + ":2014" == "urn:mpeg:dash:utc:direct:2014";
  }

  lemma HeadSpelled(s: string)
    ensures Prefixed(s, "http-head") <==> s == "urn:mpeg:dash:utc:http-head:2012" || s == "urn:mpeg:dash:utc:http-head:2014"
  {
    assert "urn:mpeg:dash:utc:" + "http-head" + ":2012" == "urn:mpeg:dash:utc:http-head:2012";
    assert "urn:mpeg:dash:utc:" + "http-head" + ":2014" == "urn:mpeg:dash:utc:http-head:2014";
  }

  lemma DateSpelled(s: string)
    ensures Prefixed(s, "http-xsdate") <==> s == "urn:mpeg:dash:utc:http-xsdate:2012" || s == "urn:mpeg:dash:utc:http-xsdate:2014"
  {
    assert "urn:mpeg:dash:utc:" + "http-xsdate" + ":2012" == "urn:mpeg:dash:utc:http-xsdate:2012";
    assert "urn:mpeg:dash:utc:" + "http-xsdate" + ":2014" == "urn:mpeg:dash:utc:http-xsdate:2014";
  }

  lemma IsoSpelled(s: string)
    ensures Prefixed(s, "http-iso") <==> s == "urn:mpeg:dash:utc:http-iso:2012" || s == "urn:mpeg:dash:utc:http-iso:2014"
  {
    assert "urn:mpeg:dash:utc:" + "http-iso" + ":2012" == "urn:mpeg:dash:utc:http-iso:2012";
    assert "urn:mpeg:dash:utc:" + "http-iso" + ":2014" == "urn:mpeg:dash:utc:http-iso:2014";
  }

  lemma Eighteenth(s: string)
    ensures Direct(s) ==> |s| > 18 && s[18] == 'd'
    ensures Fetched(s) ==> |s| > 18 && s[18] == 'h'
  {
  }

  lemma OwnKept(n: Node, base: string, current: string, env: Env)
    requires RewriteOwn(n, current, env).Ok?
    ensures var own := RewriteOwn(n, current, env).value;
      && OwnAttrs(n, own.0, base, current, false, env) && own.1 == HasCallbacks(n)
  {
    hide RewriteTiming, OwnAttrs, AttrValue, Lookup;
    assert |"UTCTiming"| == 9 && |"EventStream"| == 11 && |"InbandEventStream"| == 17;
    if n.name.local == "UTCTiming" {
      Timed(n, base, current, env);
    } else {
      SameOwn(n, base, current, env);
      if n.name.local == "EventStream" || n.name.local == "InbandEventStream" {
        AttrValued(n, "schemeIdUri");
        DifferentSchemes();
      }
    }
  }

  lemma DifferentSchemes()
    ensures "" != "urn:mpeg:dash:event:callback:2015" && "urn:mpeg:dash:event:2012" != "urn:mpeg:dash:event:callback:2015"
  {
    assert |"urn:mpeg:dash:event:2012"| == 24 && |"urn:mpeg:dash:event:callback:2015"| == 33;
  }

  lemma NotRefused(n: Node)
    requires !Unsupported(n)
    ensures !Refused(n.name.local)
  {
  }

  // ---------- the traversal ----------

  /** An event's URL is rewritten before it is visited. */
  lemma EventKept(n: Node, m: Node, out: Node, base: string, env: Env)
    requires RewriteEvent(n, base, env) == Ok(m) && m.content == n.content && NodeKept(m, out, base, false, env)
    ensures NodeKept(n, out, base, true, env) && n.name.local == "Event"
  {
    hide AttrValue, ResolvedBase, Lookup, Leaf;
    assert |"Event"| == 5 && |"Location"| == 8 && |"UTCTiming"| == 9 && |"EventStream"| == 11;
    RewriteEventNamed(n, base, env);
    hide RewriteAttr;
    RewriteAttrAs(n, "messageData", Reference(env, base));
    var current := ResolvedBase(n.content, base, env);
    forall i | 0 <= i < |n.attrs| ensures OwnAttr(n, n.attrs[i], out.attrs[i], base, current, true, env) {
      assert OwnAttr(m, m.attrs[i], out.attrs[i], base, current, false, env);
    }
  }

  lemma BaseTextKept(n: Node, text: string, base: string, env: Env)
    requires NodeText(n).Ok? && env.reference(NodeText(n).value, base).Some? && text == env.reference(NodeText(n).value, base).value.0
    ensures BaseKept(n, Element(WithText(n, text)), base, env)
  {
  }

  lemma {:induction false} BaseFirst(content: seq<Content>, i: nat)
    requires Scan(content).Ok? && i < |content| && IsBase(content[i])
    ensures BaseOf(content) == Some(content[i].node)
    decreases |content|
  {
    hide ValidNamespace, IsBase, IsAddressing;
    if i > 0 {
      BaseFirst(content[1..], i - 1);
      ScanFinds(content[1..]);
    }
  }

  /** The text of the one BaseURL of a level, as the context has it. */
  ghost predicate BaseTexts(content: seq<Content>, text: Option<string>, base: string, env: Env) {
    forall i :: 0 <= i < |content| && IsBase(content[i]) ==>
      text.Some? && NodeText(content[i].node).Ok? && env.reference(NodeText(content[i].node).value, base).Some?
      && text.value == env.reference(NodeText(content[i].node).value, base).value.0
  }

  lemma BaseTextsOf(content: seq<Content>, base: string, env: Env)
    requires Scan(content).Ok? && BaseBelow(Scan(content).value, base, env).Ok?
    ensures BaseTexts(content, BaseBelow(Scan(content).value, base, env).value.text, base, env)
  {
    hide NodeText, Scan;
    ScanFinds(content);
    forall i | 0 <= i < |content| && IsBase(content[i]) ensures BaseOf(content) == Some(content[i].node) {
      BaseFirst(content, i);
    }
  }

  lemma {:induction false} KeepContent(content: seq<Content>, c: Context, env: Env, base: string)
    requires RewriteContent(content, c, env).Ok? && AddressingOk(c.effective) && AddressingOk(c.placed)
    requires BaseTexts(content, c.baseText, base, env)
    ensures ContentKept(content, Skeleton(RewriteContent(content, c, env).value.content), base, c.base, c.events, env)
    decreases ContentSize(content), 0
  {
    hide IsAddressing, IsBase, RewriteNode, RewriteEvent, NodeKept, AddressingOk, ContentSize, Size, BaseKept, NodeText, ContentKept,
      RewriteContent, BaseTexts;
    if content == [] {
      NothingKept(c, env, base);
    } else {
      SizeSplit(content);
      TextsTail(content, c.baseText, base, env);
      ContentRewritten(content, c, env);
      KeepContent(content[1..], c, env, base);
      if content[0].Element? && !IsBase(content[0]) && !IsAddressing(content[0]) {
        KeepChild(content, c, env, base);
      } else {
        KeepOther(content, c, env, base);
      }
    }
  }

  lemma NothingKept(c: Context, env: Env, base: string)
    ensures ContentKept([], Skeleton(RewriteContent([], c, env).value.content), base, c.base, c.events, env)
  {
  }

  lemma TextsTail(content: seq<Content>, text: Option<string>, base: string, env: Env)
    requires content != [] && BaseTexts(content, text, base, env)
    ensures BaseTexts(content[1..], text, base, env)
  {
    hide NodeText, IsBase;
  }

  lemma ContentRewritten(content: seq<Content>, c: Context, env: Env)
    requires content != [] && RewriteContent(content, c, env).Ok?
    ensures RewriteContent(content[1..], c, env).Ok?
  {
    hide RewriteNode, RewriteEvent, IsBase, IsAddressing, Trim;
  }

  lemma KeepOther(content: seq<Content>, c: Context, env: Env, base: string)
    requires content != [] && RewriteContent(content, c, env).Ok? && RewriteContent(content[1..], c, env).Ok?
    requires AddressingOk(c.placed) && BaseTexts(content, c.baseText, base, env)
    requires content[0].Text? || IsBase(content[0]) || IsAddressing(content[0])
    requires ContentKept(content[1..], Skeleton(RewriteContent(content[1..], c, env).value.content), base, c.base, c.events, env)
    ensures ContentKept(content, Skeleton(RewriteContent(content, c, env).value.content), base, c.base, c.events, env)
  {
    hide RewriteNode, RewriteEvent, NodeKept, BaseKept, NodeText, Trim, IsBase, IsAddressing;
    var rest := RewriteContent(content[1..], c, env).value;
    KindsApart(content[0]);
    if content[0].Text? {
      SkeletonConcat([content[0]], rest.content);
      SkeletonOne(content[0]);
      FrontOf(content[0], Skeleton(rest.content));
    } else if IsBase(content[0]) {
      assert IsBase(content[0]) && content[0] == content[0..][0];
      var out := Element(WithText(content[0].node, c.baseText.value));
      BaseTextKept(content[0].node, c.baseText.value, base, env);
      BaseStays(content[0].node, c.baseText.value);
      SkeletonConcat([out], rest.content);
      SkeletonOne(out);
      FrontOf(out, Skeleton(rest.content));
    } else {
      SkeletonPlaced(c.placed);
      SkeletonConcat(PlacedAt(c), rest.content);
      assert [] + Skeleton(rest.content) == Skeleton(rest.content);
    }
  }

  lemma FrontOf(c: Content, rest: seq<Content>)
    ensures ([c] + rest)[0] == c && ([c] + rest)[1..] == rest && [c] + rest != []
  {
  }

  lemma KindsApart(c: Content)
    ensures c.Text? ==> !IsAddressing(c) && !IsBase(c)
    ensures !(IsBase(c) && IsAddressing(c))
  {
  }

  lemma BaseStays(n: Node, text: string)
    requires IsBase(Element(n))
    ensures IsBase(Element(WithText(n, text))) && !IsAddressing(Element(WithText(n, text)))
  {
  }

  lemma KeepChild(content: seq<Content>, c: Context, env: Env, base: string)
    requires content != [] && RewriteContent(content, c, env).Ok? && RewriteContent(content[1..], c, env).Ok?
    requires AddressingOk(c.effective) && content[0].Element? && !IsBase(content[0]) && !IsAddressing(content[0])
    requires ContentKept(content[1..], Skeleton(RewriteContent(content[1..], c, env).value.content), base, c.base, c.events, env)
    ensures ContentKept(content, Skeleton(RewriteContent(content, c, env).value.content), base, c.base, c.events, env)
    decreases ContentSize(content[0].node.content), 2
  {
    hide RewriteNode, RewriteEvent, NodeKept, BaseKept, NodeText, Trim, IsBase, IsAddressing, AddressingOk, ContentSize, Size;
    var rest := RewriteContent(content[1..], c, env).value;
    var n := content[0].node;
    var m := if c.events then RewriteEvent(n, c.base, env).value else n;
    assert m.content == n.content;
    KeepNode(m, c.base, c.effective, env);
    var out := RewriteNode(m, c.base, c.effective, env).value.node;
    if c.events {
      EventKept(n, m, out, c.base, env);
    }
    NameKept(n, out, c.base, c.events, env);
    KindsByName(n, out);
    assert content[0] == Element(n);
    SkeletonConcat([Element(out)], rest.content);
    SkeletonOne(Element(out));
    FrontOf(Element(out), Skeleton(rest.content));
  }

  lemma NameKept(n: Node, out: Node, base: string, event: bool, env: Env)
    requires NodeKept(n, out, base, event, env)
    ensures out.name == n.name
  {
  }

  lemma {:induction false} OneAddressing(content: seq<Content>, c: Context, env: Env)
    requires RewriteContent(content, c, env).Ok? && Scan(content).Ok? && AddressingOk(c.placed) && AddressingOk(c.effective)
    ensures Addressings(RewriteContent(content, c, env).value.content) == if LocalOf(content).Some? then PlacedAt(c) else []
    decreases |content|
  {
    hide RewriteNode, RewriteEvent, IsBase, IsAddressing, Trim, ValidNamespace, AddressingOk;
    if content != [] {
      ScanFinds(content[1..]);
      OneAddressing(content[1..], c, env);
      var rest := RewriteContent(content[1..], c, env).value;
      KindsApart(content[0]);
      if IsAddressing(content[0]) {
        SkeletonPlaced(c.placed);
        SkeletonConcat(PlacedAt(c), rest.content);
        assert PlacedAt(c) + [] == PlacedAt(c);
      } else {
        OneOther(content, c, env, rest);
      }
    }
  }

  lemma OneOther(content: seq<Content>, c: Context, env: Env, rest: RewrittenContent)
    requires content != [] && RewriteContent(content, c, env).Ok? && !IsAddressing(content[0]) && AddressingOk(c.effective)
    requires RewriteContent(content[1..], c, env) == Ok(rest)
    ensures Addressings(RewriteContent(content, c, env).value.content) == Addressings(rest.content)
  {
    hide RewriteNode, RewriteEvent, IsBase, IsAddressing, Trim, AddressingOk;
    var head := RewriteContent(content, c, env).value.content[0];
    assert RewriteContent(content, c, env).value.content == [head] + rest.content;
    assert !IsAddressing(head) by { HeadOther(content, c, env, rest, head); }
    SkeletonOne(head);
    SkeletonConcat([head], rest.content);
    assert [] + Addressings(rest.content) == Addressings(rest.content);
  }

  lemma HeadOther(content: seq<Content>, c: Context, env: Env, rest: RewrittenContent, head: Content)
    requires content != [] && RewriteContent(content, c, env).Ok? && !IsAddressing(content[0]) && AddressingOk(c.effective)
    requires RewriteContent(content[1..], c, env) == Ok(rest)
    requires RewriteContent(content, c, env).value.content == [head] + rest.content
    ensures !IsAddressing(head)
  {
    hide RewriteNode, RewriteEvent, Trim, AddressingOk, NodeKept, IsBase, IsAddressing;
    KindsApart(content[0]);
    assert head == RewriteContent(content, c, env).value.content[0];
    if content[0].Text? {
      assert head == content[0];
    } else if IsBase(content[0]) {
      if c.baseText.Some? {
        BaseStays(content[0].node, c.baseText.value);
      }
      assert content[0] == Element(content[0].node);
    } else {
      var n := content[0].node;
      var m := if c.events then RewriteEvent(n, c.base, env).value else n;
      if c.events {
        RewriteEventNamed(n, c.base, env);
      }
      NodeNamed(m, c.base, c.effective, env);
      KindsByName(n, RewriteNode(m, c.base, c.effective, env).value.node);
    }
  }

  lemma NodeNamed(n: Node, base: string, inherited: Option<Node>, env: Env)
    requires RewriteNode(n, base, inherited, env).Ok?
    ensures RewriteNode(n, base, inherited, env).value.node.name == n.name
  {
    hide RewriteContent, RewriteOwn, Scan, BaseBelow, Placed, Merge, ValidNamespace, Unsupported, NodeText;
    if n.name.local != "Location" {
      RewriteOwnNamed(n, BaseBelow(Scan(n.content).value, base, env).value.base, env);
    }
  }

  lemma {:induction false} KeepNode(n: Node, base: string, inherited: Option<Node>, env: Env)
    requires RewriteNode(n, base, inherited, env).Ok? && AddressingOk(inherited)
    ensures NodeKept(n, RewriteNode(n, base, inherited, env).value.node, base, false, env)
    decreases ContentSize(n.content), 1
  {
    hide ContentSize, AddressingOk, Merge, Scan, RewriteContent, RewriteOwn, Placed, BaseBelow, Unsupported, OwnAttrs, ContentKept,
      NodeText, ResolvedBase;
    var level := Scan(n.content).value;
    var below := BaseBelow(level, base, env).value;
    ScanFinds(n.content);
    BaseResolved(n.content, base, env, level);
    NotRefused(n);
    if n.name.local == "Location" {
      LocationKept(n, base, inherited, env);
    } else {
      var effective := Merge(inherited, level.local);
      var placed := Placed(n, effective, below.base, env).value;
      var own := RewriteOwn(n, below.base, env).value;
      LocalFits(n.content, inherited);
      PlacedFits(n, effective, below.base, env);
      OwnKept(n, base, below.base, env);
      RewriteOwnNamed(n, below.base, env);
      BaseTextsOf(n.content, base, env);
      var c := Context(below.base, below.text, if placed.Some? then placed else effective, placed, own.1);
      KeepContent(n.content, c, env, base);
      OneAddressing(n.content, c, env);
      FinishedKept(n, level.local, placed, own.0, RewriteContent(n.content, c, env).value, c);
      OwnAttrsOnly(n, own.0, RewriteNode(n, base, inherited, env).value.node, base, below.base, env);
    }
  }

  lemma OwnAttrsOnly(n: Node, own: Node, out: Node, base: string, current: string, env: Env)
    requires OwnAttrs(n, own, base, current, false, env) && out.attrs == own.attrs
    ensures OwnAttrs(n, out, base, current, false, env)
  {
  }

  lemma LocationKept(n: Node, base: string, inherited: Option<Node>, env: Env)
    requires RewriteNode(n, base, inherited, env).Ok? && n.name.local == "Location" && !Refused(n.name.local)
    ensures NodeKept(n, RewriteNode(n, base, inherited, env).value.node, base, false, env)
  {
    hide Merge, Scan, RewriteContent, RewriteOwn, Placed, BaseBelow, Unsupported, Trim, TextsOf, ResolvedBase, Lookup;
    assert |"Location"| == 8 && |"UTCTiming"| == 9;
    SameOwn(n, base, ResolvedBase(n.content, base, env), env);
    assert RewriteNode(n, base, inherited, env).value.node == RewriteLocation(n, env).value;
  }

  /** What is put at the end of a Representation is its addressing. */
  lemma FinishedKept(n: Node, local: Option<Node>, placed: Option<Node>, own: Node, r: RewrittenContent, c: Context)
    requires Finished(n, local, placed, own, r).Ok? && AddressingOk(placed) && c.placed == placed
    requires Addressings(r.content) == if local.Some? then PlacedAt(c) else []
    ensures var out := Finished(n, local, placed, own, r).value.node;
      && out.name == own.name && out.attrs == own.attrs && Skeleton(out.content) == Skeleton(r.content)
      && |Addressings(out.content)| <= 1
  {
    hide IsAddressing, AddressingOk, IsRepresentation;
    var tail := if placed.Some? && local.None? then [Element(placed.value)] else [];
    SkeletonPlaced(placed);
    SkeletonConcat(r.content, tail);
    assert r.content + [] == r.content;
    assert Skeleton(r.content) + [] == Skeleton(r.content);
  }

  /**
   Outside segment addressing, an accepted manifest keeps every element, attribute and
   text in its place, but for its URLs: BaseURL and Location texts, clocks that are
   fetched and callback events are rewritten, each with the base that is in force there.
   It has none of the elements that are refused, and nowhere more than one addressing.
   */
  lemma SkeletonKept(root: Node, base: string, env: Env)
    requires RewriteNode(root, base, None, env).Ok?
    ensures NodeKept(root, RewriteNode(root, base, None, env).value.node, base, false, env)
  {
    hide RewriteNode, NodeKept;
    KeepNode(root, base, None, env);
  }
}
