/** Exactly which parts of a manifest are served, each by the fields it has. */
module DashRefusals {
  import opened Wrappers
  import opened DashTree
  import opened DashValues
  import opened DashAddressing
  import opened DashPushdown

  // ---------- attributes ----------

  ghost predicate Missing(attrs: seq<Attr>, local: string) {
    forall j :: 0 <= j < |attrs| ==> attrs[j].name.local != local
  }

  /** The one attribute of that name is the i-th, and in no namespace. */
  ghost predicate Once(attrs: seq<Attr>, local: string, i: nat) {
    && i < |attrs| && attrs[i].name == Name("", local)
    && forall j :: 0 <= j < |attrs| && j != i ==> attrs[j].name.local != local
  }

  ghost predicate Valued(n: Node, local: string, v: string) {
    exists i: nat :: Once(n.attrs, local, i) && n.attrs[i].value == v
  }

  lemma {:induction false} IndexFrom(attrs: seq<Attr>, local: string, i: nat, seen: Option<nat>, at: nat)
    requires i <= |attrs| && (seen.Some? ==> seen.value < i && attrs[seen.value].name == Name("", local))
    requires forall j :: 0 <= j < i && attrs[j].name.local == local ==> seen == Some(j)
    ensures AttrFrom(attrs, local, i, seen) == Ok(Some(at)) <==> Once(attrs, local, at)
    ensures AttrFrom(attrs, local, i, seen) == Ok(None) <==> Missing(attrs, local)
    decreases |attrs| - i
  {
    if i < |attrs| {
      if attrs[i].name.local != local {
        IndexFrom(attrs, local, i + 1, seen, at);
      } else if attrs[i].name.space == "" && seen.None? {
        IndexFrom(attrs, local, i + 1, Some(i), at);
      }
    }
  }

  lemma IndexExactly(attrs: seq<Attr>, local: string, at: nat)
    ensures AttrIndex(attrs, local) == Ok(Some(at)) <==> Once(attrs, local, at)
    ensures AttrIndex(attrs, local) == Ok(None) <==> Missing(attrs, local)
  {
    hide AttrFrom;
    IndexFrom(attrs, local, 0, None, at);
  }

  lemma ValueExactly(n: Node, local: string, v: string)
    ensures AttrValue(n, local) == Ok(Some(v)) <==> Valued(n, local, v)
    ensures AttrValue(n, local) == Ok(None) <==> Missing(n.attrs, local)
  {
    hide AttrIndex;
    forall i: nat ensures AttrIndex(n.attrs, local) == Ok(Some(i)) <==> Once(n.attrs, local, i)
      ensures AttrIndex(n.attrs, local) == Ok(None) <==> Missing(n.attrs, local) {
      IndexExactly(n.attrs, local, i);
    }
    IndexExactly(n.attrs, local, 0);
    if AttrIndex(n.attrs, local).Ok? && AttrIndex(n.attrs, local).value.Some? {
      var i := AttrIndex(n.attrs, local).value.value;
      assert Once(n.attrs, local, i);
      assert forall k: nat :: Once(n.attrs, local, k) ==> k == i;
    }
  }

  /** A URL attribute can be served if it is not there, or there once and answered. */
  ghost predicate Served(n: Node, local: string, answered: string -> bool) {
    Missing(n.attrs, local) || exists v :: Valued(n, local, v) && answered(v)
  }

  lemma RewriteAttrExactly(n: Node, local: string, f: string -> Option<string>)
    ensures RewriteAttr(n, local, f).Ok? <==> Served(n, local, v => f(v).Some?)
  {
    hide AttrIndex;
    IndexExactly(n.attrs, local, 0);
    if AttrIndex(n.attrs, local).Ok? && AttrIndex(n.attrs, local).value.Some? {
      var i := AttrIndex(n.attrs, local).value.value;
      IndexExactly(n.attrs, local, i);
      assert Valued(n, local, n.attrs[i].value);
      assert forall v :: Valued(n, local, v) ==> v == n.attrs[i].value;
    }
    forall v | Valued(n, local, v) ensures AttrIndex(n.attrs, local).Ok? && AttrIndex(n.attrs, local).value.Some? {
      var i: nat :| Once(n.attrs, local, i) && n.attrs[i].value == v;
      IndexExactly(n.attrs, local, i);
    }
  }

  /** Rewriting one attribute leaves the others as they are. */
  lemma OthersServed(n: Node, local: string, f: string -> Option<string>, other: string, answered: string -> bool)
    requires RewriteAttr(n, local, f).Ok? && other != local
    ensures Served(RewriteAttr(n, local, f).value, other, answered) == Served(n, other, answered)
  {
    hide AttrIndex;
    IndexExactly(n.attrs, local, 0);
    var m := RewriteAttr(n, local, f).value;
    if AttrIndex(n.attrs, local).value.Some? {
      IndexExactly(n.attrs, local, AttrIndex(n.attrs, local).value.value);
    }
    assert |m.attrs| == |n.attrs| && forall j :: 0 <= j < |n.attrs| ==> m.attrs[j].name == n.attrs[j].name;
    assert forall j :: 0 <= j < |n.attrs| && n.attrs[j].name.local == other ==> m.attrs[j] == n.attrs[j];
    forall i: nat ensures Once(m.attrs, other, i) == Once(n.attrs, other, i) {
    }
    forall v ensures Valued(m, other, v) == Valued(n, other, v) {
      if Valued(n, other, v) {
        var i: nat :| Once(n.attrs, other, i) && n.attrs[i].value == v;
        assert Once(m.attrs, other, i);
      }
      if Valued(m, other, v) {
        var i: nat :| Once(m.attrs, other, i) && m.attrs[i].value == v;
        assert Once(n.attrs, other, i);
      }
    }
  }

  ghost predicate AllServed(n: Node, names: seq<string>, answered: string -> bool) {
    forall k :: 0 <= k < |names| ==> Served(n, names[k], answered)
  }

  lemma {:induction false} RewriteAttrsExactly(n: Node, names: seq<string>, f: string -> Option<string>)
    requires forall i, j :: 0 <= i < j < |names| ==> names[i] != names[j]
    ensures RewriteAttrs(n, names, f).Ok? <==> AllServed(n, names, v => f(v).Some?)
    ensures RewriteAttrs(n, names, f).Ok? ==>
      RewriteAttrs(n, names, f).value.content == n.content && RewriteAttrs(n, names, f).value.name == n.name
      && ValidNamespace(RewriteAttrs(n, names, f).value) == ValidNamespace(n)
    decreases |names|
  {
    hide Served, RewriteAttr;
    var answered := v => f(v).Some?;
    if names != [] {
      RewriteAttrExactly(n, names[0], f);
      if RewriteAttr(n, names[0], f).Ok? {
        var m := RewriteAttr(n, names[0], f).value;
        KeptByAttr(n, names[0], f);
        RewriteAttrsExactly(m, names[1..], f);
        forall k | 1 <= k < |names| ensures Served(m, names[k], answered) == Served(n, names[k], answered) {
          OthersServed(n, names[0], f, names[k], answered);
        }
        assert forall k :: 1 <= k < |names| ==> names[k] == names[1..][k - 1];
        if AllServed(n, names, answered) {
          forall k | 0 <= k < |names[1..]| ensures Served(m, names[1..][k], answered) {
            assert Served(n, names[k + 1], answered);
          }
        }
        if AllServed(m, names[1..], answered) {
          forall k | 0 <= k < |names| ensures Served(n, names[k], answered) {
            if k > 0 {
              assert Served(m, names[1..][k - 1], answered);
            }
          }
        }
      }
    }
  }

  lemma KeptByAttr(n: Node, local: string, f: string -> Option<string>)
    requires RewriteAttr(n, local, f).Ok?
    ensures var m := RewriteAttr(n, local, f).value;
      m.content == n.content && m.name == n.name && ValidNamespace(m) == ValidNamespace(n)
  {
    hide AttrIndex;
    var m := RewriteAttr(n, local, f).value;
    assert |m.attrs| == |n.attrs| && forall j :: 0 <= j < |n.attrs| ==> m.attrs[j].name == n.attrs[j].name;
    forall j | 0 <= j < |n.attrs| ensures AttrAllowed(m.attrs[j]) == AttrAllowed(n.attrs[j]) {
    }
  }

  // ---------- addressing ----------

  ghost predicate UrlServed(n: Node, local: string, base: string, env: Env) {
    Served(n, local, v => env.reference(v, base).Some?)
  }

  ghost predicate TemplateServed(n: Node, local: string, base: string, b: Bindings, env: Env) {
    Served(n, local, v => env.template(v, base, b).Some?)
  }

  /** Which children addressing of a kind may have, and what is asked of them. */
  ghost predicate ChildServed(kind: string, c: Content, base: string, env: Env) {
    if c.Text? then Trim(c.text) == ""
    else
      ValidNamespace(c.node) &&
      match c.node.name.local
      case "SegmentURL" =>
        kind == "SegmentList" && Leaf(c.node) && UrlServed(c.node, "media", base, env) && UrlServed(c.node, "index", base, env)
      case "Initialization" => Leaf(c.node) && UrlServed(c.node, "sourceURL", base, env)
      case "RepresentationIndex" => Leaf(c.node) && UrlServed(c.node, "sourceURL", base, env)
      case "BitstreamSwitching" => kind != "SegmentBase" && Leaf(c.node) && UrlServed(c.node, "sourceURL", base, env)
      case "SegmentTimeline" =>
        && kind != "SegmentBase"
        && forall i :: 0 <= i < |c.node.content| ==>
             var d := c.node.content[i];
             if d.Text? then Trim(d.text) == "" else IsNamed(d.node, "S") && Leaf(d.node)
      case _ => false
  }

  lemma LeafKept(n: Node, names: seq<string>, f: string -> Option<string>)
    requires RewriteAttrs(n, names, f).Ok? && forall i, j :: 0 <= i < j < |names| ==> names[i] != names[j]
    ensures Leaf(RewriteAttrs(n, names, f).value) == Leaf(n)
  {
    hide RewriteAttrs, ValidNamespace;
    RewriteAttrsExactly(n, names, f);
  }

  lemma OneServed(n: Node, f: string -> Option<string>)
    ensures AllServed(n, ["sourceURL"], v => f(v).Some?) <==> Served(n, "sourceURL", v => f(v).Some?)
  {
    hide Served;
    var answered := v => f(v).Some?;
    var names := ["sourceURL"];
    assert names[0] == "sourceURL";
    if Served(n, "sourceURL", answered) {
      assert forall k :: 0 <= k < |names| ==> Served(n, names[k], answered);
    }
    if AllServed(n, names, answered) {
      assert Served(n, names[0], answered);
    }
  }

  lemma TwoServed(n: Node, f: string -> Option<string>)
    ensures AllServed(n, ["media", "index"], v => f(v).Some?)
      <==> Served(n, "media", v => f(v).Some?) && Served(n, "index", v => f(v).Some?)
  {
    hide Served;
    var answered := v => f(v).Some?;
    var names := ["media", "index"];
    assert names[0] == "media" && names[1] == "index";
    if AllServed(n, names, answered) {
      assert Served(n, names[0], answered) && Served(n, names[1], answered);
    }
  }

  lemma ReferenceAnswers(env: Env, base: string, v: string)
    ensures Reference(env, base)(v).Some? == env.reference(v, base).Some?
  {
  }

  lemma TemplateAnswers(env: Env, base: string, b: Bindings, v: string)
    ensures TemplateAt(env, base, b)(v) == env.template(v, base, b)
  {
  }

  lemma ReferenceServed(n: Node, local: string, base: string, env: Env)
    ensures UrlServed(n, local, base, env) <==> Served(n, local, v => Reference(env, base)(v).Some?)
  {
    hide Valued;
    var f := v => env.reference(v, base).Some?;
    var g := v => Reference(env, base)(v).Some?;
    forall v: string ensures f(v) == g(v) {
      ReferenceAnswers(env, base, v);
    }
    if Served(n, local, f) && !Missing(n.attrs, local) {
      var v :| Valued(n, local, v) && f(v);
      assert g(v);
    }
    if Served(n, local, g) && !Missing(n.attrs, local) {
      var v :| Valued(n, local, v) && g(v);
      assert f(v);
    }
  }

  lemma UrlsExactly(n: Node, base: string, env: Env)
    ensures LeafRewritten(RewriteAttrs(n, ["sourceURL"], Reference(env, base))).Ok?
      <==> Leaf(n) && UrlServed(n, "sourceURL", base, env)
    ensures LeafRewritten(RewriteAttrs(n, ["media", "index"], Reference(env, base))).Ok?
      <==> Leaf(n) && UrlServed(n, "media", base, env) && UrlServed(n, "index", base, env)
  {
    hide RewriteAttrs, AllServed, Served, Leaf, UrlServed, Reference;
    var f := Reference(env, base);
    assert "media"[0] != "index"[0];
    RewriteAttrsExactly(n, ["sourceURL"], f);
    RewriteAttrsExactly(n, ["media", "index"], f);
    OneServed(n, f);
    TwoServed(n, f);
    ReferenceServed(n, "sourceURL", base, env);
    ReferenceServed(n, "media", base, env);
    ReferenceServed(n, "index", base, env);
    if RewriteAttrs(n, ["sourceURL"], f).Ok? {
      LeafKept(n, ["sourceURL"], f);
    }
    if RewriteAttrs(n, ["media", "index"], f).Ok? {
      LeafKept(n, ["media", "index"], f);
    }
  }

  lemma ChildExactly(kind: string, n: Node, base: string, env: Env)
    ensures RewriteChild(kind, n, base, env).Ok? <==> ChildServed(kind, Element(n), base, env)
  {
    hide RewriteAttrs, Leaf, UrlServed, ValidNamespace;
    UrlsExactly(n, base, env);
    if n.name.local == "SegmentTimeline" {
      TimelineExactly(n);
    }
  }

  lemma TimelineExactly(n: Node)
    ensures Timeline(n) <==> ValidNamespace(n) && forall i :: 0 <= i < |n.content| ==>
      var d := n.content[i]; if d.Text? then Trim(d.text) == "" else IsNamed(d.node, "S") && Leaf(d.node)
  {
    hide Leaf, ValidNamespace;
  }

  lemma {:induction false} ChildrenExactly(kind: string, content: seq<Content>, base: string, env: Env)
    ensures RewriteChildren(kind, content, base, env).Ok?
      <==> forall i :: 0 <= i < |content| ==> ChildServed(kind, content[i], base, env)
  {
    if content != [] {
      hide RewriteChild, ChildServed;
      ChildrenExactly(kind, content[1..], base, env);
      FirstChild(kind, content[0], base, env);
      assert forall i :: 1 <= i < |content| ==> content[i] == content[1..][i - 1];
      if RewriteChildren(kind, content, base, env).Ok? {
        forall i | 0 <= i < |content| ensures ChildServed(kind, content[i], base, env) {
          if i > 0 {
            assert ChildServed(kind, content[1..][i - 1], base, env);
          }
        }
      }
      if forall i :: 0 <= i < |content| ==> ChildServed(kind, content[i], base, env) {
        forall i | 0 <= i < |content[1..]| ensures ChildServed(kind, content[1..][i], base, env) {
          assert ChildServed(kind, content[i + 1], base, env);
        }
        assert ChildServed(kind, content[0], base, env);
      }
    }
  }

  lemma FirstChild(kind: string, c: Content, base: string, env: Env)
    ensures ChildServed(kind, c, base, env) <==> if c.Text? then Blank(c) else RewriteChild(kind, c.node, base, env).Ok?
  {
    if c.Element? {
      ChildExactly(kind, c.node, base, env);
      assert c == Element(c.node);
    }
  }

  ghost predicate FourServed(n: Node, base: string, b: Bindings, env: Env) {
    && TemplateServed(n, "media", base, b, env) && TemplateServed(n, "initialization", base, b, env)
    && TemplateServed(n, "index", base, b, env) && TemplateServed(n, "bitstreamSwitching", base, b, env)
  }

  lemma FourExactly(n: Node, base: string, b: Bindings, env: Env)
    ensures RewriteAttrs(n, ["media", "initialization", "index", "bitstreamSwitching"], TemplateAt(env, base, b)).Ok?
      <==> FourServed(n, base, b, env)
  {
    hide RewriteAttrs, Served;
    var names := ["media", "initialization", "index", "bitstreamSwitching"];
    assert |"media"| == 5 && |"initialization"| == 14 && |"index"| == 5 && |"bitstreamSwitching"| == 18;
    assert "media"[0] != "index"[0];
    var f := TemplateAt(env, base, b);
    RewriteAttrsExactly(n, names, f);
    var answered := v => f(v).Some?;
    assert names[0] == "media" && names[1] == "initialization" && names[2] == "index" && names[3] == "bitstreamSwitching";
    SameTemplates(n, "media", base, b, env);
    SameTemplates(n, "initialization", base, b, env);
    SameTemplates(n, "index", base, b, env);
    SameTemplates(n, "bitstreamSwitching", base, b, env);
    if AllServed(n, names, answered) {
      assert Served(n, names[0], answered) && Served(n, names[1], answered) && Served(n, names[2], answered)
          && Served(n, names[3], answered);
    }
  }

  lemma SameTemplates(n: Node, local: string, base: string, b: Bindings, env: Env)
    ensures TemplateServed(n, local, base, b, env) <==> Served(n, local, v => TemplateAt(env, base, b)(v).Some?)
  {
    hide Valued;
    var f := v => env.template(v, base, b).Some?;
    var g := v => TemplateAt(env, base, b)(v).Some?;
    forall v: string ensures f(v) == g(v) {
      TemplateAnswers(env, base, b, v);
    }
    if Served(n, local, f) && !Missing(n.attrs, local) {
      var v :| Valued(n, local, v) && f(v);
      assert g(v);
    }
    if Served(n, local, g) && !Missing(n.attrs, local) {
      var v :| Valued(n, local, v) && g(v);
      assert f(v);
    }
  }

  /**
   The addressing of a Representation is served if and only if it is one of the three kinds, its
   templates are there at most once and can be sealed, and its children are allowed in that
   kind, hold nothing else, and have URLs that are there at most once and can be rewritten.
   */
  lemma AddressingExactly(n: Node, base: string, b: Bindings, env: Env)
    ensures RewriteAddressing(n, base, b, env).Ok?
      <==> ValidNamespace(n) && n.name.local in {"SegmentTemplate", "SegmentList", "SegmentBase"}
           && (n.name.local == "SegmentTemplate" ==> FourServed(n, base, b, env))
           && forall i :: 0 <= i < |n.content| ==> ChildServed(n.name.local, n.content[i], base, env)
  {
    hide RewriteAttrs, RewriteChildren, ValidNamespace, ChildServed, FourServed;
    FourExactly(n, base, b, env);
    ChildrenExactly(n.name.local, n.content, base, env);
    RewriteNothing(n, TemplateAt(env, base, b));
    var names := ["media", "initialization", "index", "bitstreamSwitching"];
    FourDiffer();
    RewriteAttrsExactly(n, names, TemplateAt(env, base, b));
  }

  lemma FourDiffer()
    ensures var names := ["media", "initialization", "index", "bitstreamSwitching"];
      forall i, j :: 0 <= i < j < |names| ==> names[i] != names[j]
  {
    assert |"media"| == 5 && |"initialization"| == 14 && |"index"| == 5 && |"bitstreamSwitching"| == 18;
    assert "media"[0] != "index"[0];
  }

  lemma RewriteNothing(n: Node, f: string -> Option<string>)
    ensures RewriteAttrs(n, [], f) == Ok(n)
  {
  }

  // ---------- texts, clocks and events ----------

  function AllText(content: seq<Content>): string {
    if content == [] then "" else (if content[0].Text? then content[0].text else "") + AllText(content[1..])
  }

  lemma {:induction false} TextsExactly(content: seq<Content>, s: string)
    ensures TextsOf(content) == Some(s) <==> s == AllText(content) && forall i :: 0 <= i < |content| ==> content[i].Text?
  {
    if content != [] {
      TextsExactly(content[1..], AllText(content[1..]));
      assert forall i :: 1 <= i < |content| ==> content[i] == content[1..][i - 1];
      if TextsOf(content[1..]).Some? {
        TextsExactly(content[1..], TextsOf(content[1..]).value);
      }
    }
  }

  /** The text of a URL element: nothing but text, without white space at its ends, 1 to 1048576 characters. */
  lemma NodeTextExactly(n: Node, s: string)
    ensures NodeText(n) == Ok(s)
      <==> s == Trim(AllText(n.content)) && (forall i :: 0 <= i < |n.content| ==> n.content[i].Text?) && 1 <= |s| <= 1048576
  {
    hide Trim, AllText;
    TextsExactly(n.content, AllText(n.content));
    if TextsOf(n.content).Some? {
      TextsExactly(n.content, TextsOf(n.content).value);
    }
  }

  predicate FetchedClock(scheme: string) {
    scheme in {
      "urn:mpeg:dash:utc:http-head:2012", "urn:mpeg:dash:utc:http-head:2014", "urn:mpeg:dash:utc:http-xsdate:2012",
      "urn:mpeg:dash:utc:http-xsdate:2014", "urn:mpeg:dash:utc:http-iso:2012", "urn:mpeg:dash:utc:http-iso:2014",
      "urn:mpeg:dash:utc:http-ntp:2014"}
  }

  predicate GivenClock(scheme: string) {
    scheme in {"urn:mpeg:dash:utc:direct:2012", "urn:mpeg:dash:utc:direct:2014"}
  }

  ghost predicate ClockServed(n: Node, base: string, env: Env, scheme: string, value: string) {
    && Valued(n, "schemeIdUri", scheme) && Valued(n, "value", value)
    && ((GivenClock(scheme) && env.timestamp(value)) || (FetchedClock(scheme) && env.reference(value, base).Some?))
  }

  /** A clock is served if and only if it says its time, as a timestamp, or where to fetch it. */
  lemma TimingExactly(n: Node, base: string, env: Env)
    ensures RewriteTiming(n, base, env).Ok? <==> exists scheme, value :: ClockServed(n, base, env, scheme, value)
  {
    hide AttrIndex, Valued, RewriteAttr, Missing, AttrValue, Prefixed, GivenClock, FetchedClock, Reference, RewriteTiming;
    forall v: string ensures AttrValue(n, "schemeIdUri") == Ok(Some(v)) <==> Valued(n, "schemeIdUri", v)
      ensures AttrValue(n, "value") == Ok(Some(v)) <==> Valued(n, "value", v) {
      ValueExactly(n, "schemeIdUri", v);
      ValueExactly(n, "value", v);
    }
    var s, v := AttrValue(n, "schemeIdUri"), AttrValue(n, "value");
    if s.Ok? && s.value.Some? && v.Ok? && v.value.Some? {
      TimingGiven(n, base, env, s.value.value, v.value.value);
      assert ClockServed(n, base, env, s.value.value, v.value.value) <==> RewriteTiming(n, base, env).Ok?;
    } else {
      TimingMissing(n, base, env);
    }
  }

  lemma TimingMissing(n: Node, base: string, env: Env)
    requires var s, v := AttrValue(n, "schemeIdUri"), AttrValue(n, "value");
      !(s.Ok? && s.value.Some? && v.Ok? && v.value.Some?)
    ensures RewriteTiming(n, base, env).Err?
  {
    hide AttrValue, Prefixed;
  }

  lemma TimingGiven(n: Node, base: string, env: Env, scheme: string, value: string)
    requires AttrValue(n, "schemeIdUri") == Ok(Some(scheme)) && AttrValue(n, "value") == Ok(Some(value))
    ensures RewriteTiming(n, base, env).Ok?
      <==> (GivenClock(scheme) && env.timestamp(value)) || (FetchedClock(scheme) && env.reference(value, base).Some?)
  {
    hide AttrValue, Prefixed, GivenClock, FetchedClock, RewriteAttr, Valued, Missing, Reference;
    ClockSchemes(scheme);
    ValueExactly(n, "value", value);
    RewriteAttrExactly(n, "value", Reference(env, base));
    ServedOnce(n, "value", value, v => Reference(env, base)(v).Some?);
    ReferenceAnswers(env, base, value);
  }

  lemma ClockSchemes(scheme: string)
    ensures Prefixed(scheme, "direct") == GivenClock(scheme)
    ensures (Prefixed(scheme, "http-head") || Prefixed(scheme, "http-xsdate") || Prefixed(scheme, "http-iso")
             || scheme == "urn:mpeg:dash:utc:http-ntp:2014") == FetchedClock(scheme)
    ensures !(GivenClock(scheme) && FetchedClock(scheme))
  {
    hide Prefixed;
    Direct(scheme);
    Head(scheme);
    XsDate(scheme);
    Iso(scheme);
    assert GivenClock(scheme) ==> scheme[18] == 'd';
    assert FetchedClock(scheme) ==> scheme[18] == 'h';
  }

  lemma Direct(scheme: string)
    ensures Prefixed(scheme, "direct") <==> scheme in {"urn:mpeg:dash:utc:direct:2012", "urn:mpeg:dash:utc:direct:2014"}
  {
    assert "urn:mpeg:dash:utc:" + "direct" + ":2012" == "urn:mpeg:dash:utc:direct:2012";
    assert "urn:mpeg:dash:utc:" + "direct" + ":2014" == "urn:mpeg:dash:utc:direct:2014";
  }

  lemma Head(scheme: string)
    ensures Prefixed(scheme, "http-head") <==> scheme in {"urn:mpeg:dash:utc:http-head:2012", "urn:mpeg:dash:utc:http-head:2014"}
  {
    assert "urn:mpeg:dash:utc:" + "http-head" + ":2012" == "urn:mpeg:dash:utc:http-head:2012";
    assert "urn:mpeg:dash:utc:" + "http-head" + ":2014" == "urn:mpeg:dash:utc:http-head:2014";
  }

  lemma XsDate(scheme: string)
    ensures Prefixed(scheme, "http-xsdate")
      <==> scheme in {"urn:mpeg:dash:utc:http-xsdate:2012", "urn:mpeg:dash:utc:http-xsdate:2014"}
  {
    assert "urn:mpeg:dash:utc:" + "http-xsdate" + ":2012" == "urn:mpeg:dash:utc:http-xsdate:2012";
    assert "urn:mpeg:dash:utc:" + "http-xsdate" + ":2014" == "urn:mpeg:dash:utc:http-xsdate:2014";
  }

  lemma Iso(scheme: string)
    ensures Prefixed(scheme, "http-iso") <==> scheme in {"urn:mpeg:dash:utc:http-iso:2012", "urn:mpeg:dash:utc:http-iso:2014"}
  {
    assert "urn:mpeg:dash:utc:" + "http-iso" + ":2012" == "urn:mpeg:dash:utc:http-iso:2012";
    assert "urn:mpeg:dash:utc:" + "http-iso" + ":2014" == "urn:mpeg:dash:utc:http-iso:2014";
  }

  lemma ServedOnce(n: Node, local: string, v: string, answered: string -> bool)
    requires Valued(n, local, v)
    ensures Served(n, local, answered) <==> answered(v)
  {
    var i: nat :| Once(n.attrs, local, i) && n.attrs[i].value == v;
    assert forall w :: Valued(n, local, w) ==> w == v;
  }

  ghost predicate EventsOf(n: Node, callbacks: bool, scheme: string) {
    && Valued(n, "schemeIdUri", scheme)
    && (Missing(n.attrs, "value") || exists v :: Valued(n, "value", v))
    && (callbacks <==> scheme == "urn:mpeg:dash:event:callback:2015")
    && (callbacks ==> n.name.local != "InbandEventStream")
    && (scheme == "urn:mpeg:dash:event:2012" ==> Valued(n, "value", "1"))
  }

  /**
   An event stream is served as it is unless it carries callbacks; those of the standard's own
   scheme have to be of value 1, and callbacks may not be in band.
   */
  lemma CallbackExactly(n: Node, callbacks: bool)
    ensures Callback(n) == Ok(callbacks)
      <==> (!callbacks && Missing(n.attrs, "schemeIdUri")) || exists scheme :: EventsOf(n, callbacks, scheme)
  {
    hide AttrIndex, Valued, Missing, AttrValue;
    forall v: string ensures AttrValue(n, "schemeIdUri") == Ok(Some(v)) <==> Valued(n, "schemeIdUri", v)
      ensures AttrValue(n, "value") == Ok(Some(v)) <==> Valued(n, "value", v) {
      ValueExactly(n, "schemeIdUri", v);
      ValueExactly(n, "value", v);
    }
    ValueExactly(n, "schemeIdUri", "");
    ValueExactly(n, "value", "");
    assert |"urn:mpeg:dash:event:callback:2015"| != |"urn:mpeg:dash:event:2012"|;
    if AttrValue(n, "schemeIdUri").Ok? && AttrValue(n, "schemeIdUri").value.Some? {
      var scheme := AttrValue(n, "schemeIdUri").value.value;
      assert Valued(n, "schemeIdUri", scheme);
      if AttrValue(n, "value").Ok? && AttrValue(n, "value").value.Some? {
        assert Valued(n, "value", AttrValue(n, "value").value.value);
      }
      assert Callback(n) == Ok(callbacks) <==> EventsOf(n, callbacks, scheme);
      assert forall x :: EventsOf(n, callbacks, x) ==> x == scheme;
    }
  }

  // ---------- levels without a Representation ----------

  function Representations(n: Node): nat
    decreases ContentSize(n.content), 1
  {
    (if IsRepresentation(n) then 1 else 0) + RepresentationsIn(n.content)
  }

  function RepresentationsIn(content: seq<Content>): nat
    decreases ContentSize(content), 0
  {
    if content == [] then 0
    else
      (if content[0].Text? || IsBase(content[0]) || IsAddressing(content[0]) then 0 else Representations(content[0].node))
      + RepresentationsIn(content[1..])
  }

  ghost predicate Addressed(content: seq<Content>) {
    exists i :: 0 <= i < |content| && IsAddressing(content[i])
  }

  /** Wherever there is addressing, there is a Representation at that level or below. */
  ghost predicate AllReach(n: Node)
    decreases ContentSize(n.content), 1
  {
    (Addressed(n.content) ==> Representations(n) > 0) && AllReachIn(n.content)
  }

  ghost predicate AllReachIn(content: seq<Content>)
    decreases ContentSize(content), 0
  {
    content == []
    || ((content[0].Element? && !IsBase(content[0]) && !IsAddressing(content[0]) ==> AllReach(content[0].node)) && AllReachIn(content[1..]))
  }

  lemma {:induction false} ScanLocal(content: seq<Content>)
    requires Scan(content).Ok?
    ensures Scan(content).value.local.Some? <==> Addressed(content)
  {
    hide IsAddressing, IsBase, ValidNamespace;
    if content != [] {
      BaseIsNotAddressing(content[0]);
      ScanLocal(content[1..]);
      if Addressed(content[1..]) {
        var i :| 0 <= i < |content[1..]| && IsAddressing(content[1..][i]);
        assert IsAddressing(content[i + 1]);
      }
      if Addressed(content) {
        var i :| 0 <= i < |content| && IsAddressing(content[i]);
        assert i > 0 ==> IsAddressing(content[1..][i - 1]);
      }
    }
  }

  lemma BaseIsNotAddressing(c: Content)
    ensures !(IsBase(c) && IsAddressing(c))
  {
  }

  /** In an accepted manifest no level has addressing that reaches no Representation. */
  lemma {:induction false} AddressingReaches(n: Node, base: string, inherited: Option<Node>, env: Env)
    requires RewriteNode(n, base, inherited, env).Ok?
    ensures RewriteNode(n, base, inherited, env).value.representations == Representations(n) && AllReach(n)
    decreases ContentSize(n.content), 1
  {
    hide Scan, BaseBelow, Placed, RewriteOwn, RewriteContent, Merge, ValidNamespace, Unsupported, NodeText, IsAddressing, IsBase;
    ScanLocal(n.content);
    if n.name.local == "Location" {
      LocationIsText(n, env);
    } else {
      var level := Scan(n.content).value;
      var below := BaseBelow(level, base, env).value;
      var effective := Merge(inherited, level.local);
      var placed := Placed(n, effective, below.base, env).value;
      var own := RewriteOwn(n, below.base, env).value;
      var down := if placed.Some? then placed else effective;
      ContentReaches(n.content, Context(below.base, below.text, down, placed, own.1), env);
    }
  }

  lemma LocationIsText(n: Node, env: Env)
    requires RewriteLocation(n, env).Ok? && n.name.local == "Location"
    ensures Representations(n) == 0 && AllReach(n) && !Addressed(n.content)
  {
    NodeTextExactly(n, NodeText(n).value);
    OnlyText(n.content);
  }

  lemma {:induction false} OnlyText(content: seq<Content>)
    requires forall i :: 0 <= i < |content| ==> content[i].Text?
    ensures RepresentationsIn(content) == 0 && AllReachIn(content) && !Addressed(content)
  {
    if content != [] {
      OnlyText(content[1..]);
    }
  }

  lemma {:induction false} ContentReaches(content: seq<Content>, c: Context, env: Env)
    requires RewriteContent(content, c, env).Ok?
    ensures RewriteContent(content, c, env).value.representations == RepresentationsIn(content) && AllReachIn(content)
    decreases ContentSize(content), 0
  {
    hide RewriteNode, RewriteEvent, IsAddressing, IsBase;
    if content != [] {
      ContentReaches(content[1..], c, env);
      if !(content[0].Text? || IsBase(content[0]) || IsAddressing(content[0])) {
        var child := if c.events then RewriteEvent(content[0].node, c.base, env) else Ok(content[0].node);
        AddressingReaches(child.value, c.base, c.effective, env);
        SameBelow(child.value, content[0].node, c, env);
      }
    }
  }

  lemma SameBelow(child: Node, n: Node, c: Context, env: Env)
    requires (child.content == n.content && child == n) || (c.events && RewriteEvent(n, c.base, env) == Ok(child) && child.content == n.content)
    requires AllReach(child)
    ensures Representations(child) == Representations(n) && AllReach(n)
  {
    hide Leaf;
    if child != n {
      EventName(n, c.base, env);
    }
  }

  lemma EventName(n: Node, base: string, env: Env)
    requires RewriteEvent(n, base, env).Ok?
    ensures RewriteEvent(n, base, env).value.name == n.name && n.name.local == "Event"
  {
    hide AttrIndex, Leaf;
  }
}
