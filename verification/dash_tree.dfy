/** Elements of an MPD document and the element attributes the rewriter reads. */
module DashTree {
  import opened Wrappers

  const MPD_SPACE := "urn:mpeg:dash:schema:mpd:2011"
  const XLINK_SPACE := "http://www.w3.org/1999/xlink"
  const XML_SPACE := "http://www.w3.org/XML/1998/namespace"
  const MAX_STRING := 1048576

  datatype Name = Name(space: string, local: string)

  datatype Attr = Attr(name: Name, value: string)

  datatype Node = Node(name: Name, attrs: seq<Attr>, content: seq<Content>)

  datatype Content = Element(node: Node) | Text(text: string)

  predicate Standard(n: Node) {
    n.name.space == MPD_SPACE
  }

  predicate IsNamed(n: Node, local: string) {
    Standard(n) && n.name.local == local
  }

  predicate AddressingName(local: string) {
    local == "SegmentTemplate" || local == "SegmentList" || local == "SegmentBase"
  }

  predicate IsAddressing(c: Content) {
    c.Element? && Standard(c.node) && AddressingName(c.node.name.local)
  }

  predicate IsBase(c: Content) {
    c.Element? && IsNamed(c.node, "BaseURL")
  }

  predicate IsRepresentation(n: Node) {
    IsNamed(n, "Representation")
  }

  predicate AttrAllowed(a: Attr) {
    && !(a.name.space == XLINK_SPACE && a.name.local == "href")
    && (a.name.space == "" || (a.name.space == XML_SPACE && a.name.local == "lang"))
  }

  /** The compatible profile admits MPD elements with their own attributes only. */
  predicate ValidNamespace(n: Node) {
    Standard(n) && forall i :: 0 <= i < |n.attrs| ==> AttrAllowed(n.attrs[i])
  }

  // ---------- text ----------

  predicate Space(c: char) {
    var n := c as int;
    (9 <= n <= 13) || n == 0x20 || n == 0x85 || n == 0xa0 || n == 0x1680 || (0x2000 <= n <= 0x200a)
    || n == 0x2028 || n == 0x2029 || n == 0x202f || n == 0x205f || n == 0x3000
  }

  function TrimLeft(s: string): string {
    if s != "" && Space(s[0]) then TrimLeft(s[1..]) else s
  }

  function TrimRight(s: string): string {
    if s != "" && Space(s[|s| - 1]) then TrimRight(s[..|s| - 1]) else s
  }

  function Trim(s: string): string {
    TrimRight(TrimLeft(s))
  }

  function TextsOf(content: seq<Content>): Option<string> {
    if content == [] then Some("")
    else if content[0].Element? then None
    else
      match TextsOf(content[1..])
      case None => None
      case Some(rest) => Some(content[0].text + rest)
  }

  /** The text of a URL element; nested elements, empty and overlong text are errors. */
  function NodeText(n: Node): Result<string> {
    match TextsOf(n.content)
    case None => Err
    case Some(s) => if Trim(s) == "" || |Trim(s)| > MAX_STRING then Err else Ok(Trim(s))
  }

  function WithText(n: Node, s: string): Node {
    n.(content := [Text(s)])
  }

  // ---------- attributes ----------

  ghost predicate HasAttr(attrs: seq<Attr>, local: string, i: nat) {
    i < |attrs| && attrs[i].name == Name("", local)
  }

  /** The position of an attribute from a given position on; an error if it is foreign or repeated. */
  function AttrFrom(attrs: seq<Attr>, local: string, i: nat, seen: Option<nat>): Result<Option<nat>>
    requires i <= |attrs| && (seen.Some? ==> seen.value < i)
    decreases |attrs| - i
  {
    if i == |attrs| then Ok(seen)
    else if attrs[i].name.local != local then AttrFrom(attrs, local, i + 1, seen)
    else if attrs[i].name.space != "" || seen.Some? then Err
    else AttrFrom(attrs, local, i + 1, Some(i))
  }

  function AttrIndex(attrs: seq<Attr>, local: string): Result<Option<nat>> {
    AttrFrom(attrs, local, 0, None)
  }

  lemma {:induction false} AttrFromFound(attrs: seq<Attr>, local: string, i: nat, seen: Option<nat>)
    requires i <= |attrs| && (seen.Some? ==> seen.value < i && attrs[seen.value].name == Name("", local))
    ensures var r := AttrFrom(attrs, local, i, seen);
      && (r.Ok? && r.value.Some? ==> HasAttr(attrs, local, r.value.value))
      && (r.Ok? ==> forall j :: i <= j < |attrs| && attrs[j].name.local == local ==> r.value == Some(j))
      && (r.Ok? && seen.Some? ==> r.value == seen)
      && (r.Err? ==> exists j :: i <= j < |attrs| && attrs[j].name.local == local)
    decreases |attrs| - i
  {
    if i < |attrs| {
      if attrs[i].name.local != local {
        AttrFromFound(attrs, local, i + 1, seen);
      } else if attrs[i].name.space == "" && seen.None? {
        AttrFromFound(attrs, local, i + 1, Some(i));
      }
    }
  }

  method FindAttribute(attrs: seq<Attr>, local: string) returns (r: Result<Option<nat>>)
    ensures r == AttrIndex(attrs, local)
    ensures r.Ok? && r.value.Some? ==> HasAttr(attrs, local, r.value.value)
    ensures r.Ok? && r.value.None? ==> forall j :: 0 <= j < |attrs| ==> attrs[j].name.local != local
  {
    AttrFromFound(attrs, local, 0, None);
    var index: Option<nat> := None;
    var candidate := 0;
    while candidate < |attrs|
      invariant 0 <= candidate <= |attrs|
      invariant index.Some? ==> index.value < candidate
      invariant AttrIndex(attrs, local) == AttrFrom(attrs, local, candidate, index)
    {
      if attrs[candidate].name.local != local {
        candidate := candidate + 1;
        continue;
      }
      if attrs[candidate].name.space != "" {
        return Err;
      }
      if index.Some? {
        return Err;
      }
      index := Some(candidate);
      candidate := candidate + 1;
    }
    r := Ok(index);
  }

  function AttrValue(n: Node, local: string): Result<Option<string>> {
    match AttrIndex(n.attrs, local)
    case Err => Err
    case Ok(None) => Ok(None)
    case Ok(Some(i)) => if i < |n.attrs| then Ok(Some(n.attrs[i].value)) else Err
  }

  function SetAttr(n: Node, i: nat, value: string): Node {
    if i < |n.attrs| then n.(attrs := n.attrs[i := n.attrs[i].(value := value)]) else n
  }

  /** Rewrites one URL attribute, if the element has it. */
  function RewriteAttr(n: Node, local: string, rewrite: string -> Option<string>): Result<Node> {
    match AttrIndex(n.attrs, local)
    case Err => Err
    case Ok(None) => Ok(n)
    case Ok(Some(i)) =>
      if i >= |n.attrs| then Err
      else
        match rewrite(n.attrs[i].value)
        case None => Err
        case Some(v) => Ok(SetAttr(n, i, v))
  }

  // ---------- white space and namespaces, spelled out ----------

  predicate Spaces(s: string) {
    forall i :: 0 <= i < |s| ==> Space(s[i])
  }

  lemma {:induction false} LeftExactly(s: string) returns (a: string)
    ensures s == a + TrimLeft(s) && Spaces(a) && (TrimLeft(s) != "" ==> !Space(TrimLeft(s)[0]))
    decreases |s|
  {
    a := "";
    if s != "" && Space(s[0]) {
      var rest := LeftExactly(s[1..]);
      a := [s[0]] + rest;
    }
  }

  lemma {:induction false} RightExactly(s: string) returns (b: string)
    ensures s == TrimRight(s) + b && Spaces(b) && (TrimRight(s) != "" ==> !Space(TrimRight(s)[|TrimRight(s)| - 1]))
    decreases |s|
  {
    b := "";
    if s != "" && Space(s[|s| - 1]) {
      var rest := RightExactly(s[..|s| - 1]);
      b := rest + [s[|s| - 1]];
      assert s == s[..|s| - 1] + [s[|s| - 1]];
    }
  }

  /** White space, as Unicode has it, is cut off at both ends and nowhere else. */
  lemma TrimExactly(s: string) returns (a: string, b: string)
    ensures var t := Trim(s);
      && s == a + t + b && Spaces(a) && Spaces(b)
      && (t != "" ==> !Space(t[0]) && !Space(t[|t| - 1]))
  {
    a := LeftExactly(s);
    b := RightExactly(TrimLeft(s));
    var t := Trim(s);
    assert TrimLeft(s) == t + b;
    assert a + (t + b) == a + t + b;
    assert t != "" ==> t[0] == TrimLeft(s)[0];
  }

  /** Horizontal tab to carriage return, and the other white space of Unicode by number. */
  lemma SpacesAre(c: char)
    ensures Space(c) <==>
      c in {'\t', '\n', 0x0b as char, 0x0c as char, '\r', ' ', 0x85 as char, 0xa0 as char, 0x1680 as char, 0x2028 as char,
            0x2029 as char, 0x202f as char, 0x205f as char, 0x3000 as char} || 0x2000 as char <= c <= 0x200a as char
  {
  }

  /** The elements that are admitted are MPD elements whose attributes are in no namespace, or xml:lang. */
  lemma AdmittedExactly(n: Node)
    ensures ValidNamespace(n) <==>
      && n.name.space == "urn:mpeg:dash:schema:mpd:2011"
      && forall a :: a in n.attrs ==>
           a.name.space == "" || a.name == Name("http://www.w3.org/XML/1998/namespace", "lang")
  {
    SpacesDiffer();
    if forall a :: a in n.attrs ==> a.name.space == "" || a.name == Name(XML_SPACE, "lang") {
      forall i | 0 <= i < |n.attrs| ensures n.attrs[i].name.space == "" || n.attrs[i].name == Name(XML_SPACE, "lang") {
        assert n.attrs[i] in n.attrs;
      }
    }
  }

  lemma SpacesDiffer()
    ensures XLINK_SPACE != XML_SPACE && XLINK_SPACE != ""
  {
    assert |XLINK_SPACE| != |XML_SPACE|;
  }
}
