/** Rewriting an MPD tree in the compatible profile, and what its segment addressing means. */
module DashPushdown {
  import opened Wrappers
  import opened DashTree
  import opened DashValues
  import opened DashAddressing

  /** What the rewriter asks of the rest of the proxy; a response is rewritten with one session. */
  datatype Env = Env(
    reference: (string, string) -> Option<(string, string)>,  // value, base -> rewritten value, resolved base
    template: (string, string, Bindings) -> Option<string>,   // value, base, bindings -> rewritten template
    location: string -> Option<string>,                       // an MPD location
    timestamp: string -> bool)                                // a date in RFC 3339

  function Reference(env: Env, base: string): string -> Option<string> {
    v => match env.reference(v, base) { case None => None case Some(p) => Some(p.0) }
  }

  function TemplateAt(env: Env, base: string, b: Bindings): string -> Option<string> {
    v => env.template(v, base, b)
  }

  // ---------- the addressing of one Representation ----------

  predicate Blank(c: Content) {
    c.Text? && Trim(c.text) == ""
  }

  predicate Leaf(n: Node) {
    ValidNamespace(n) && forall i :: 0 <= i < |n.content| ==> Blank(n.content[i])
  }

  predicate Timeline(n: Node) {
    && ValidNamespace(n)
    && forall i :: 0 <= i < |n.content| ==>
        Blank(n.content[i]) || (n.content[i].Element? && IsNamed(n.content[i].node, "S") && Leaf(n.content[i].node))
  }

  function RewriteAttrs(n: Node, names: seq<string>, rewrite: string -> Option<string>): Result<Node>
    decreases |names|
  {
    if names == [] then Ok(n)
    else
      match RewriteAttr(n, names[0], rewrite)
      case Err => Err
      case Ok(m) => RewriteAttrs(m, names[1..], rewrite)
  }

  function LeafRewritten(r: Result<Node>): Result<Node> {
    match r
    case Err => Err
    case Ok(n) => if Leaf(n) then Ok(n) else Err
  }

  function RewriteChild(kind: string, n: Node, base: string, env: Env): Result<Node> {
    if !ValidNamespace(n) then Err
    else if n.name.local == "SegmentURL" then
      if kind != "SegmentList" then Err
      else LeafRewritten(RewriteAttrs(n, ["media", "index"], Reference(env, base)))
    else if n.name.local == "Initialization" || n.name.local == "RepresentationIndex" || n.name.local == "BitstreamSwitching" then
      if kind == "SegmentBase" && n.name.local == "BitstreamSwitching" then Err
      else LeafRewritten(RewriteAttrs(n, ["sourceURL"], Reference(env, base)))
    else if n.name.local == "SegmentTimeline" then
      if kind == "SegmentBase" || !Timeline(n) then Err else Ok(n)
    else Err
  }

  function RewriteChildren(kind: string, content: seq<Content>, base: string, env: Env): Result<seq<Content>> {
    if content == [] then Ok([])
    else
      match RewriteChildren(kind, content[1..], base, env)
      case Err => Err
      case Ok(rest) =>
        if content[0].Text? then
          if Blank(content[0]) then Ok([content[0]] + rest) else Err
        else
          match RewriteChild(kind, content[0].node, base, env)
          case Err => Err
          case Ok(n) => Ok([Element(n)] + rest)
  }

  /** The URLs of one Representation's addressing, resolved against its base. */
  function RewriteAddressing(n: Node, base: string, b: Bindings, env: Env): Result<Node> {
    if !ValidNamespace(n) || !AddressingName(n.name.local) then Err
    else
      var names := if n.name.local == "SegmentTemplate" then ["media", "initialization", "index", "bitstreamSwitching"] else [];
      match RewriteAttrs(n, names, TemplateAt(env, base, b))
      case Err => Err
      case Ok(m) =>
        match RewriteChildren(n.name.local, m.content, base, env)
        case Err => Err
        case Ok(content) => Ok(m.(content := content))
  }

  // ---------- one level of the tree ----------

  predicate Unsupported(n: Node) {
    var l := n.name.local;
    l == "PatchLocation" || l == "ContentSteering" || l == "ImportedMPD" || l == "Metrics" || l == "Reporting"
    || l == "ContentProtection"
  }

  /** The BaseURL and the addressing element of one level. */
  datatype Level = Level(base: Option<Node>, local: Option<Node>)

  function Scan(content: seq<Content>): Result<Level> {
    if content == [] then Ok(Level(None, None))
    else
      match Scan(content[1..])
      case Err => Err
      case Ok(rest) =>
        if IsBase(content[0]) then
          if !ValidNamespace(content[0].node) || rest.base.Some? then Err
          else Ok(rest.(base := Some(content[0].node)))
        else if IsAddressing(content[0]) then
          if !ValidNamespace(content[0].node) || rest.local.Some? then Err
          else Ok(rest.(local := Some(content[0].node)))
        else Ok(rest)
  }

  /** The rewritten BaseURL text of a level, if it has one, and the base below it. */
  datatype Below = Below(text: Option<string>, base: string)

  function BaseBelow(level: Level, base: string, env: Env): Result<Below> {
    match level.base
    case None => Ok(Below(None, base))
    case Some(n) =>
      match NodeText(n)
      case Err => Err
      case Ok(value) =>
        match env.reference(value, base)
        case None => Err
        case Some(p) => Ok(Below(Some(p.0), p.1))
  }

  function BindingsOf(n: Node): Result<Bindings> {
    match AttrValue(n, "id")
    case Err => Err
    case Ok(id) =>
      match AttrValue(n, "bandwidth")
      case Err => Err
      case Ok(bw) =>
        Ok(Bindings(if id.Some? then id.value else "", if bw.Some? then bw.value else ""))
  }

  /** What is put into a Representation. */
  function Placed(n: Node, effective: Option<Node>, base: string, env: Env): Result<Option<Node>> {
    if !IsRepresentation(n) || effective.None? then Ok(None)
    else
      match BindingsOf(n)
      case Err => Err
      case Ok(b) =>
        match RewriteAddressing(effective.value, base, b, env)
        case Err => Err
        case Ok(a) => Ok(Some(a))
  }

  // ---------- elements with a URL of their own ----------

  predicate Prefixed(s: string, kind: string) {
    s == "urn:mpeg:dash:utc:" + kind + ":2012" || s == "urn:mpeg:dash:utc:" + kind + ":2014"
  }

  function RewriteTiming(n: Node, base: string, env: Env): Result<Node> {
    match AttrValue(n, "schemeIdUri")
    case Err => Err
    case Ok(None) => Err
    case Ok(Some(scheme)) =>
      match AttrValue(n, "value")
      case Err => Err
      case Ok(None) => Err
      case Ok(Some(value)) =>
        if Prefixed(scheme, "direct") then
          if env.timestamp(value) then Ok(n) else Err
        else if Prefixed(scheme, "http-head") || Prefixed(scheme, "http-xsdate") || Prefixed(scheme, "http-iso")
                || scheme == "urn:mpeg:dash:utc:http-ntp:2014" then
          RewriteAttr(n, "value", Reference(env, base))
        else Err
  }

  /** Whether the events of an event stream carry callback URLs; an error for events it cannot serve. */
  function Callback(n: Node): Result<bool> {
    match AttrValue(n, "schemeIdUri")
    case Err => Err
    case Ok(None) => Ok(false)
    case Ok(Some(scheme)) =>
      match AttrValue(n, "value")
      case Err => Err
      case Ok(value) =>
        if scheme == "urn:mpeg:dash:event:2012" then
          if value == Some("1") then Ok(false) else Err
        else if scheme != "urn:mpeg:dash:event:callback:2015" then Ok(false)
        else if n.name.local == "InbandEventStream" then Err
        else Ok(true)
  }

  function RewriteEvent(n: Node, base: string, env: Env): Result<Node> {
    if !IsNamed(n, "Event") || !Leaf(n) then Err
    else
      match AttrValue(n, "messageData")
      case Err => Err
      case Ok(None) => Err
      case Ok(Some(_)) => RewriteAttr(n, "messageData", Reference(env, base))
  }

  /** The element itself with its own URL rewritten, and whether its children are callback events. */
  function RewriteOwn(n: Node, base: string, env: Env): Result<(Node, bool)> {
    if n.name.local == "UTCTiming" then
      match RewriteTiming(n, base, env)
      case Err => Err
      case Ok(m) => Ok((m, false))
    else if n.name.local == "EventStream" || n.name.local == "InbandEventStream" then
      match Callback(n)
      case Err => Err
      case Ok(events) => Ok((n, events))
    else Ok((n, false))
  }

  // ---------- the traversal ----------

  function Size(c: Content): (n: nat)
    ensures n >= 1
    ensures c.Element? ==> n > 1 + ContentSize(c.node.content)
  {
    match c
    case Text(_) => 1
    case Element(n) => 2 + ContentSize(n.content)
  }

  function ContentSize(content: seq<Content>): nat {
    if content == [] then 0 else Size(content[0]) + ContentSize(content[1..])
  }

  datatype Context = Context(
    base: string,                 // the base of the URLs below
    baseText: Option<string>,     // the new text of the level's BaseURL
    effective: Option<Node>,      // the addressing inherited below
    placed: Option<Node>,         // what replaces the level's addressing
    events: bool)                 // the children are callback events

  function PlacedAt(c: Context): seq<Content> {
    if c.placed.Some? then [Element(c.placed.value)] else []
  }

  datatype Rewritten = Rewritten(node: Node, representations: nat)

  function RewriteNode(n: Node, base: string, inherited: Option<Node>, env: Env): Result<Rewritten>
    decreases ContentSize(n.content), 1
  {
    if !ValidNamespace(n) || Unsupported(n) then Err
    else
      match Scan(n.content)
      case Err => Err
      case Ok(level) =>
        match BaseBelow(level, base, env)
        case Err => Err
        case Ok(below) =>
          var effective := Merge(inherited, level.local);
          match Placed(n, effective, below.base, env)
          case Err => Err
          case Ok(placed) =>
            match RewriteOwn(n, below.base, env)
            case Err => Err
            case Ok(own) =>
              if n.name.local == "Location" then
                match RewriteLocation(n, env)
                case Err => Err
                case Ok(m) => Ok(Rewritten(m, 0))
              else
                var down := if placed.Some? then placed else effective;
                match RewriteContent(n.content, Context(below.base, below.text, down, placed, own.1), env)
                case Err => Err
                case Ok(r) => Finished(n, level.local, placed, own.0, r)
  }

  function RewriteLocation(n: Node, env: Env): Result<Node> {
    match NodeText(n)
    case Err => Err
    case Ok(value) =>
      match env.location(value)
      case None => Err
      case Some(v) => Ok(WithText(n, v))
  }

  datatype RewrittenContent = RewrittenContent(content: seq<Content>, representations: nat)

  /** A level with addressing of its own but no Representation below is refused. */
  function Finished(n: Node, local: Option<Node>, placed: Option<Node>, own: Node, r: RewrittenContent): Result<Rewritten> {
    var count := r.representations + (if IsRepresentation(n) then 1 else 0);
    if !IsRepresentation(n) && local.Some? && count == 0 then Err
    else
      var content := r.content + (if placed.Some? && local.None? then [Element(placed.value)] else []);
      Ok(Rewritten(own.(content := content), count))
  }

  function RewriteContent(content: seq<Content>, c: Context, env: Env): Result<RewrittenContent>
    decreases ContentSize(content), 0
  {
    if content == [] then Ok(RewrittenContent([], 0))
    else
      match RewriteContent(content[1..], c, env)
      case Err => Err
      case Ok(rest) =>
        if content[0].Text? then
          if c.events && Trim(content[0].text) != "" then Err
          else Ok(rest.(content := [content[0]] + rest.content))
        else if IsBase(content[0]) then
          if c.events then Err
          else Ok(rest.(content := [Element(if c.baseText.Some? then WithText(content[0].node, c.baseText.value) else content[0].node)] + rest.content))
        else if IsAddressing(content[0]) then
          if c.events then Err
          else Ok(rest.(content := PlacedAt(c) + rest.content))
        else
          var child := if c.events then RewriteEvent(content[0].node, c.base, env) else Ok(content[0].node);
          if child.Err? || child.value.content != content[0].node.content then Err
          else
            match RewriteNode(child.value, c.base, c.effective, env)
            case Err => Err
            case Ok(r) => Ok(RewrittenContent([Element(r.node)] + rest.content, r.representations + rest.representations))
  }
}
