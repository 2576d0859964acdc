/**
 Rewriting an HLS manifest line by line (compatible profile). How a URI is rewritten,
 and what Go's url package says about it, are parameters; errors are None.
 */
module HlsLines {
  import opened Wrappers
  import opened TextSpans
  import opened HlsAttributes

  const MAX_LINE := 0x10_0000

  datatype Kind = Resource | Manifest

  /** uri may depend on the line and the attribute it is asked for, as a session with limits does. */
  datatype Rewriter = Rewriter(uri: (nat, nat, string, Kind) -> Option<string>, urlOk: string -> bool,
                               relative: string -> bool)

  // ---------- newlines ----------

  predicate TextByte(c: char) {
    (c >= ' ' || c == '\t' || c == '\r' || c == '\n') && c != 0x7f as char
  }

  predicate HasCrLf(text: string) {
    exists i :: 0 <= i < |text| && text[i] == '\r'
  }

  predicate HasLf(text: string) {
    exists i :: 0 <= i < |text| && text[i] == '\n' && (i == 0 || text[i - 1] != '\r')
  }

  predicate PairedAt(text: string, i: nat)
    requires i < |text|
  {
    text[i] == '\r' ==> i + 1 < |text| && text[i + 1] == '\n'
  }

  /** No control characters, no carriage return on its own, and one style of newline. */
  predicate CleanText(text: string) {
    && text != "" && All(text, TextByte)
    && (forall i :: 0 <= i < |text| ==> PairedAt(text, i))
    && !(HasCrLf(text) && HasLf(text))
  }

  function Separator(text: string): string {
    if HasCrLf(text) then "\r\n" else "\n"
  }

  function Split(text: string, sep: string): (lines: seq<string>)
    requires sep != ""
    ensures lines != []
    decreases |text|
  {
    if text == "" then [""]
    else if sep <= text then [""] + Split(text[|sep|..], sep)
    else
      var rest := Split(text[1..], sep);
      [[text[0]] + rest[0]] + rest[1..]
  }

  function Join(lines: seq<string>, sep: string): string {
    if lines == [] then ""
    else if |lines| == 1 then lines[0]
    else lines[0] + sep + Join(lines[1..], sep)
  }

  // ---------- tags ----------

  function ColonAt(line: string): (i: int)
    ensures -1 <= i < |line|
    ensures i >= 0 ==> line[i] == ':'
    ensures forall j :: 0 <= j < (if i < 0 then |line| else i) ==> line[j] != ':'
  {
    if line == "" then -1
    else if line[0] == ':' then 0
    else
      var rest := ColonAt(line[1..]);
      assert forall j :: 0 < j < |line| ==> line[j] == line[1..][j - 1];
      if rest < 0 then -1 else rest + 1
  }

  function TagOf(line: string): string {
    if ColonAt(line) >= 0 then line[..ColonAt(line)] else line
  }

  predicate KnownTag(tag: string) {
    tag in {
      "#EXTINF", "#EXT-X-VERSION", "#EXT-X-DEFINE", "#EXT-X-START", "#EXT-X-INDEPENDENT-SEGMENTS",
      "#EXT-X-KEY", "#EXT-X-BYTERANGE", "#EXT-X-DISCONTINUITY", "#EXT-X-MAP", "#EXT-X-PROGRAM-DATE-TIME",
      "#EXT-X-GAP", "#EXT-X-BITRATE", "#EXT-X-DATERANGE", "#EXT-X-TARGETDURATION", "#EXT-X-MEDIA-SEQUENCE",
      "#EXT-X-DISCONTINUITY-SEQUENCE", "#EXT-X-ENDLIST", "#EXT-X-PLAYLIST-TYPE", "#EXT-X-I-FRAMES-ONLY",
      "#EXT-X-ALLOW-CACHE", "#EXT-X-PART", "#EXT-X-SERVER-CONTROL", "#EXT-X-PART-INF", "#EXT-X-PRELOAD-HINT",
      "#EXT-X-RENDITION-REPORT", "#EXT-X-SKIP", "#EXT-X-MEDIA", "#EXT-X-STREAM-INF", "#EXT-X-I-FRAME-STREAM-INF",
      "#EXT-X-SESSION-DATA", "#EXT-X-SESSION-KEY", "#EXT-X-CONTENT-STEERING", "#EXT-X-IMAGE-STREAM-INF"
    }
  }

  predicate MultivariantTag(tag: string) {
    tag in {"#EXT-X-MEDIA", "#EXT-X-STREAM-INF", "#EXT-X-I-FRAME-STREAM-INF", "#EXT-X-IMAGE-STREAM-INF",
            "#EXT-X-SESSION-DATA", "#EXT-X-SESSION-KEY"}
  }

  predicate MediaTag(tag: string) {
    tag in {
      "#EXT-X-TARGETDURATION", "#EXT-X-MEDIA-SEQUENCE", "#EXT-X-DISCONTINUITY-SEQUENCE", "#EXT-X-ENDLIST",
      "#EXT-X-PLAYLIST-TYPE", "#EXT-X-I-FRAMES-ONLY", "#EXT-X-PART-INF", "#EXT-X-SERVER-CONTROL",
      "#EXT-X-PRELOAD-HINT", "#EXT-X-RENDITION-REPORT", "#EXT-X-SKIP", "#EXTINF", "#EXT-X-BYTERANGE",
      "#EXT-X-DISCONTINUITY", "#EXT-X-KEY", "#EXT-X-MAP", "#EXT-X-PROGRAM-DATE-TIME", "#EXT-X-DATERANGE",
      "#EXT-X-GAP", "#EXT-X-BITRATE", "#EXT-X-PART"
    }
  }

  predicate SingletonTag(tag: string) {
    tag in {"#EXT-X-VERSION", "#EXT-X-START", "#EXT-X-INDEPENDENT-SEGMENTS", "#EXT-X-SKIP"}
  }

  /** The attributes of a tag that hold URIs; a tag without any is left alone. */
  function UriNames(tag: string): set<string> {
    if tag in {"#EXT-X-KEY", "#EXT-X-MAP", "#EXT-X-MEDIA", "#EXT-X-I-FRAME-STREAM-INF", "#EXT-X-SESSION-KEY",
               "#EXT-X-SESSION-DATA", "#EXT-X-IMAGE-STREAM-INF", "#EXT-X-RENDITION-REPORT", "#EXT-X-PRELOAD-HINT",
               "#EXT-X-PART"} then {"URI"}
    else if tag == "#EXT-X-DATERANGE" then {"X-ASSET-URI", "X-URI"}
    else {}
  }

  function AttributeKind(tag: string, name: string): Kind {
    if tag in {"#EXT-X-MEDIA", "#EXT-X-I-FRAME-STREAM-INF", "#EXT-X-IMAGE-STREAM-INF", "#EXT-X-RENDITION-REPORT"} then
      Manifest
    else if tag == "#EXT-X-DATERANGE" && name == "X-ASSET-URI" then Manifest
    else Resource
  }

  /** Upper case of ASCII letters; Go folds a few letters beyond ASCII onto them as well. */
  function Upper(s: string): (u: string)
    ensures |u| == |s|
  {
    seq(|s|, i requires 0 <= i < |s| => if 'a' <= s[i] <= 'z' then (s[i] as int - 32) as char else s[i])
  }

  function ValueOf(attrs: seq<Attr>, name: string): Option<string> {
    if attrs == [] then None
    else if attrs[0].name == name then Some(attrs[0].content)
    else ValueOf(attrs[1..], name)
  }

  predicate HasUri(attrs: seq<Attr>) {
    ValueOf(attrs, "URI").Some? && ValueOf(attrs, "URI").value != ""
  }

  predicate IdentityAes(attrs: seq<Attr>, keyMethod: string) {
    Upper(keyMethod) == "AES-128" && (ValueOf(attrs, "KEYFORMAT").Some? ==> ValueOf(attrs, "KEYFORMAT").value == "identity")
  }

  /** What each tag asks of its attributes. */
  predicate TagAccepts(rw: Rewriter, tag: string, attrs: seq<Attr>) {
    var uri := ValueOf(attrs, "URI");
    var keyMethod := ValueOf(attrs, "METHOD");
    var kind := ValueOf(attrs, "TYPE");
    if tag == "#EXT-X-KEY" then
      keyMethod.Some?
      && if Upper(keyMethod.value) == "NONE" then uri.None? else IdentityAes(attrs, keyMethod.value) && HasUri(attrs)
    else if tag == "#EXT-X-SESSION-KEY" then
      keyMethod.Some? && Upper(keyMethod.value) != "NONE" && IdentityAes(attrs, keyMethod.value) && HasUri(attrs)
    else if tag == "#EXT-X-MEDIA" then
      kind.Some?
      && (Upper(kind.value) == "SUBTITLES" ==> HasUri(attrs))
      && (Upper(kind.value) == "CLOSED-CAPTIONS" ==> uri.None?)
    else if tag == "#EXT-X-SESSION-DATA" then
      ValueOf(attrs, "DATA-ID").Some? && uri.Some? != ValueOf(attrs, "VALUE").Some?
    else if tag == "#EXT-X-PRELOAD-HINT" then
      kind.Some? && Upper(kind.value) in {"PART", "MAP"} && HasUri(attrs)
    else if tag == "#EXT-X-RENDITION-REPORT" then HasUri(attrs) && rw.relative(uri.value)
    else tag == "#EXT-X-DATERANGE" || HasUri(attrs)
  }

  // ---------- URIs ----------

  predicate IsVisible(c: char) {
    c > ' ' && c != 0x7f as char
  }

  predicate HasVariable(value: string) {
    exists i :: 0 <= i < |value| - 1 && value[i] == '{' && value[i + 1] == '$'
  }

  /** The checks before a URI is given to the session; what needs URL parsing is in urlOk. */
  predicate UriOk(rw: Rewriter, value: string) {
    value != "" && All(value, IsVisible) && '\\' !in value && !HasVariable(value) && rw.urlOk(value)
  }

  function RewriteUri(rw: Rewriter, line: nat, attr: nat, value: string, kind: Kind): Option<string> {
    if UriOk(rw, value) then rw.uri(line, attr, value, kind) else None
  }

  /** The content of the i-th attribute after rewriting; None if it cannot be. */
  function NewContent(rw: Rewriter, line: nat, tag: string, attrs: seq<Attr>, i: nat): Option<string>
    requires i < |attrs|
  {
    var a := attrs[i];
    if a.name !in UriNames(tag) then Some(a.content)
    else if !a.quoted then None
    else RewriteUri(rw, line, i, a.content, AttributeKind(tag, a.name))
  }

  /** All attributes with their URIs rewritten at once. */
  function NewAttrs(rw: Rewriter, line: nat, tag: string, attrs: seq<Attr>, i: nat): Option<seq<Attr>>
    requires i <= |attrs|
    decreases |attrs| - i
  {
    if i == |attrs| then Some([])
    else
      var content := NewContent(rw, line, tag, attrs, i);
      var rest := NewAttrs(rw, line, tag, attrs, i + 1);
      if content.None? || rest.None? then None else Some([attrs[i].(content := content.value)] + rest.value)
  }

  function RewriteTagLine(rw: Rewriter, index: nat, line: string): Option<string> {
    var colon := ColonAt(line);
    if colon < 0 || colon + 1 >= |line| then None
    else
      match Parse(line[colon + 1..])
      case None => None
      case Some(attrs) =>
        if !TagAccepts(rw, line[..colon], attrs) then None
        else
          match NewAttrs(rw, index, line[..colon], attrs, 0)
          case None => None
          case Some(out) => Some(line[..colon + 1] + PrintAll(out))
  }

  // ---------- the line machine ----------

  datatype State = State(singletons: set<string>, multivariant: bool, media: bool, expectUri: bool, unscopedUri: bool)

  function Digits(s: string): Option<nat>
    decreases |s|
  {
    if s == "" then None
    else if !('0' <= s[|s| - 1] <= '9') then None
    else
      var last := s[|s| - 1] as int - '0' as int;
      if |s| == 1 then Some(last)
      else
        match Digits(s[..|s| - 1])
        case None => None
        case Some(n) => Some(10 * n + last)
  }

  /** A decimal number, perhaps signed, from 1 to 13. */
  predicate VersionOk(line: string) {
    var text := if "#EXT-X-VERSION:" <= line then line[|"#EXT-X-VERSION:"|..] else line;
    var unsigned := if text != "" && text[0] == '+' then text[1..] else text;
    Digits(unsigned).Some? && 1 <= Digits(unsigned).value <= 13
  }

  predicate IsUriLine(line: string) {
    line != "" && line[0] != '#'
  }

  predicate IsTagLine(line: string) {
    line != "" && line[0] == '#'
  }

  datatype Stepped = Stepped(state: State, line: string)

  function UriLineStep(rw: Rewriter, index: nat, st: State, line: string): Option<Stepped> {
    if st.multivariant && !st.expectUri then None
    else
      var kind := if st.expectUri then Manifest else Resource;
      var next := if st.expectUri then st.(expectUri := false) else st.(unscopedUri := true);
      match RewriteUri(rw, index, 0, line, kind)
      case None => None
      case Some(out) => Some(Stepped(next, out))
  }

  /** The state after a tag, if it may stand there; versionOk is asked of EXT-X-VERSION only. */
  function TagStateOf(st: State, tag: string, versionOk: bool): Option<State> {
    if st.expectUri then None
    else if "#EXT" <= tag && !KnownTag(tag) then None
    else if tag in {"#EXT-X-DEFINE", "#EXT-X-CONTENT-STEERING"} then None
    else if SingletonTag(tag) && tag in st.singletons then None
    else if tag == "#EXT-X-VERSION" && !versionOk then None
    else if MultivariantTag(tag) && st.unscopedUri then None
    else
      var next := State(if SingletonTag(tag) then st.singletons + {tag} else st.singletons,
                        st.multivariant || MultivariantTag(tag), st.media || MediaTag(tag),
                        tag == "#EXT-X-STREAM-INF", st.unscopedUri);
      if next.multivariant && next.media then None else Some(next)
  }

  function TagState(st: State, line: string): Option<State> {
    TagStateOf(st, TagOf(line), VersionOk(line))
  }

  /** An interstitial asset list cannot be served from another place. */
  predicate NoAssets(attrs: seq<Attr>) {
    forall i :: 0 <= i < |attrs| ==> attrs[i].name != "X-ASSET-LIST" && attrs[i].name != "X-ASSET-URI"
  }

  predicate DateRangeOk(line: string) {
    TagOf(line) == "#EXT-X-DATERANGE" ==>
      var attrs := Parse(line[ColonAt(line) + 1..]); attrs.Some? && NoAssets(attrs.value)
  }

  function TagLineStep(rw: Rewriter, index: nat, st: State, line: string): Option<Stepped> {
    match TagState(st, line)
    case None => None
    case Some(next) =>
      if !DateRangeOk(line) then None
      else if UriNames(TagOf(line)) == {} then Some(Stepped(next, line))
      else
        match RewriteTagLine(rw, index, line)
        case None => None
        case Some(out) => Some(Stepped(next, out))
  }

  function Step(rw: Rewriter, index: nat, st: State, line: string): Option<Stepped> {
    if |line| > MAX_LINE then None
    else if index == 0 then Some(Stepped(st, line))
    else if line == "" then if st.expectUri then None else Some(Stepped(st, line))
    else if line[0] != '#' then UriLineStep(rw, index, st, line)
    else TagLineStep(rw, index, st, line)
  }

  datatype Ran = Ran(state: State, lines: seq<string>)

  function Run(rw: Rewriter, index: nat, st: State, lines: seq<string>): Option<Ran>
    decreases |lines|
  {
    if lines == [] then Some(Ran(st, []))
    else
      match Step(rw, index, st, lines[0])
      case None => None
      case Some(s) =>
        match Run(rw, index + 1, s.state, lines[1..])
        case None => None
        case Some(r) => Some(Ran(r.state, [s.line] + r.lines))
  }

  function Start(): State {
    State({}, false, false, false, false)
  }

  /** The rewritten lines of an accepted manifest and the state after them. */
  function Transform(rw: Rewriter, maxLines: nat, text: string): Option<Ran> {
    if !CleanText(text) then None
    else
      var lines := Split(text, Separator(text));
      if |lines| > maxLines || lines[0] != "#EXTM3U" then None
      else
        match Run(rw, 0, Start(), lines)
        case None => None
        case Some(r) => if (!r.state.multivariant && !r.state.media) || r.state.expectUri then None else Some(r)
  }

  /** The rewritten manifest, if it is accepted and within the output limit. */
  function Rewrite(rw: Rewriter, maxLines: nat, limit: nat, text: string): Option<string> {
    match Transform(rw, maxLines, text)
    case None => None
    case Some(r) =>
      var out := Join(r.lines, Separator(text));
      if |out| <= limit then Some(out) else None
  }
}
