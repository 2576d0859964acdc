/**
 Exactly which manifests are rewritten, and into what: a reference definition that looks at
 the lines as they stand, without a machine that steps through them, and as what kind of
 resource each URI is asked for.
 */
module HlsExact {
  import opened Wrappers
  import opened TextSpans
  import opened HlsAttributes
  import opened HlsLines
  import opened HlsMeaning
  import HlsText

  // ---------- what a tag asks of its attributes ----------

  predicate IsNone(v: string) {
    Spelled(v, "NONE")
  }

  predicate IsAes(v: string) {
    Spelled(v, "AES-128")
  }

  predicate IsIdentity(v: string) {
    v == "identity"
  }

  predicate IsSubtitles(v: string) {
    Spelled(v, "SUBTITLES")
  }

  predicate IsClosedCaptions(v: string) {
    Spelled(v, "CLOSED-CAPTIONS")
  }

  predicate IsHint(v: string) {
    Spelled(v, "PART") || Spelled(v, "MAP")
  }

  predicate IsSome(v: string) {
    v != ""
  }

  ghost predicate Has(attrs: seq<Attr>, name: string) {
    exists i :: 0 <= i < |attrs| && attrs[i].name == name
  }

  ghost predicate Holds(attrs: seq<Attr>, name: string, p: string -> bool) {
    exists i :: 0 <= i < |attrs| && attrs[i].name == name && p(attrs[i].content)
  }

  ghost predicate ClearKey(attrs: seq<Attr>) {
    && Holds(attrs, "METHOD", IsAes) && Holds(attrs, "URI", IsSome)
    && (Has(attrs, "KEYFORMAT") ==> Holds(attrs, "KEYFORMAT", IsIdentity))
  }

  ghost predicate Asked(rw: Rewriter, tag: string, attrs: seq<Attr>) {
    match tag
    case "#EXT-X-KEY" => (Holds(attrs, "METHOD", IsNone) && !Has(attrs, "URI")) || ClearKey(attrs)
    case "#EXT-X-SESSION-KEY" => ClearKey(attrs)
    case "#EXT-X-MEDIA" =>
      && Has(attrs, "TYPE")
      && (Holds(attrs, "TYPE", IsSubtitles) ==> Holds(attrs, "URI", IsSome))
      && (Holds(attrs, "TYPE", IsClosedCaptions) ==> !Has(attrs, "URI"))
    case "#EXT-X-SESSION-DATA" => Has(attrs, "DATA-ID") && Has(attrs, "URI") != Has(attrs, "VALUE")
    case "#EXT-X-PRELOAD-HINT" => Holds(attrs, "TYPE", IsHint) && Holds(attrs, "URI", IsSome)
    case "#EXT-X-RENDITION-REPORT" => Holds(attrs, "URI", IsSome) && Holds(attrs, "URI", rw.relative)
    case "#EXT-X-DATERANGE" => !Has(attrs, "X-ASSET-LIST") && !Has(attrs, "X-ASSET-URI")
    case _ => Holds(attrs, "URI", IsSome)
  }

  // ---------- what becomes of a line ----------

  /** Tags whose URI is another playlist, and tags whose URI is anything else. */
  predicate NamesPlaylist(tag: string) {
    tag in {"#EXT-X-MEDIA", "#EXT-X-I-FRAME-STREAM-INF", "#EXT-X-IMAGE-STREAM-INF", "#EXT-X-RENDITION-REPORT"}
  }

  predicate NamesResource(tag: string) {
    tag in {"#EXT-X-KEY", "#EXT-X-SESSION-KEY", "#EXT-X-MAP", "#EXT-X-SESSION-DATA", "#EXT-X-PRELOAD-HINT", "#EXT-X-PART"}
  }

  predicate HoldsUris(tag: string) {
    NamesPlaylist(tag) || NamesResource(tag) || tag == "#EXT-X-DATERANGE"
  }

  /** The rewriter was asked for a well-formed URI as that kind, and this is its answer. */
  predicate Answered(rw: Rewriter, line: nat, attr: nat, value: string, kind: Kind, out: string) {
    && value != "" && rw.urlOk(value)
    && (forall i :: 0 <= i < |value| ==> value[i] > ' ' && value[i] != 0x7f as char && value[i] != '\\')
    && (forall i :: 0 < i < |value| ==> !(value[i - 1] == '{' && value[i] == '$'))
    && rw.uri(line, attr, value, kind) == Some(out)
  }

  /** An attribute that holds a URI is quoted and takes the answer; any other one stays. */
  predicate AttrBecomes(rw: Rewriter, line: nat, tag: string, i: nat, a: Attr, out: Attr) {
    && out.name == a.name && out.quoted == a.quoted
    && if NamesPlaylist(tag) && a.name == "URI" then a.quoted && Answered(rw, line, i, a.content, Manifest, out.content)
       else if NamesResource(tag) && a.name == "URI" then a.quoted && Answered(rw, line, i, a.content, Resource, out.content)
       else if tag == "#EXT-X-DATERANGE" && a.name == "X-URI" then
         a.quoted && Answered(rw, line, i, a.content, Resource, out.content)
       else out.content == a.content
  }

  ghost predicate AttrsBecome(rw: Rewriter, line: nat, tag: string, attrs: seq<Attr>, out: seq<Attr>) {
    |out| == |attrs| && forall i :: 0 <= i < |attrs| ==> AttrBecomes(rw, line, tag, i, attrs[i], out[i])
  }

  ghost predicate Listed(attrs: seq<Attr>) {
    ValidAll(attrs) && Unrepeated(attrs) && |attrs| <= MAX_ATTRIBUTES
  }

  ghost predicate ListBecomes(rw: Rewriter, index: nat, tag: string, line: string, out: string, attrs: seq<Attr>, after: seq<Attr>) {
    && line == tag + ":" + PrintAll(attrs) && out == tag + ":" + PrintAll(after)
    && Listed(attrs) && Asked(rw, tag, attrs) && AttrsBecome(rw, index, tag, attrs, after)
  }

  ghost predicate TagBecomes(rw: Rewriter, index: nat, line: string, out: string) {
    var tag := TagOf(line);
    && ("#EXT" <= tag ==> KnownTag(tag)) && tag != "#EXT-X-DEFINE" && tag != "#EXT-X-CONTENT-STEERING"
    && (tag == "#EXT-X-VERSION" ==> VersionOk(line))
    && if HoldsUris(tag) then exists attrs, after :: ListBecomes(rw, index, tag, line, out, attrs, after)
       else out == line
  }

  /** The line is directly below a STREAM-INF tag. */
  predicate Variant(lines: seq<string>, j: nat) {
    2 <= j <= |lines| && IsTagLine(lines[j - 1]) && TagOf(lines[j - 1]) == "#EXT-X-STREAM-INF"
  }

  ghost predicate LineBecomes(rw: Rewriter, lines: seq<string>, j: nat, out: string)
    requires j < |lines|
  {
    && |lines[j]| <= MAX_LINE
    && if j > 0 && IsUriLine(lines[j]) then
         Answered(rw, j, 0, lines[j], if Variant(lines, j) then Manifest else Resource, out)
       else if j > 0 && IsTagLine(lines[j]) then TagBecomes(rw, j, lines[j], out)
       else out == lines[j]
  }

  // ---------- how the lines must stand ----------

  predicate Multi(line: string) {
    IsTagLine(line) && MultivariantTag(TagOf(line))
  }

  predicate Media(line: string) {
    IsTagLine(line) && MediaTag(TagOf(line))
  }

  predicate Singleton(line: string) {
    IsTagLine(line) && SingletonTag(TagOf(line))
  }

  ghost predicate AnyMulti(lines: seq<string>) {
    exists j :: 0 < j < |lines| && Multi(lines[j])
  }

  ghost predicate AnyMedia(lines: seq<string>) {
    exists j :: 0 < j < |lines| && Media(lines[j])
  }

  /**
   One type of playlist, no single tag twice, every STREAM-INF directly above a URI, and
   in a multivariant playlist every URI directly below a STREAM-INF.
   */
  ghost predicate Standing(lines: seq<string>) {
    && AnyMulti(lines) != AnyMedia(lines)
    && (forall i, j :: 0 < i < j < |lines| && Singleton(lines[i]) && Singleton(lines[j]) ==> TagOf(lines[i]) != TagOf(lines[j]))
    && (forall j: nat :: Variant(lines, j) ==> j < |lines| && IsUriLine(lines[j]))
    && (AnyMulti(lines) ==> forall j :: 0 < j < |lines| && IsUriLine(lines[j]) ==> Variant(lines, j))
  }

  // ---------- attributes ----------

  lemma {:induction false} FirstValue(attrs: seq<Attr>, name: string, i: nat)
    requires Unrepeated(attrs) && i < |attrs| && attrs[i].name == name
    ensures ValueOf(attrs, name) == Some(attrs[i].content)
    decreases i
  {
    if i > 0 {
      assert attrs[0].name != name;
      FirstValue(attrs[1..], name, i - 1);
    }
  }

  lemma {:induction false} ValueFound(attrs: seq<Attr>, name: string)
    requires ValueOf(attrs, name).Some?
    ensures exists i :: 0 <= i < |attrs| && attrs[i].name == name && ValueOf(attrs, name) == Some(attrs[i].content)
    decreases |attrs|
  {
    if attrs[0].name != name {
      ValueFound(attrs[1..], name);
      var i :| 0 <= i < |attrs[1..]| && attrs[1..][i].name == name && ValueOf(attrs[1..], name) == Some(attrs[1..][i].content);
      assert attrs[i + 1] == attrs[1..][i];
    }
  }

  lemma ValueExactly(attrs: seq<Attr>, name: string)
    requires Unrepeated(attrs)
    ensures Has(attrs, name) <==> ValueOf(attrs, name).Some?
    ensures forall p: string -> bool :: Holds(attrs, name, p) <==> ValueOf(attrs, name).Some? && p(ValueOf(attrs, name).value)
  {
    if ValueOf(attrs, name).Some? {
      ValueFound(attrs, name);
    }
    forall i | 0 <= i < |attrs| && attrs[i].name == name ensures ValueOf(attrs, name) == Some(attrs[i].content) {
      FirstValue(attrs, name, i);
    }
  }

  lemma UpperExactly(s: string, word: string)
    requires forall i :: 0 <= i < |word| ==> !('a' <= word[i] <= 'z')
    ensures Upper(s) == word <==> Spelled(s, word)
  {
    var u := Upper(s);
    if Spelled(s, word) {
      forall i | 0 <= i < |u| ensures u[i] == word[i] {
        assert SameLetter(s[i], word[i]);
      }
    }
    if u == word {
      assert forall i :: 0 <= i < |s| ==> u[i] == word[i];
    }
  }

  lemma MethodWords(v: string)
    ensures Upper(v) == "NONE" <==> IsNone(v)
    ensures Upper(v) == "AES-128" <==> IsAes(v)
  {
    hide Upper, Spelled;
    UpperExactly(v, "NONE");
    UpperExactly(v, "AES-128");
  }

  lemma TypeWords(v: string)
    ensures Upper(v) == "SUBTITLES" <==> IsSubtitles(v)
    ensures Upper(v) == "CLOSED-CAPTIONS" <==> IsClosedCaptions(v)
    ensures Upper(v) in {"PART", "MAP"} <==> IsHint(v)
  {
    hide Upper, Spelled;
    UpperExactly(v, "SUBTITLES");
    UpperExactly(v, "CLOSED-CAPTIONS");
    UpperExactly(v, "PART");
    UpperExactly(v, "MAP");
  }

  /** Not of a date range, which is looked at before its attributes are. */
  lemma AskedExactly(rw: Rewriter, tag: string, attrs: seq<Attr>)
    requires Unrepeated(attrs) && tag != "#EXT-X-DATERANGE"
    ensures TagAccepts(rw, tag, attrs) <==> Asked(rw, tag, attrs)
  {
    hide Upper, Spelled, ValueOf, Has, Holds, IsNone, IsAes, IsSubtitles, IsClosedCaptions, IsHint;
    ValueExactly(attrs, "URI");
    ValueExactly(attrs, "METHOD");
    ValueExactly(attrs, "KEYFORMAT");
    ValueExactly(attrs, "TYPE");
    ValueExactly(attrs, "DATA-ID");
    ValueExactly(attrs, "VALUE");
    if ValueOf(attrs, "METHOD").Some? {
      MethodWords(ValueOf(attrs, "METHOD").value);
      NoneIsNotAes(ValueOf(attrs, "METHOD").value);
    }
    if ValueOf(attrs, "TYPE").Some? {
      TypeWords(ValueOf(attrs, "TYPE").value);
    }
  }

  lemma NoneIsNotAes(v: string)
    ensures !(IsNone(v) && IsAes(v))
  {
    assert |"NONE"| != |"AES-128"|;
  }

  // ---------- URIs ----------

  lemma AnsweredExactly(rw: Rewriter, line: nat, attr: nat, value: string, kind: Kind, out: string)
    ensures RewriteUri(rw, line, attr, value, kind) == Some(out) <==> Answered(rw, line, attr, value, kind, out)
  {
    if Answered(rw, line, attr, value, kind, out) {
      forall i | 0 <= i < |value| - 1 ensures !(value[i] == '{' && value[i + 1] == '$') {
        assert !(value[i + 1 - 1] == '{' && value[i + 1] == '$');
      }
    }
    if UriOk(rw, value) {
      forall i | 0 < i < |value| ensures !(value[i - 1] == '{' && value[i] == '$') {
        assert !(0 <= i - 1 < |value| - 1 && value[i - 1] == '{' && value[i - 1 + 1] == '$');
      }
      forall i | 0 <= i < |value| ensures value[i] > ' ' && value[i] != 0x7f as char && value[i] != '\\' {
        assert IsVisible(value[i]);
      }
    }
  }

  lemma NamesExactly(tag: string, name: string)
    requires tag == "#EXT-X-DATERANGE" ==> name != "X-ASSET-URI"
    ensures name in UriNames(tag)
      <==> ((NamesPlaylist(tag) || NamesResource(tag)) && name == "URI") || (tag == "#EXT-X-DATERANGE" && name == "X-URI")
    ensures name in UriNames(tag) ==> AttributeKind(tag, name) == if NamesPlaylist(tag) then Manifest else Resource
    ensures UriNames(tag) != {} <==> HoldsUris(tag)
  {
    if tag == "#EXT-X-DATERANGE" {
      assert "X-URI" in UriNames(tag);
    } else if HoldsUris(tag) {
      assert "URI" in UriNames(tag);
    }
  }

  lemma OneAttr(rw: Rewriter, line: nat, tag: string, attrs: seq<Attr>, i: nat, out: Attr)
    requires i < |attrs|
    requires tag == "#EXT-X-DATERANGE" ==> attrs[i].name != "X-ASSET-URI"
    ensures AttrBecomes(rw, line, tag, i, attrs[i], out)
      <==> NewContent(rw, line, tag, attrs, i).Some?
           && out == attrs[i].(content := NewContent(rw, line, tag, attrs, i).value)
  {
    hide RewriteUri, Answered, UriNames, AttributeKind, HoldsUris;
    NamesExactly(tag, attrs[i].name);
    OneKind(tag);
    AnsweredExactly(rw, line, i, attrs[i].content, Manifest, out.content);
    AnsweredExactly(rw, line, i, attrs[i].content, Resource, out.content);
  }

  lemma OneKind(tag: string)
    ensures !(NamesPlaylist(tag) && NamesResource(tag))
    ensures tag == "#EXT-X-DATERANGE" ==> !NamesPlaylist(tag) && !NamesResource(tag)
  {
  }

  lemma {:induction false} AttrsFrom(rw: Rewriter, line: nat, tag: string, attrs: seq<Attr>, i: nat, out: seq<Attr>)
    requires i <= |attrs| && (tag == "#EXT-X-DATERANGE" ==> !Has(attrs, "X-ASSET-URI"))
    ensures NewAttrs(rw, line, tag, attrs, i) == Some(out)
      <==> |out| == |attrs| - i && forall j :: i <= j < |attrs| ==> AttrBecomes(rw, line, tag, j, attrs[j], out[j - i])
    decreases |attrs| - i
  {
    hide NewContent, AttrBecomes;
    if i < |attrs| && out != [] {
      OneAttr(rw, line, tag, attrs, i, out[0]);
      AttrsFrom(rw, line, tag, attrs, i + 1, out[1..]);
      assert out == [out[0]] + out[1..];
      if NewAttrs(rw, line, tag, attrs, i) == Some(out) {
        assert NewAttrs(rw, line, tag, attrs, i + 1).value == out[1..];
      }
      if |out| == |attrs| - i && forall j :: i <= j < |attrs| ==> AttrBecomes(rw, line, tag, j, attrs[j], out[j - i]) {
        assert AttrBecomes(rw, line, tag, i, attrs[i], out[i - i]);
        forall j | i + 1 <= j < |attrs| ensures AttrBecomes(rw, line, tag, j, attrs[j], out[1..][j - (i + 1)]) {
          assert AttrBecomes(rw, line, tag, j, attrs[j], out[j - i]);
        }
      }
    }
  }

  lemma AttrsExactly(rw: Rewriter, line: nat, tag: string, attrs: seq<Attr>, out: seq<Attr>)
    requires tag == "#EXT-X-DATERANGE" ==> !Has(attrs, "X-ASSET-URI")
    ensures NewAttrs(rw, line, tag, attrs, 0) == Some(out) <==> AttrsBecome(rw, line, tag, attrs, out)
  {
    hide AttrBecomes, NewAttrs;
    AttrsFrom(rw, line, tag, attrs, 0, out);
    assert forall j :: 0 <= j < |attrs| && |out| == |attrs| ==> out[j - 0] == out[j];
    if AttrsBecome(rw, line, tag, attrs, out) {
      forall j | 0 <= j < |attrs| ensures AttrBecomes(rw, line, tag, j, attrs[j], out[j - 0]) {
        assert AttrBecomes(rw, line, tag, j, attrs[j], out[j]);
      }
    }
    if NewAttrs(rw, line, tag, attrs, 0) == Some(out) {
      forall j | 0 <= j < |attrs| ensures AttrBecomes(rw, line, tag, j, attrs[j], out[j]) {
        assert AttrBecomes(rw, line, tag, j, attrs[j], out[j - 0]);
      }
    }
  }

  // ---------- tag lines ----------

  lemma ColonSplits(line: string, tag: string, rest: string)
    requires tag == TagOf(line) && rest != ""
    ensures line == tag + ":" + rest
      <==> 0 <= ColonAt(line) && ColonAt(line) + 1 < |line| && tag == line[..ColonAt(line)] && rest == line[ColonAt(line) + 1..]
  {
    hide ColonAt;
    if line == tag + ":" + rest {
      ColonAfter(line, tag, rest);
    }
    if 0 <= ColonAt(line) && rest == line[ColonAt(line) + 1..] {
      CutAt(line, ColonAt(line));
    }
  }

  lemma ColonAfter(line: string, tag: string, rest: string)
    requires line == tag + ":" + rest && tag == TagOf(line) && rest != ""
    ensures ColonAt(line) == |tag| < |line| - 1 && tag == line[..|tag|] && rest == line[|tag| + 1..]
  {
    hide ColonAt;
    assert line[|tag|] == ':';
    assert |line| == |tag| + 1 + |rest|;
  }

  lemma CutAt(line: string, colon: nat)
    requires colon < |line| && line[colon] == ':'
    ensures line == line[..colon] + ":" + line[colon + 1..]
  {
  }

  lemma DateRangeAsked(rw: Rewriter, attrs: seq<Attr>)
    ensures Asked(rw, "#EXT-X-DATERANGE", attrs) <==> NoAssets(attrs)
    ensures TagAccepts(rw, "#EXT-X-DATERANGE", attrs)
  {
    if Asked(rw, "#EXT-X-DATERANGE", attrs) {
      assert forall i :: 0 <= i < |attrs| ==> attrs[i].name != "X-ASSET-LIST" && attrs[i].name != "X-ASSET-URI";
    }
  }

  lemma ListExactly(rw: Rewriter, index: nat, line: string, out: string, attrs: seq<Attr>, after: seq<Attr>)
    requires HoldsUris(TagOf(line)) && Listed(attrs)
    requires 0 <= ColonAt(line) && ColonAt(line) + 1 < |line| && line[ColonAt(line) + 1..] == PrintAll(attrs)
    requires DateRangeOk(line) && TagAccepts(rw, TagOf(line), attrs)
    requires NewAttrs(rw, index, TagOf(line), attrs, 0) == Some(after) && out == line[..ColonAt(line) + 1] + PrintAll(after)
    ensures ListBecomes(rw, index, TagOf(line), line, out, attrs, after)
  {
    hide TagAccepts, NewAttrs, PrintAll, ValidAll, Unrepeated, Asked, AttrsBecome, HoldsUris, Parse;
    var tag := TagOf(line);
    ReadableExactly(PrintAll(attrs), attrs);
    AttrsExactly(rw, index, tag, attrs, after);
    ColonSplits(line, tag, PrintAll(attrs));
    assert line[..ColonAt(line) + 1] == tag + ":";
    if tag == "#EXT-X-DATERANGE" {
      DateRangeAsked(rw, attrs);
    } else {
      AskedExactly(rw, tag, attrs);
    }
  }

  lemma ListMade(rw: Rewriter, index: nat, line: string, out: string, attrs: seq<Attr>, after: seq<Attr>)
    requires HoldsUris(TagOf(line)) && IsTagLine(line)
    requires ListBecomes(rw, index, TagOf(line), line, out, attrs, after)
    ensures DateRangeOk(line) && RewriteTagLine(rw, index, line) == Some(out)
  {
    hide TagAccepts, NewAttrs, PrintAll, ValidAll, Unrepeated, Asked, AttrsBecome, HoldsUris, Parse;
    var tag := TagOf(line);
    NotEmpty(attrs);
    ColonSplits(line, tag, PrintAll(attrs));
    ReadableExactly(PrintAll(attrs), attrs);
    if tag == "#EXT-X-DATERANGE" {
      DateRangeAsked(rw, attrs);
      AskedOfDateRange(rw, attrs);
    } else {
      AskedExactly(rw, tag, attrs);
    }
    AttrsExactly(rw, index, tag, attrs, after);
    assert line[..ColonAt(line) + 1] == tag + ":";
  }

  lemma AskedOfDateRange(rw: Rewriter, attrs: seq<Attr>)
    requires Asked(rw, "#EXT-X-DATERANGE", attrs)
    ensures !Has(attrs, "X-ASSET-URI")
  {
  }

  /** A tag line is rewritten by what its attributes, printed, become. */
  lemma TagLineExactly(rw: Rewriter, index: nat, line: string, out: string)
    requires HoldsUris(TagOf(line)) && IsTagLine(line)
    ensures DateRangeOk(line) && RewriteTagLine(rw, index, line) == Some(out)
      <==> exists attrs, after :: ListBecomes(rw, index, TagOf(line), line, out, attrs, after)
  {
    hide ListBecomes, HoldsUris, TagAccepts, NewAttrs, PrintAll, ValidAll, Unrepeated, Parse;
    if DateRangeOk(line) && RewriteTagLine(rw, index, line) == Some(out) {
      var text := line[ColonAt(line) + 1..];
      var attrs := Parse(text).value;
      var after := NewAttrs(rw, index, TagOf(line), attrs, 0).value;
      ReadableExactly(text, attrs);
      ListExactly(rw, index, line, out, attrs, after);
    }
    forall attrs, after | ListBecomes(rw, index, TagOf(line), line, out, attrs, after)
      ensures DateRangeOk(line) && RewriteTagLine(rw, index, line) == Some(out) {
      ListMade(rw, index, line, out, attrs, after);
    }
  }

  // ---------- the machine's state ----------

  ghost predicate MultiBefore(lines: seq<string>, j: nat)
    requires j <= |lines|
  {
    exists i :: 0 < i < j && Multi(lines[i])
  }

  ghost predicate MediaBefore(lines: seq<string>, j: nat)
    requires j <= |lines|
  {
    exists i :: 0 < i < j && Media(lines[i])
  }

  ghost predicate LooseBefore(lines: seq<string>, j: nat)
    requires j <= |lines|
  {
    exists i :: 0 < i < j && IsUriLine(lines[i]) && !Variant(lines, i)
  }

  ghost function SingletonsBefore(lines: seq<string>, j: nat): set<string>
    requires j <= |lines|
  {
    set i | 0 < i < j && Singleton(lines[i]) :: TagOf(lines[i])
  }

  ghost function StateAt(lines: seq<string>, j: nat): State
    requires j <= |lines|
  {
    State(SingletonsBefore(lines, j), MultiBefore(lines, j), MediaBefore(lines, j), Variant(lines, j), LooseBefore(lines, j))
  }

  /** How a line must stand below the earlier ones. */
  ghost predicate StandsAt(lines: seq<string>, j: nat)
    requires j < |lines|
  {
    && (Variant(lines, j) ==> IsUriLine(lines[j]))
    && (j > 0 && IsUriLine(lines[j]) && MultiBefore(lines, j) ==> Variant(lines, j))
    && (j > 0 && Singleton(lines[j]) ==> TagOf(lines[j]) !in SingletonsBefore(lines, j))
    && (j > 0 && Multi(lines[j]) ==> !LooseBefore(lines, j))
    && (j > 0 && IsTagLine(lines[j]) ==> !(MultiBefore(lines, j + 1) && MediaBefore(lines, j + 1)))
  }

  lemma StateGrows(lines: seq<string>, j: nat)
    requires 0 < j < |lines|
    ensures StateAt(lines, j + 1) == State(
      if Singleton(lines[j]) then SingletonsBefore(lines, j) + {TagOf(lines[j])} else SingletonsBefore(lines, j),
      MultiBefore(lines, j) || Multi(lines[j]), MediaBefore(lines, j) || Media(lines[j]),
      IsTagLine(lines[j]) && TagOf(lines[j]) == "#EXT-X-STREAM-INF",
      LooseBefore(lines, j) || (IsUriLine(lines[j]) && !Variant(lines, j)))
  {
    hide TagOf, SingletonTag, MultivariantTag, MediaTag;
  }

  lemma StateStarts(lines: seq<string>)
    requires lines != []
    ensures StateAt(lines, 0) == Start() && StateAt(lines, 1) == Start()
  {
  }

  lemma TagStateExactly(lines: seq<string>, j: nat)
    requires 0 < j < |lines| && IsTagLine(lines[j])
    ensures var line := lines[j]; var tag := TagOf(line);
      TagState(StateAt(lines, j), line) ==
        if StandsAt(lines, j) && ("#EXT" <= tag ==> KnownTag(tag)) && tag != "#EXT-X-DEFINE" && tag != "#EXT-X-CONTENT-STEERING"
           && (tag == "#EXT-X-VERSION" ==> VersionOk(line))
        then Some(StateAt(lines, j + 1)) else None
  {
    hide KnownTag, SingletonTag, MultivariantTag, MediaTag, TagOf, VersionOk, MultiBefore, MediaBefore, LooseBefore,
         SingletonsBefore, Variant;
    StateGrows(lines, j);
  }

  lemma HeldExactly(tag: string)
    ensures UriNames(tag) != {} <==> HoldsUris(tag)
    ensures tag == "#EXT-X-DATERANGE" ==> HoldsUris(tag)
  {
    NamesExactly(tag, "");
  }

  lemma {:induction false} StepExactly(rw: Rewriter, lines: seq<string>, j: nat, s: Stepped)
    requires j < |lines|
    ensures Step(rw, j, StateAt(lines, j), lines[j]) == Some(s)
      <==> StandsAt(lines, j) && LineBecomes(rw, lines, j, s.line) && s.state == StateAt(lines, j + 1)
  {
    hide TagStateOf, TagState, TagOf, RewriteTagLine, DateRangeOk, UriNames, HoldsUris, KnownTag, SingletonTag, MultivariantTag,
         MediaTag, VersionOk, MultiBefore, MediaBefore, LooseBefore, SingletonsBefore, Answered, RewriteUri, ListBecomes;
    var line := lines[j];
    if j == 0 {
      StateStarts(lines);
    } else {
      StateGrows(lines, j);
      if IsTagLine(line) {
        TagStateExactly(lines, j);
        HeldExactly(TagOf(line));
        if HoldsUris(TagOf(line)) {
          TagLineExactly(rw, j, line, s.line);
        } else {
          NoRange(line);
        }
      } else if IsUriLine(line) {
        AnsweredExactly(rw, j, 0, line, if Variant(lines, j) then Manifest else Resource, s.line);
      }
    }
  }

  lemma NoRange(line: string)
    requires TagOf(line) != "#EXT-X-DATERANGE"
    ensures DateRangeOk(line)
  {
  }

  ghost predicate BecomesAt(rw: Rewriter, lines: seq<string>, j: nat, out: seq<string>, k: nat)
    requires |out| == |lines| - j && j <= k < |lines|
  {
    StandsAt(lines, k) && LineBecomes(rw, lines, k, out[k - j])
  }

  ghost predicate BecomeFrom(rw: Rewriter, lines: seq<string>, j: nat, out: seq<string>)
    requires j <= |lines|
  {
    |out| == |lines| - j
    && forall k :: j <= k < |lines| ==> BecomesAt(rw, lines, j, out, k)
  }

  lemma {:induction false} RunExactly(rw: Rewriter, lines: seq<string>, j: nat, r: Ran)
    requires j <= |lines|
    ensures Run(rw, j, StateAt(lines, j), lines[j..]) == Some(r)
      <==> BecomeFrom(rw, lines, j, r.lines) && r.state == StateAt(lines, |lines|)
    decreases |lines| - j
  {
    hide Step, StateAt, StandsAt, LineBecomes;
    var rest := lines[j..];
    if rest != [] {
      assert rest[0] == lines[j] && rest[1..] == lines[j + 1..];
      if r.lines != [] {
        var s := Stepped(StateAt(lines, j + 1), r.lines[0]);
        StepExactly(rw, lines, j, s);
        RunExactly(rw, lines, j + 1, Ran(r.state, r.lines[1..]));
        assert r.lines == [r.lines[0]] + r.lines[1..];
        FirstAndRest(rw, lines, j, r.lines);
        if Run(rw, j, StateAt(lines, j), rest) == Some(r) {
          var t := Step(rw, j, StateAt(lines, j), lines[j]).value;
          StepExactly(rw, lines, j, t);
          assert t == s;
          assert Run(rw, j + 1, t.state, rest[1..]).value.lines == r.lines[1..];
        }
      }
    }
  }

  lemma FirstAndRest(rw: Rewriter, lines: seq<string>, j: nat, out: seq<string>)
    requires j < |lines| && out != []
    ensures BecomeFrom(rw, lines, j, out)
      <==> StandsAt(lines, j) && LineBecomes(rw, lines, j, out[0]) && BecomeFrom(rw, lines, j + 1, out[1..])
  {
    hide StandsAt, LineBecomes;
    var rest, n := out[1..], j + 1;
    if BecomeFrom(rw, lines, n, rest) && StandsAt(lines, j) && LineBecomes(rw, lines, j, out[0]) {
      forall k | j <= k < |lines| ensures BecomesAt(rw, lines, j, out, k) {
        if k > j {
          assert BecomesAt(rw, lines, n, rest, k);
          assert out[k - j] == rest[k - n];
        }
      }
    }
    if BecomeFrom(rw, lines, j, out) {
      assert BecomesAt(rw, lines, j, out, j);
      forall k | n <= k < |lines| ensures BecomesAt(rw, lines, n, rest, k) {
        assert BecomesAt(rw, lines, j, out, k);
        assert out[k - j] == rest[k - n];
      }
    }
  }

  // ---------- the whole text ----------

  ghost predicate AllStand(lines: seq<string>) {
    forall k :: 0 <= k < |lines| ==> StandsAt(lines, k)
  }

  lemma StandingTypes(lines: seq<string>)
    requires lines != [] && AllStand(lines)
    ensures !(AnyMulti(lines) && AnyMedia(lines))
    ensures AnyMulti(lines) ==> forall j :: 0 < j < |lines| && IsUriLine(lines[j]) ==> Variant(lines, j)
  {
    hide MultivariantTag, MediaTag, TagOf, Variant, SingletonTag;
    if AnyMulti(lines) {
      var i :| 0 < i < |lines| && Multi(lines[i]);
      forall k | 0 < k < |lines| ensures !Media(lines[k]) {
        var m := if i < k then k else i;
        assert StandsAt(lines, m);
        assert MultiBefore(lines, m + 1);
        assert IsTagLine(lines[m]) ==> !MediaBefore(lines, m + 1);
      }
      forall j | 0 < j < |lines| && IsUriLine(lines[j]) ensures Variant(lines, j) {
        assert StandsAt(lines, j) && StandsAt(lines, i);
        assert j > i ==> MultiBefore(lines, j);
        assert !LooseBefore(lines, i);
      }
    }
  }

  lemma StandingExactly(lines: seq<string>)
    requires lines != []
    ensures Standing(lines)
      <==> AllStand(lines) && (AnyMulti(lines) || AnyMedia(lines)) && !Variant(lines, |lines|)
  {
    hide MultivariantTag, MediaTag, TagOf, SingletonTag;
    if AllStand(lines) && (AnyMulti(lines) || AnyMedia(lines)) && !Variant(lines, |lines|) {
      StandingTypes(lines);
      forall i, j | 0 < i < j < |lines| && Singleton(lines[i]) && Singleton(lines[j]) ensures TagOf(lines[i]) != TagOf(lines[j]) {
        assert StandsAt(lines, j);
        assert TagOf(lines[i]) in SingletonsBefore(lines, j);
      }
      forall j: nat | Variant(lines, j) ensures j < |lines| && IsUriLine(lines[j]) {
        if j < |lines| {
          assert StandsAt(lines, j);
        }
      }
    }
    if Standing(lines) {
      forall k | 0 <= k < |lines| ensures StandsAt(lines, k) {
        StandsInStanding(lines, k);
      }
    }
  }

  lemma StandsInStanding(lines: seq<string>, k: nat)
    requires k < |lines| && Standing(lines)
    ensures StandsAt(lines, k)
  {
    hide MultivariantTag, MediaTag, TagOf, SingletonTag;
    assert MultiBefore(lines, k) ==> AnyMulti(lines);
    assert MultiBefore(lines, k + 1) ==> AnyMulti(lines);
    assert MediaBefore(lines, k + 1) ==> AnyMedia(lines);
    if k > 0 && Multi(lines[k]) {
      assert AnyMulti(lines);
      assert !LooseBefore(lines, k);
    }
  }

  ghost predicate LinesBecome(rw: Rewriter, lines: seq<string>, after: seq<string>) {
    |after| == |lines| && forall j :: 0 <= j < |lines| ==> LineBecomes(rw, lines, j, after[j])
  }

  lemma TransformExactly(rw: Rewriter, maxLines: nat, text: string, after: seq<string>)
    requires CleanText(text)
    ensures var lines := Split(text, Separator(text));
      (exists st :: Transform(rw, maxLines, text) == Some(Ran(st, after)))
      <==> |lines| <= maxLines && lines[0] == "#EXTM3U" && Standing(lines) && LinesBecome(rw, lines, after)
  {
    hide CleanText, HasCrLf, Split, Run, StandsAt, LineBecomes, MultivariantTag, MediaTag, SingletonTag, TagOf, Standing, Variant,
         SingletonsBefore;
    var lines := Split(text, Separator(text));
    var end := StateAt(lines, |lines|);
    StateStarts(lines);
    assert lines[0..] == lines;
    RunExactly(rw, lines, 0, Ran(end, after));
    forall st | Transform(rw, maxLines, text) == Some(Ran(st, after)) ensures st == end {
      RunExactly(rw, lines, 0, Ran(st, after));
    }
    StandingExactly(lines);
    FromStart(rw, lines, after);
    assert end.multivariant == AnyMulti(lines) && end.media == AnyMedia(lines);
    if Run(rw, 0, Start(), lines) == Some(Ran(end, after)) && |lines| <= maxLines && lines[0] == "#EXTM3U"
       && (end.multivariant || end.media) && !end.expectUri {
      assert Transform(rw, maxLines, text) == Some(Ran(end, after));
    }
  }

  lemma FromStart(rw: Rewriter, lines: seq<string>, after: seq<string>)
    ensures BecomeFrom(rw, lines, 0, after) <==> AllStand(lines) && LinesBecome(rw, lines, after)
  {
    hide StandsAt, LineBecomes;
    if BecomeFrom(rw, lines, 0, after) {
      forall j | 0 <= j < |lines| ensures StandsAt(lines, j) && LineBecomes(rw, lines, j, after[j]) {
        assert BecomesAt(rw, lines, 0, after, j);
      }
    }
    if AllStand(lines) && LinesBecome(rw, lines, after) {
      forall j | 0 <= j < |lines| ensures BecomesAt(rw, lines, 0, after, j) {
        assert LineBecomes(rw, lines, j, after[j]);
      }
    }
  }

  /** The text is these lines, which hold no newline, and the result is those. */
  ghost predicate RewrittenAs(rw: Rewriter, maxLines: nat, text: string, out: string, lines: seq<string>, after: seq<string>) {
    && lines != [] && HlsText.CleanLines(lines)
    && Join(lines, Separator(text)) == text && Join(after, Separator(text)) == out
    && |lines| <= maxLines && lines[0] == "#EXTM3U"
    && Standing(lines) && LinesBecome(rw, lines, after)
  }

  /**
   A manifest is rewritten into a text exactly when its lines stand as they must, each line
   becomes the line there, and the text is within the limit. So each variant's URI is asked
   for as a playlist and every other URI line as a resource, and each is replaced by the answer.
   */
  lemma RewrittenExactly(rw: Rewriter, maxLines: nat, limit: nat, text: string, out: string)
    ensures Rewrite(rw, maxLines, limit, text) == Some(out)
      <==> CleanText(text) && |out| <= limit && exists lines, after :: RewrittenAs(rw, maxLines, text, out, lines, after)
  {
    hide CleanText, HasCrLf, Split, Run, LineBecomes, Standing, Join;
    if CleanText(text) {
      var sep := Separator(text);
      var lines := Split(text, sep);
      HlsText.CleanStyle(text);
      HlsText.TextBytes(text);
      HlsText.SplitClean(text, sep);
      if Rewrite(rw, maxLines, limit, text) == Some(out) {
        var r := Transform(rw, maxLines, text).value;
        assert Transform(rw, maxLines, text) == Some(Ran(r.state, r.lines));
        TransformExactly(rw, maxLines, text, r.lines);
        assert RewrittenAs(rw, maxLines, text, out, lines, r.lines);
      }
      forall others, after | RewrittenAs(rw, maxLines, text, out, others, after) && |out| <= limit
        ensures Rewrite(rw, maxLines, limit, text) == Some(out) {
        HlsText.SplitJoin(others, sep);
        TransformExactly(rw, maxLines, text, after);
        var st :| Transform(rw, maxLines, text) == Some(Ran(st, after));
      }
    }
  }
}
