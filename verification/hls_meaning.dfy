/** What a rewritten manifest keeps of the original, and that it is accepted again. */
module HlsMeaning {
  import opened Wrappers
  import opened TextSpans
  import opened HlsAttributes
  import opened HlsLines

  // ---------- what changes in a line ----------

  /** The same attributes in the same order; a content may differ only where a URI was rewritten. */
  ghost predicate SameButUris(rw: Rewriter, line: nat, tag: string, attrs: seq<Attr>, out: seq<Attr>) {
    |out| == |attrs|
    && forall i :: 0 <= i < |attrs| ==>
         NewContent(rw, line, tag, attrs, i).Some?
         && out[i] == attrs[i].(content := NewContent(rw, line, tag, attrs, i).value)
  }

  lemma {:induction false} NewAttrsFrom(rw: Rewriter, line: nat, tag: string, attrs: seq<Attr>, i: nat)
    requires i <= |attrs| && NewAttrs(rw, line, tag, attrs, i).Some?
    ensures var out := NewAttrs(rw, line, tag, attrs, i).value;
      |out| == |attrs| - i
      && forall j :: i <= j < |attrs| ==>
           NewContent(rw, line, tag, attrs, j).Some?
           && out[j - i] == attrs[j].(content := NewContent(rw, line, tag, attrs, j).value)
    decreases |attrs| - i
  {
    hide NewContent;
    if i < |attrs| {
      NewAttrsFrom(rw, line, tag, attrs, i + 1);
    }
  }

  lemma NewAttrsSame(rw: Rewriter, line: nat, tag: string, attrs: seq<Attr>)
    requires NewAttrs(rw, line, tag, attrs, 0).Some?
    ensures SameButUris(rw, line, tag, attrs, NewAttrs(rw, line, tag, attrs, 0).value)
  {
    hide NewContent, NewAttrs;
    NewAttrsFrom(rw, line, tag, attrs, 0);
    var out := NewAttrs(rw, line, tag, attrs, 0).value;
    assert forall j :: 0 <= j < |attrs| ==> out[j] == out[j - 0];
  }

  /** A line is kept, or is a URI and is rewritten whole, or has only URI values replaced. */
  ghost predicate LineKept(rw: Rewriter, index: nat, line: string, out: string) {
    || out == line
    || (IsUriLine(line) && exists kind :: RewriteUri(rw, index, 0, line, kind) == Some(out))
    || (IsTagLine(line) && AttributesKept(rw, index, line, out))
  }

  ghost predicate AttributesKept(rw: Rewriter, index: nat, line: string, out: string) {
    var colon := ColonAt(line);
    && 0 <= colon < |line| && Parse(line[colon + 1..]).Some?
    && exists attrs :: SameButUris(rw, index, line[..colon], Parse(line[colon + 1..]).value, attrs)
                       && out == line[..colon + 1] + PrintAll(attrs)
  }

  lemma StepKeeps(rw: Rewriter, index: nat, st: State, line: string)
    requires Step(rw, index, st, line).Some?
    ensures LineKept(rw, index, line, Step(rw, index, st, line).value.line)
  {
    hide Parse, TagState, DateRangeOk, TagAccepts, UriNames, NewContent, NewAttrs, PrintAll, RewriteUri;
    if index != 0 && IsTagLine(line) && UriNames(TagOf(line)) != {} {
      var colon := ColonAt(line);
      var attrs := Parse(line[colon + 1..]).value;
      NewAttrsSame(rw, index, line[..colon], attrs);
      assert AttributesKept(rw, index, line, Step(rw, index, st, line).value.line);
    }
  }

  lemma {:induction false} RunKeeps(rw: Rewriter, index: nat, st: State, lines: seq<string>)
    requires Run(rw, index, st, lines).Some?
    ensures var out := Run(rw, index, st, lines).value.lines;
      |out| == |lines| && forall i :: 0 <= i < |lines| ==> LineKept(rw, index + i, lines[i], out[i])
    decreases |lines|
  {
    hide Step, LineKept;
    if lines != [] {
      StepKeeps(rw, index, st, lines[0]);
      RunKeeps(rw, index + 1, Step(rw, index, st, lines[0]).value.state, lines[1..]);
      var out := Run(rw, index, st, lines).value.lines;
      forall i | 0 <= i < |lines| ensures LineKept(rw, index + i, lines[i], out[i]) {
        if i > 0 {
          assert lines[i] == lines[1..][i - 1] && out[i] == out[1..][i - 1];
          assert index + 1 + (i - 1) == index + i;
        }
      }
    }
  }

  // ---------- what a rewritten URI must be like ----------

  /** A rewritten URI that can stand in a line of its own and between quotes. */
  predicate PlainUri(w: string) {
    w != "" && w[0] != '#' && '"' !in w && All(w, IsVisible)
  }

  ghost predicate FitsAgain(rw: Rewriter, w: string) {
    && PlainUri(w) && UriOk(rw, w) && rw.relative(w)
    && forall line: nat, attr: nat, kind: Kind :: rw.uri(line, attr, w, kind).Some?
  }

  ghost predicate AnswerFits(rw: Rewriter, next: Rewriter, line: nat, attr: nat, value: string, kind: Kind) {
    rw.uri(line, attr, value, kind).Some? ==> FitsAgain(next, rw.uri(line, attr, value, kind).value)
  }

  /** Whatever the first rewriter returns, the second one accepts. */
  ghost predicate Fits(rw: Rewriter, next: Rewriter) {
    forall line: nat, attr: nat, value: string, kind: Kind :: AnswerFits(rw, next, line, attr, value, kind)
  }

  // ---------- a rewritten line steps again ----------

  lemma UriLineAgain(rw: Rewriter, next: Rewriter, index: nat, st: State, line: string)
    requires Fits(rw, next) && UriLineStep(rw, index, st, line).Some?
    ensures var s := UriLineStep(rw, index, st, line).value;
      IsUriLine(s.line)
      && UriLineStep(next, index, st, s.line).Some? && UriLineStep(next, index, st, s.line).value.state == s.state
  {
    hide UriOk, PlainUri;
    var kind := if st.expectUri then Manifest else Resource;
    assert AnswerFits(rw, next, index, 0, line, kind);
    var w := rw.uri(index, 0, line, kind).value;
    assert IsUriLine(w) by { PlainIsUri(w); }
    assert next.uri(index, 0, w, kind).Some?;
  }

  lemma PlainIsUri(w: string)
    requires PlainUri(w)
    ensures IsUriLine(w) && All(w, IsQuotedByte)
  {
    assert forall i :: 0 <= i < |w| ==> w[i] != '"' && IsVisible(w[i]);
  }

  lemma ContentFits(rw: Rewriter, next: Rewriter, line: nat, tag: string, attrs: seq<Attr>, i: nat)
    requires Fits(rw, next) && i < |attrs| && NewContent(rw, line, tag, attrs, i).Some?
    ensures var w := NewContent(rw, line, tag, attrs, i).value;
      if attrs[i].name in UriNames(tag) then attrs[i].quoted && FitsAgain(next, w) else w == attrs[i].content
  {
    hide UriOk, UriNames, FitsAgain;
    if attrs[i].name in UriNames(tag) {
      assert AnswerFits(rw, next, line, i, attrs[i].content, AttributeKind(tag, attrs[i].name));
    }
  }

  lemma AttrsValidAgain(rw: Rewriter, next: Rewriter, line: nat, tag: string, attrs: seq<Attr>, out: seq<Attr>)
    requires Fits(rw, next) && SameButUris(rw, line, tag, attrs, out)
    requires ValidAll(attrs) && Unrepeated(attrs)
    ensures ValidAll(out) && Unrepeated(out)
  {
    hide NewContent, Fits, UriNames;
    forall i | 0 <= i < |out| ensures ValidAttr(out[i]) {
      assert ValidAttr(attrs[i]);
      ContentFits(rw, next, line, tag, attrs, i);
      if attrs[i].name in UriNames(tag) {
        PlainIsUri(out[i].content);
      }
    }
    forall i, j | 0 <= i < j < |out| ensures out[i].name != out[j].name {
      assert attrs[i].name != attrs[j].name;
    }
  }

  lemma {:induction false} ValueAgain(rw: Rewriter, next: Rewriter, line: nat, tag: string, attrs: seq<Attr>, out: seq<Attr>,
                                      name: string)
    requires Fits(rw, next) && SameButUris(rw, line, tag, attrs, out)
    ensures ValueOf(out, name).Some? == ValueOf(attrs, name).Some?
    ensures name !in UriNames(tag) ==> ValueOf(out, name) == ValueOf(attrs, name)
    ensures name in UriNames(tag) && ValueOf(out, name).Some? ==> FitsAgain(next, ValueOf(out, name).value)
    decreases |attrs|
  {
    hide NewContent, Fits, UriNames, FitsAgain;
    ValueFrom(rw, next, line, tag, attrs, out, name, 0);
    assert attrs[0..] == attrs && out[0..] == out;
  }

  lemma {:induction false} ValueFrom(rw: Rewriter, next: Rewriter, line: nat, tag: string, attrs: seq<Attr>, out: seq<Attr>,
                                     name: string, k: nat)
    requires Fits(rw, next) && SameButUris(rw, line, tag, attrs, out) && k <= |attrs|
    ensures var a, b := ValueOf(attrs[k..], name), ValueOf(out[k..], name);
      && b.Some? == a.Some?
      && (name !in UriNames(tag) ==> b == a)
      && (name in UriNames(tag) && b.Some? ==> FitsAgain(next, b.value))
    decreases |attrs| - k
  {
    hide NewContent, Fits, UriNames, FitsAgain;
    if k < |attrs| {
      ContentFits(rw, next, line, tag, attrs, k);
      ValueFrom(rw, next, line, tag, attrs, out, name, k + 1);
      assert attrs[k..][1..] == attrs[k + 1..] && out[k..][1..] == out[k + 1..];
      assert attrs[k..][0] == attrs[k] && out[k..][0] == out[k];
      assert out[k].name == attrs[k].name;
    }
  }

  lemma UriNotOther(tag: string)
    ensures "METHOD" !in UriNames(tag) && "KEYFORMAT" !in UriNames(tag) && "TYPE" !in UriNames(tag)
    ensures "DATA-ID" !in UriNames(tag) && "VALUE" !in UriNames(tag)
    ensures "URI" in UriNames(tag) || UriNames(tag) == {} || tag == "#EXT-X-DATERANGE"
  {
  }

  lemma TagAcceptsAgain(rw: Rewriter, next: Rewriter, line: nat, tag: string, attrs: seq<Attr>, out: seq<Attr>)
    requires Fits(rw, next) && SameButUris(rw, line, tag, attrs, out) && UriNames(tag) != {}
    requires TagAccepts(rw, tag, attrs)
    ensures TagAccepts(next, tag, out)
  {
    UriNotOther(tag);
    hide Fits, SameButUris, UriNames, ValueOf, Upper, UriOk;
    ValueAgain(rw, next, line, tag, attrs, out, "URI");
    ValueAgain(rw, next, line, tag, attrs, out, "METHOD");
    ValueAgain(rw, next, line, tag, attrs, out, "KEYFORMAT");
    ValueAgain(rw, next, line, tag, attrs, out, "TYPE");
    ValueAgain(rw, next, line, tag, attrs, out, "DATA-ID");
    ValueAgain(rw, next, line, tag, attrs, out, "VALUE");
  }

  lemma {:induction false} NewAttrsAgain(rw: Rewriter, next: Rewriter, line: nat, tag: string, attrs: seq<Attr>,
                                         out: seq<Attr>, i: nat)
    requires Fits(rw, next) && SameButUris(rw, line, tag, attrs, out) && i <= |out|
    ensures NewAttrs(next, line, tag, out, i).Some?
    decreases |out| - i
  {
    hide Fits, UriNames, UriOk, AttributeKind;
    if i < |out| {
      NewAttrsAgain(rw, next, line, tag, attrs, out, i + 1);
      assert out[i] == attrs[i].(content := NewContent(rw, line, tag, attrs, i).value);
      ContentFits(rw, next, line, tag, attrs, i);
      if out[i].name in UriNames(tag) {
        assert next.uri(line, i, out[i].content, AttributeKind(tag, out[i].name)).Some?;
      }
      assert NewContent(next, line, tag, out, i).Some?;
    }
  }

  /** Everything up to the first colon is kept, so the tag is. */
  lemma ColonKept(line: string, rest: string)
    requires ColonAt(line) >= 0
    ensures var out := line[..ColonAt(line) + 1] + rest;
      ColonAt(out) == ColonAt(line) && TagOf(out) == TagOf(line) && out[ColonAt(out) + 1..] == rest
      && out[..ColonAt(out) + 1] == line[..ColonAt(line) + 1]
  {
    var colon := ColonAt(line);
    var out := line[..colon + 1] + rest;
    assert out[colon] == ':';
    assert forall j :: 0 <= j < colon ==> out[j] == line[j];
    assert out[..colon] == line[..colon];
  }

  lemma TagLineAgain(rw: Rewriter, next: Rewriter, index: nat, line: string)
    requires Fits(rw, next) && RewriteTagLine(rw, index, line).Some? && UriNames(TagOf(line)) != {} && IsTagLine(line)
    ensures var out := RewriteTagLine(rw, index, line).value;
      && IsTagLine(out) && TagOf(out) == TagOf(line) && RewriteTagLine(next, index, out).Some?
      && 0 <= ColonAt(out) == ColonAt(line)
      && Parse(line[ColonAt(line) + 1..]).Some? && Parse(out[ColonAt(out) + 1..]).Some?
      && SameButUris(rw, index, TagOf(line), Parse(line[ColonAt(line) + 1..]).value, Parse(out[ColonAt(out) + 1..]).value)
  {
    hide Parse, Fits, UriNames, TagAccepts, NewAttrs, PrintAll, SameButUris, ValidAll, Unrepeated;
    var colon := ColonAt(line);
    var tag := line[..colon];
    var text := line[colon + 1..];
    var attrs := Parse(text).value;
    var changed := NewAttrs(rw, index, tag, attrs, 0).value;
    NewAttrsSame(rw, index, tag, attrs);
    ReadableExactly(text, attrs);
    AttrsValidAgain(rw, next, index, tag, attrs, changed);
    ReadableExactly(PrintAll(changed), changed);
    SameLength(rw, index, tag, attrs, changed);
    TagAcceptsAgain(rw, next, index, tag, attrs, changed);
    NewAttrsAgain(rw, next, index, tag, attrs, changed, 0);
    ColonKept(line, PrintAll(changed));
    NotEmpty(changed);
    var out := line[..colon + 1] + PrintAll(changed);
    assert out[0] == line[0];
  }

  lemma SameLength(rw: Rewriter, line: nat, tag: string, attrs: seq<Attr>, out: seq<Attr>)
    requires SameButUris(rw, line, tag, attrs, out)
    ensures |out| == |attrs| && forall i :: 0 <= i < |attrs| ==> out[i].name == attrs[i].name
  {
  }

  lemma NotEmpty(attrs: seq<Attr>)
    requires ValidAll(attrs)
    ensures PrintAll(attrs) != ""
  {
    assert ValidAttr(attrs[0]);
    assert |Print(attrs[0])| > 0;
  }

  lemma TagStateAgain(st: State, line: string, out: string)
    requires TagOf(out) == TagOf(line) && UriNames(TagOf(line)) != {}
    ensures TagState(st, out) == TagState(st, line)
  {
    hide TagOf, VersionOk, UriNames, TagStateOf;
    SameState(st, TagOf(line), VersionOk(line), VersionOk(out));
  }

  lemma SameState(st: State, tag: string, a: bool, b: bool)
    requires UriNames(tag) != {}
    ensures TagStateOf(st, tag, a) == TagStateOf(st, tag, b)
  {
    NotVersion(tag);
    hide KnownTag, MultivariantTag, MediaTag, SingletonTag, UriNames;
  }

  lemma NotVersion(tag: string)
    requires UriNames(tag) != {}
    ensures tag != "#EXT-X-VERSION"
  {
  }

  lemma DateRangeAgain(rw: Rewriter, index: nat, line: string, out: string)
    requires DateRangeOk(line) && TagOf(out) == TagOf(line) && 0 <= ColonAt(out) == ColonAt(line)
    requires Parse(line[ColonAt(line) + 1..]).Some? && Parse(out[ColonAt(out) + 1..]).Some?
    requires SameButUris(rw, index, TagOf(line), Parse(line[ColonAt(line) + 1..]).value, Parse(out[ColonAt(out) + 1..]).value)
    ensures DateRangeOk(out)
  {
    hide Parse, TagOf, SameButUris;
    var a, b := Parse(line[ColonAt(line) + 1..]).value, Parse(out[ColonAt(out) + 1..]).value;
    SameLength(rw, index, TagOf(line), a, b);
    if TagOf(line) == "#EXT-X-DATERANGE" {
      forall i | 0 <= i < |b| ensures b[i].name != "X-ASSET-LIST" && b[i].name != "X-ASSET-URI" {
        assert b[i].name == a[i].name;
      }
    }
  }

  lemma StepAgain(rw: Rewriter, next: Rewriter, index: nat, st: State, line: string)
    requires Fits(rw, next) && Step(rw, index, st, line).Some?
    requires |Step(rw, index, st, line).value.line| <= MAX_LINE
    ensures var s := Step(rw, index, st, line).value;
      Step(next, index, st, s.line).Some? && Step(next, index, st, s.line).value.state == s.state
  {
    hide Fits, UriLineStep, RewriteTagLine, TagState, DateRangeOk, UriNames, Parse, TagOf, SameButUris;
    if index != 0 && IsUriLine(line) {
      UriLineAgain(rw, next, index, st, line);
    } else if index != 0 && IsTagLine(line) && UriNames(TagOf(line)) != {} {
      var out := RewriteTagLine(rw, index, line).value;
      TagLineAgain(rw, next, index, line);
      TagStateAgain(st, line, out);
      DateRangeAgain(rw, index, line, out);
    }
  }

  ghost predicate Short(lines: seq<string>) {
    forall i :: 0 <= i < |lines| ==> |lines[i]| <= MAX_LINE
  }

  lemma {:induction false} RunAgain(rw: Rewriter, next: Rewriter, index: nat, st: State, lines: seq<string>)
    requires Fits(rw, next) && Run(rw, index, st, lines).Some? && Short(Run(rw, index, st, lines).value.lines)
    ensures var r := Run(rw, index, st, lines).value;
      Run(next, index, st, r.lines).Some? && Run(next, index, st, r.lines).value.state == r.state
    decreases |lines|
  {
    hide Fits, Step;
    if lines != [] {
      var s := Step(rw, index, st, lines[0]).value;
      var rest := Run(rw, index + 1, s.state, lines[1..]).value;
      var out := [s.line] + rest.lines;
      assert out[0] == s.line && out[1..] == rest.lines;
      StepAgain(rw, next, index, st, lines[0]);
      RunAgain(rw, next, index + 1, s.state, lines[1..]);
    }
  }

  // ---------- variants ----------

  predicate IsStreamInf(line: string) {
    IsTagLine(line) && TagOf(line) == "#EXT-X-STREAM-INF"
  }

  lemma ExpectationMet(rw: Rewriter, index: nat, st: State, line: string)
    requires Step(rw, index, st, line).Some? && index > 0
    ensures st.expectUri ==> IsUriLine(line)
    ensures Step(rw, index, st, line).value.state.expectUri <==> IsStreamInf(line)
  {
    hide RewriteTagLine, DateRangeOk, KnownTag, VersionOk, MultivariantTag, MediaTag, SingletonTag, RewriteUri, UriNames;
  }

  /** In an accepted run every STREAM-INF is followed by its URI line. */
  lemma {:induction false} VariantsFollowed(rw: Rewriter, index: nat, st: State, lines: seq<string>, i: nat)
    requires Run(rw, index, st, lines).Some? && !Run(rw, index, st, lines).value.state.expectUri
    requires i < |lines| && index + i > 0 && IsStreamInf(lines[i])
    ensures i + 1 < |lines| && IsUriLine(lines[i + 1])
    decreases i
  {
    hide Step, IsStreamInf, IsUriLine;
    var s := Step(rw, index, st, lines[0]).value;
    if i > 0 {
      VariantsFollowed(rw, index + 1, s.state, lines[1..], i - 1);
      assert lines[i] == lines[1..][i - 1];
    } else {
      ExpectationMet(rw, index, st, lines[0]);
      if |lines| > 1 {
        assert lines[1..][0] == lines[1];
        ExpectationMet(rw, index + 1, s.state, lines[1]);
      }
    }
  }

  lemma {:induction false} OneType(rw: Rewriter, index: nat, st: State, lines: seq<string>)
    requires Run(rw, index, st, lines).Some? && !(st.multivariant && st.media)
    ensures var e := Run(rw, index, st, lines).value.state; !(e.multivariant && e.media)
    decreases |lines|
  {
    hide RewriteTagLine, DateRangeOk, KnownTag, VersionOk, RewriteUri, UriNames;
    if lines != [] {
      OneType(rw, index + 1, Step(rw, index, st, lines[0]).value.state, lines[1..]);
    }
  }
}
