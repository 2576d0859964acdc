/** The cursor loops that read an attribute list and rewrite a manifest line by line. */
module HlsRewrite {
  import opened Wrappers
  import opened TextSpans
  import opened HlsAttributes
  import opened HlsLines

  /** One attribute read from left to right; next is where the scan stands behind it. */
  method ScanAttribute(value: string, offset: nat) returns (found: Option<Span>, next: nat)
    requires offset <= |value|
    ensures found.None? <==> ParseAttr(value[offset..]).None?
    ensures found.Some? ==>
      var f := ParseAttr(value[offset..]).value;
      && found.value == SpanOf(f.attr, offset)
      && next <= |value| && f.rest == value[next..] && next == offset + |Print(f.attr)|
  {
    hide Take, Expect, Lead, IsNameByte, ParseValue;
    found, next := None, offset;
    var nameEnd := SkipRun(value, offset, IsNameByte);
    TakeAt(value, offset, IsNameByte);
    ExpectAt(value, nameEnd, '=');
    if nameEnd == offset || nameEnd >= |value| || value[nameEnd] != '=' {
      return;
    }
    var ok, valueStart, valueEnd, quoted, after := ScanValue(value[offset..nameEnd], value, nameEnd + 1);
    if !ok {
      return;
    }
    return Some(Span(value[offset..nameEnd], valueStart, valueEnd, quoted)), after;
  }

  method ScanValue(ghost name: string, value: string, offset: nat)
    returns (ok: bool, valueStart: nat, valueEnd: nat, quoted: bool, next: nat)
    requires offset <= |value|
    ensures ok <==> ParseValue(name, value[offset..]).Some?
    ensures ok ==>
      && offset <= valueStart <= valueEnd <= next <= |value|
      && valueStart == offset + (if quoted then 1 else 0) && next == valueEnd + (if quoted then 1 else 0)
      && ParseValue(name, value[offset..]) == Some(Found(Attr(name, quoted, value[valueStart..valueEnd]), value[next..]))
  {
    hide Take, Expect, Lead, IsQuotedByte, IsPlainByte;
    ExpectAt(value, offset, '"');
    if offset < |value| && value[offset] == '"' {
      valueStart := offset + 1;
      valueEnd := SkipRun(value, valueStart, IsQuotedByte);
      TakeAt(value, valueStart, IsQuotedByte);
      ExpectAt(value, valueEnd, '"');
      if valueEnd >= |value| || value[valueEnd] != '"' {
        return false, valueStart, valueEnd, true, valueEnd;
      }
      return true, valueStart, valueEnd, true, valueEnd + 1;
    }
    valueEnd := SkipRun(value, offset, IsPlainByte);
    TakeAt(value, offset, IsPlainByte);
    if valueEnd < |value| && value[valueEnd] != ',' {
      return false, offset, valueEnd, false, valueEnd;
    }
    if valueEnd == offset {
      return false, offset, valueEnd, false, valueEnd;
    }
    return true, offset, valueEnd, false, valueEnd;
  }

  /** The list read from an offset is the attributes read before it and those that follow. */
  ghost predicate ReadSoFar(value: string, attrs: seq<Attr>, offset: nat)
    requires offset <= |value|
  {
    && ParseList(value)
       == (if ParseList(value[offset..]).None? then None else Some(attrs + ParseList(value[offset..]).value))
    && (attrs != [] ==> offset == |PrintAll(attrs)| + 1)
    && (attrs == [] ==> offset == 0)
  }

  lemma ReadOne(value: string, attrs: seq<Attr>, offset: nat)
    requires offset <= |value| && ReadSoFar(value, attrs, offset)
    ensures ParseAttr(value[offset..]).None? ==> ParseList(value).None?
    ensures ParseAttr(value[offset..]).Some? ==>
      var f := ParseAttr(value[offset..]).value; var next := offset + |Print(f.attr)|;
      && next <= |value|
      && |PrintAll(attrs + [f.attr])| == next
      && (next == |value| ==> ParseList(value) == Some(attrs + [f.attr]))
      && (next < |value| && value[next] != ',' ==> ParseList(value).None?)
      && (next < |value| && value[next] == ',' ==> ReadSoFar(value, attrs + [f.attr], next + 1))
      && (ParseList(value).Some? ==>
            |ParseList(value).value| > |attrs| && ParseList(value).value[..|attrs| + 1] == attrs + [f.attr])
  {
    hide ParseAttr, Print, ValidAttr;
    var text := value[offset..];
    if ParseAttr(text).Some? {
      ParseAttrSound(text);
      var f := ParseAttr(text).value;
      var next := offset + |Print(f.attr)|;
      assert f.rest == value[next..];
      PrintMore(attrs, f.attr);
      if next < |value| {
        assert f.rest[0] == value[next] && f.rest[1..] == value[next + 1..];
        if ParseList(value[next + 1..]).Some? {
          var rest := ParseList(value[next + 1..]).value;
          assert attrs + ([f.attr] + rest) == attrs + [f.attr] + rest;
        }
      }
      if ParseList(value).Some? {
        var list := ParseList(text).value;
        assert list[0] == f.attr;
        FirstOf(attrs, list);
      }
    }
  }

  lemma FirstOf(attrs: seq<Attr>, list: seq<Attr>)
    requires list != []
    ensures |attrs + list| > |attrs| && (attrs + list)[..|attrs| + 1] == attrs + [list[0]]
  {
  }

  lemma {:induction false} PrintMore(attrs: seq<Attr>, a: Attr)
    ensures |PrintAll(attrs + [a])| == (if attrs == [] then 0 else |PrintAll(attrs)| + 1) + |Print(a)|
    decreases |attrs|
  {
    hide Print;
    if attrs == [] {
      assert attrs + [a] == [a];
    } else {
      assert (attrs + [a])[1..] == attrs[1..] + [a];
      PrintMore(attrs[1..], a);
    }
  }

  lemma {:induction false} SpansMore(attrs: seq<Attr>, a: Attr, at: nat)
    ensures Spans(attrs + [a], at)
         == Spans(attrs, at) + [SpanOf(a, at + if attrs == [] then 0 else |PrintAll(attrs)| + 1)]
    decreases |attrs|
  {
    hide Print, SpanOf;
    if attrs == [] {
      assert attrs + [a] == [a];
      assert [a][1..] == [];
    } else {
      assert (attrs + [a])[1..] == attrs[1..] + [a];
      SpansMore(attrs[1..], a, at + |Print(attrs[0])| + 1);
    }
  }

  function NamesOf(attrs: seq<Attr>): set<string> {
    set i | 0 <= i < |attrs| :: attrs[i].name
  }

  lemma UnrepeatedMore(attrs: seq<Attr>, a: Attr)
    requires Unrepeated(attrs)
    ensures Unrepeated(attrs + [a]) <==> a.name !in NamesOf(attrs)
    ensures NamesOf(attrs + [a]) == NamesOf(attrs) + {a.name}
  {
    var more := attrs + [a];
    assert more[|attrs|] == a;
    assert forall i :: 0 <= i < |attrs| ==> more[i] == attrs[i];
    if a.name in NamesOf(attrs) {
      var i :| 0 <= i < |attrs| && attrs[i].name == a.name;
      assert more[i].name == more[|attrs|].name;
    }
  }

  lemma PrefixRepeats(list: seq<Attr>, prefix: seq<Attr>)
    requires |prefix| <= |list| && list[..|prefix|] == prefix && Unrepeated(list)
    ensures Unrepeated(prefix)
  {
    assert forall i :: 0 <= i < |prefix| ==> prefix[i] == list[i];
  }

  /** Names and value offsets of an attribute list; duplicates and too long lists are refused. */
  method ParseHlsAttributeList(value: string) returns (spans: seq<Span>, ok: bool)
    ensures ok <==> Parse(value).Some?
    ensures ok ==> spans == Spans(Parse(value).value, 0)
  {
    hide ParseAttr, Print, PrintAll, Unrepeated, ReadSoFar, SpanOf, ParseList, Spans;
    spans := [];
    var seen: set<string> := {};
    ghost var attrs: seq<Attr> := [];
    var offset := 0;
    NothingRead(value);
    while true
      invariant offset <= |value| && ReadSoFar(value, attrs, offset) && (attrs == [] ==> offset == 0)
      invariant attrs != [] ==> offset == |PrintAll(attrs)| + 1
      invariant spans == Spans(attrs, 0) && seen == NamesOf(attrs)
      invariant Unrepeated(attrs) && |attrs| <= MAX_ATTRIBUTES
      decreases |value| - offset
    {
      ReadOne(value, attrs, offset);
      var found, next := ScanAttribute(value, offset);
      if found.None? {
        return [], false;
      }
      ghost var a := ParseAttr(value[offset..]).value.attr;
      UnrepeatedMore(attrs, a);
      NameOfSpan(a, offset);
      SpansMore(attrs, a, 0);
      if ParseList(value).Some? && Unrepeated(ParseList(value).value) {
        PrefixRepeats(ParseList(value).value, attrs + [a]);
      }
      if found.value.name in seen {
        return [], false;
      }
      if |spans| >= MAX_ATTRIBUTES {
        return [], false;
      }
      seen := seen + {found.value.name};
      spans := spans + [found.value];
      attrs := attrs + [a];
      if next == |value| {
        return spans, true;
      }
      if value[next] != ',' || next + 1 == |value| {
        if value[next] == ',' {
          NothingFollows(value, attrs);
        }
        return [], false;
      }
      SoFarOffset(value, attrs, next + 1);
      offset := next + 1;
    }
  }

  lemma NothingRead(value: string)
    ensures ReadSoFar(value, [], 0) && Unrepeated([]) && NamesOf([]) == {} && Spans([], 0) == []
  {
    assert value[0..] == value;
    assert forall rest: seq<Attr> :: [] + rest == rest;
  }

  lemma NameOfSpan(a: Attr, at: nat)
    ensures SpanOf(a, at).name == a.name
  {
  }

  lemma NothingFollows(value: string, attrs: seq<Attr>)
    requires ReadSoFar(value, attrs, |value|)
    ensures ParseList(value).None?
  {
    assert value[|value|..] == "";
    assert ParseList("").None?;
  }

  lemma SoFarOffset(value: string, attrs: seq<Attr>, offset: nat)
    requires offset <= |value| && ReadSoFar(value, attrs, offset) && attrs != []
    ensures offset == |PrintAll(attrs)| + 1
  {
  }

  // ---------- one tag line ----------

  datatype Replacement = Replacement(start: nat, end: nat, text: string)

  lemma {:induction false} SpanShift(attrs: seq<Attr>, i: nat, at: nat)
    requires i < |attrs|
    ensures var a, b := Spans(attrs, 0)[i], Spans(attrs, at)[i];
      b == Span(a.name, at + a.valueStart, at + a.valueEnd, a.quoted)
  {
    hide Spans, Before;
    SpanAt(attrs, i, 0);
    SpanAt(attrs, i, at);
  }

  /** The attributes themselves, cut out of the text by their spans. */
  method AttributesAt(value: string, spans: seq<Span>) returns (attrs: seq<Attr>)
    requires Parse(value).Some? && spans == Spans(Parse(value).value, 0)
    ensures attrs == Parse(value).value
  {
    hide Parse, Spans, PrintAll;
    ghost var want := Parse(value).value;
    ReadableExactly(value, want);
    attrs := [];
    for i := 0 to |spans|
      invariant attrs == want[..i]
    {
      SpanHolds("", want, i);
      assert "" + PrintAll(want) == value;
      attrs := attrs + [Attr(spans[i].name, spans[i].quoted, value[spans[i].valueStart..spans[i].valueEnd])];
    }
  }

  /** The replacements so far: in order, one for each attribute whose content changes. */
  ghost predicate Collected(head: string, attrs: seq<Attr>, done: seq<Attr>, replacements: seq<Replacement>, at: seq<nat>) {
    && |done| <= |attrs| && |at| == |replacements|
    && (forall k :: 0 <= k < |at| ==> at[k] < |done| && IsEdit(head, attrs, done, replacements[k], at[k]))
    && (forall k, l :: 0 <= k < l < |at| ==> at[k] < at[l])
    && (forall i :: 0 <= i < |done| && i !in at ==> done[i] == attrs[i])
    && (forall i :: 0 <= i < |done| ==> done[i] == attrs[i].(content := done[i].content))
  }

  ghost predicate IsEdit(head: string, attrs: seq<Attr>, done: seq<Attr>, r: Replacement, i: nat)
    requires i < |done| <= |attrs|
  {
    r == Replacement(Spans(attrs, |head|)[i].valueStart, Spans(attrs, |head|)[i].valueEnd, done[i].content)
  }

  lemma CollectedKept(head: string, attrs: seq<Attr>, done: seq<Attr>, replacements: seq<Replacement>, at: seq<nat>)
    requires Collected(head, attrs, done, replacements, at) && |done| < |attrs|
    ensures Collected(head, attrs, done + [attrs[|done|]], replacements, at)
  {
    hide Spans;
    var more := done + [attrs[|done|]];
    forall k | 0 <= k < |at| ensures at[k] < |more| && IsEdit(head, attrs, more, replacements[k], at[k]) {
      assert more[at[k]] == done[at[k]];
    }
    forall i | 0 <= i < |more| ensures more[i] == attrs[i].(content := more[i].content) && (i !in at ==> more[i] == attrs[i]) {
      assert i < |done| ==> more[i] == done[i];
    }
  }

  lemma CollectedMore(head: string, attrs: seq<Attr>, done: seq<Attr>, replacements: seq<Replacement>, at: seq<nat>,
                      content: string)
    requires Collected(head, attrs, done, replacements, at) && |done| < |attrs|
    ensures var i := |done|; var s := Spans(attrs, |head|)[i];
      Collected(head, attrs, done + [attrs[i].(content := content)],
                replacements + [Replacement(s.valueStart, s.valueEnd, content)], at + [i])
  {
    hide Spans;
    var i := |done|;
    var s := Spans(attrs, |head|)[i];
    var more := done + [attrs[i].(content := content)];
    var rs, ats := replacements + [Replacement(s.valueStart, s.valueEnd, content)], at + [i];
    forall k | 0 <= k < |ats| ensures ats[k] < |more| && IsEdit(head, attrs, more, rs[k], ats[k]) {
      if k < |at| {
        assert ats[k] == at[k] && rs[k] == replacements[k] && more[at[k]] == done[at[k]];
        assert IsEdit(head, attrs, done, replacements[k], at[k]);
      }
    }
    forall k, l | 0 <= k < l < |ats| ensures ats[k] < ats[l] {
      assert ats[k] == at[k];
    }
    forall j | 0 <= j < |more| ensures more[j] == attrs[j].(content := more[j].content) && (j !in ats ==> more[j] == attrs[j]) {
      if j < |done| {
        assert more[j] == done[j];
        assert j in at ==> j in ats;
      } else {
        assert ats[|at|] == j;
      }
    }
  }

  /** Old attributes up to an index and new ones from there on. */
  ghost function Mixed(attrs: seq<Attr>, done: seq<Attr>, n: nat): (mixed: seq<Attr>)
    requires |attrs| == |done| && n <= |attrs|
    ensures |mixed| == |attrs|
  {
    attrs[..n] + done[n..]
  }

  ghost function NextAt(at: seq<nat>, k: nat, n: nat): nat
    requires k <= |at|
  {
    if k == |at| then n else at[k]
  }

  lemma MixedBack(head: string, attrs: seq<Attr>, done: seq<Attr>, replacements: seq<Replacement>, at: seq<nat>, k: nat)
    requires Collected(head, attrs, done, replacements, at) && |done| == |attrs| && 0 < k <= |at|
    ensures var i := at[k - 1]; var n := NextAt(at, k, |attrs|);
      && i < n <= |attrs|
      && Mixed(attrs, done, n)[..i + 1] == attrs[..i + 1]
      && WithContent(Mixed(attrs, done, n), i, done[i].content) == Mixed(attrs, done, i)
  {
    hide Spans, IsEdit;
    var i := at[k - 1];
    var n := NextAt(at, k, |attrs|);
    forall j | i < j < n ensures done[j] == attrs[j] {
      assert j !in at by { Between(at, k, j, |attrs|); }
    }
    assert done[i] == attrs[i].(content := done[i].content);
  }

  lemma Between(at: seq<nat>, k: nat, j: nat, n: nat)
    requires 0 < k <= |at| && (forall a, b :: 0 <= a < b < |at| ==> at[a] < at[b])
    requires at[k - 1] < j < NextAt(at, k, n)
    ensures j !in at
  {
    forall a | 0 <= a < |at| ensures at[a] != j {
      assert a < k - 1 ==> at[a] < at[k - 1];
      assert a > k ==> at[k] < at[a];
    }
  }

  lemma MixedFirst(head: string, attrs: seq<Attr>, done: seq<Attr>, replacements: seq<Replacement>, at: seq<nat>)
    requires Collected(head, attrs, done, replacements, at) && |done| == |attrs|
    ensures NextAt(at, 0, |attrs|) <= |attrs| && Mixed(attrs, done, NextAt(at, 0, |attrs|)) == done
  {
    hide Spans, IsEdit;
    var n := NextAt(at, 0, |attrs|);
    forall j | 0 <= j < n ensures done[j] == attrs[j] {
      assert forall a :: 0 <= a < |at| ==> at[a] >= n;
      assert j !in at;
    }
  }

  /** Right to left, each replacement still finds its value where it was read: all are made at once. */
  method SpliceAll(line: string, replacements: seq<Replacement>, ghost head: string, ghost attrs: seq<Attr>,
                   ghost done: seq<Attr>, ghost at: seq<nat>) returns (out: string)
    requires Collected(head, attrs, done, replacements, at) && |done| == |attrs| && line == head + PrintAll(attrs)
    ensures out == head + PrintAll(done)
  {
    hide Spans, PrintAll, Collected, Mixed, WithContent, Spliced, NextAt;
    out := line;
    assert |at| == |replacements| && NextAt(at, |at|, |attrs|) == |attrs| && Mixed(attrs, done, |attrs|) == attrs by {
      EditsAt(head, attrs, done, replacements, at);
    }
    for k := |replacements| downto 0
      invariant NextAt(at, k, |attrs|) <= |attrs|
      invariant out == head + PrintAll(Mixed(attrs, done, NextAt(at, k, |attrs|)))
    {
      ghost var n := NextAt(at, k + 1, |attrs|);
      MixedBack(head, attrs, done, replacements, at, k + 1);
      EditsAt(head, attrs, done, replacements, at);
      SpliceOne(head, attrs, Mixed(attrs, done, n), at[k], done[at[k]].content);
      out := SpliceAt(out, replacements[k]);
    }
    MixedFirst(head, attrs, done, replacements, at);
  }

  method SpliceAt(text: string, r: Replacement) returns (out: string)
    requires r.start <= r.end <= |text|
    ensures out == Spliced(text, r.start, r.end, r.text)
  {
    out := text[..r.start] + r.text + text[r.end..];
  }

  lemma EditsAt(head: string, attrs: seq<Attr>, done: seq<Attr>, replacements: seq<Replacement>, at: seq<nat>)
    requires Collected(head, attrs, done, replacements, at) && |done| == |attrs|
    ensures |at| == |replacements| && NextAt(at, |at|, |attrs|) == |attrs| && Mixed(attrs, done, |attrs|) == attrs
    ensures forall k :: 0 <= k < |at| ==>
      at[k] < |attrs| && NextAt(at, k, |attrs|) == at[k]
      && replacements[k] == Replacement(Spans(attrs, |head|)[at[k]].valueStart, Spans(attrs, |head|)[at[k]].valueEnd,
                                        done[at[k]].content)
  {
    hide Spans;
    forall k | 0 <= k < |at| ensures at[k] < |attrs| && IsEdit(head, attrs, done, replacements[k], at[k]) {
    }
  }

  /** The values of the URI attributes are rewritten; everything else in the line is kept. */
  method RewriteHlsAttributeLine(rw: Rewriter, index: nat, line: string) returns (out: Option<string>)
    ensures out == RewriteTagLine(rw, index, line)
  {
    hide Parse, Spans, TagAccepts, UriNames, NewContent, PrintAll, Collected, AttributeKind, RewriteUri;
    var colon := ColonAt(line);
    if colon < 0 || colon + 1 >= |line| {
      return None;
    }
    var tag := line[..colon];
    var value := line[colon + 1..];
    var spans, ok := ParseHlsAttributeList(value);
    if !ok {
      return None;
    }
    var attrs := AttributesAt(value, spans);
    if !TagAccepts(rw, tag, attrs) {
      return None;
    }
    ghost var head := line[..colon + 1];
    ReadableExactly(value, attrs);
    assert line == head + value;
    var replacements: seq<Replacement> := [];
    ghost var at: seq<nat> := [];
    ghost var done: seq<Attr> := [];
    NothingCollected(head, attrs);
    NewAttrsStart(rw, index, tag, attrs);
    for i := 0 to |spans|
      invariant |done| == i && Collected(head, attrs, done, replacements, at)
      invariant NewAttrs(rw, index, tag, attrs, 0)
             == if NewAttrs(rw, index, tag, attrs, i).None? then None
                else Some(done + NewAttrs(rw, index, tag, attrs, i).value)
    {
      SpanHolds(head, attrs, i);
      SpanShift(attrs, i, |head|);
      var start, end := colon + 1 + spans[i].valueStart, colon + 1 + spans[i].valueEnd;
      var content := line[start..end];
      CollectedKept(head, attrs, done, replacements, at);
      if spans[i].name in UriNames(tag) {
        if !spans[i].quoted {
          NoContent(rw, index, tag, attrs, i);
          return None;
        }
        var rewritten := RewriteUri(rw, index, i, content, AttributeKind(tag, spans[i].name));
        if rewritten.None? {
          NoContent(rw, index, tag, attrs, i);
          return None;
        }
        CollectedMore(head, attrs, done, replacements, at, rewritten.value);
        if rewritten.value != content {
          replacements := replacements + [Replacement(start, end, rewritten.value)];
          at := at + [i];
        }
        content := rewritten.value;
      }
      ContentIs(rw, index, tag, attrs, i, content);
      MoreDone(done, attrs[i].(content := content), NewAttrs(rw, index, tag, attrs, i + 1));
      done := done + [attrs[i].(content := content)];
    }
    assert done + [] == done;
    var changed := SpliceAll(line, replacements, head, attrs, done, at);
    return Some(changed);
  }

  lemma NothingCollected(head: string, attrs: seq<Attr>)
    ensures Collected(head, attrs, [], [], [])
  {
  }

  lemma NewAttrsStart(rw: Rewriter, index: nat, tag: string, attrs: seq<Attr>)
    ensures NewAttrs(rw, index, tag, attrs, 0).Some? ==>
      [] + NewAttrs(rw, index, tag, attrs, 0).value == NewAttrs(rw, index, tag, attrs, 0).value
    ensures NewAttrs(rw, index, tag, attrs, |attrs|) == Some([])
  {
  }

  lemma NoContent(rw: Rewriter, index: nat, tag: string, attrs: seq<Attr>, i: nat)
    requires i < |attrs| && attrs[i].name in UriNames(tag)
    requires attrs[i].quoted ==> RewriteUri(rw, index, i, attrs[i].content, AttributeKind(tag, attrs[i].name)).None?
    ensures NewAttrs(rw, index, tag, attrs, i).None?
  {
    hide UriNames, RewriteUri, AttributeKind;
  }

  lemma ContentIs(rw: Rewriter, index: nat, tag: string, attrs: seq<Attr>, i: nat, content: string)
    requires i < |attrs|
    requires if attrs[i].name in UriNames(tag) then
               attrs[i].quoted
               && RewriteUri(rw, index, i, attrs[i].content, AttributeKind(tag, attrs[i].name)) == Some(content)
             else content == attrs[i].content
    ensures NewAttrs(rw, index, tag, attrs, i)
         == if NewAttrs(rw, index, tag, attrs, i + 1).None? then None
            else Some([attrs[i].(content := content)] + NewAttrs(rw, index, tag, attrs, i + 1).value)
  {
    hide UriNames, RewriteUri, AttributeKind;
  }

  lemma MoreDone(done: seq<Attr>, a: Attr, rest: Option<seq<Attr>>)
    ensures rest.Some? ==> done + ([a] + rest.value) == done + [a] + rest.value
  {
  }

  // ---------- the whole manifest ----------

  /** Whether the text may be split into lines, and which newline it uses. */
  method CheckText(text: string) returns (ok: bool, sawCrLf: bool)
    ensures ok <==> CleanText(text)
    ensures ok ==> (sawCrLf <==> HasCrLf(text))
  {
    sawCrLf := false;
    var sawLf := false;
    if text == "" {
      return false, false;
    }
    for i := 0 to |text|
      invariant forall j :: 0 <= j < i ==> TextByte(text[j]) && PairedAt(text, j)
      invariant sawCrLf <==> exists j :: 0 <= j < i && text[j] == '\r'
      invariant sawLf <==> exists j :: 0 <= j < i && text[j] == '\n' && (j == 0 || text[j - 1] != '\r')
    {
      if (text[i] < ' ' && text[i] != '\t' && text[i] != '\r' && text[i] != '\n') || text[i] == 0x7f as char {
        assert !TextByte(text[i]);
        return false, false;
      }
      if text[i] == '\r' && (i + 1 >= |text| || text[i + 1] != '\n') {
        assert !PairedAt(text, i);
        return false, false;
      }
      if text[i] == '\r' {
        sawCrLf := true;
      }
      if text[i] == '\n' && (i == 0 || text[i - 1] != '\r') {
        sawLf := true;
      }
    }
    ok := !(sawCrLf && sawLf);
  }

  method RewriteUriLine(rw: Rewriter, index: nat, st: State, line: string) returns (stepped: Option<Stepped>)
    ensures stepped == UriLineStep(rw, index, st, line)
  {
    hide UriOk;
    var next := st;
    if next.multivariant && !next.expectUri {
      return None;
    }
    var kind := Resource;
    if next.expectUri {
      kind := Manifest;
      next := next.(expectUri := false);
    } else {
      next := next.(unscopedUri := true);
    }
    if !UriOk(rw, line) {
      return None;
    }
    var rewritten := rw.uri(index, 0, line, kind);
    if rewritten.None? {
      return None;
    }
    return Some(Stepped(next, rewritten.value));
  }

  method RewriteTag(rw: Rewriter, index: nat, st: State, line: string) returns (stepped: Option<Stepped>)
    ensures stepped == TagLineStep(rw, index, st, line)
  {
    hide KnownTag, SingletonTag, MultivariantTag, MediaTag, VersionOk, UriNames, Parse, RewriteTagLine, ColonAt;
    var next := st;
    if next.expectUri {
      return None;
    }
    var tag := line;
    if ColonAt(line) >= 0 {
      tag := line[..ColonAt(line)];
    }
    if "#EXT" <= tag && !KnownTag(tag) {
      return None;
    }
    if tag == "#EXT-X-DEFINE" || tag == "#EXT-X-CONTENT-STEERING" {
      return None;
    }
    if SingletonTag(tag) {
      if tag in next.singletons {
        return None;
      }
      next := next.(singletons := next.singletons + {tag});
    }
    if tag == "#EXT-X-VERSION" && !VersionOk(line) {
      return None;
    }
    if tag == "#EXT-X-STREAM-INF" {
      next := next.(expectUri := true);
    }
    if MultivariantTag(tag) {
      next := next.(multivariant := true);
      if next.unscopedUri {
        return None;
      }
    } else if MediaTag(tag) {
      next := next.(media := true);
    }
    if next.multivariant && next.media {
      return None;
    }
    OneKindOfTag(tag);
    assert TagState(st, line) == Some(next);
    if tag == "#EXT-X-DATERANGE" {
      var ok := CheckDateRange(line[ColonAt(line) + 1..]);
      if !ok {
        return None;
      }
    }
    assert DateRangeOk(line);
    if UriNames(tag) == {} {
      return Some(Stepped(next, line));
    }
    var rewritten := RewriteHlsAttributeLine(rw, index, line);
    if rewritten.None? {
      return None;
    }
    return Some(Stepped(next, rewritten.value));
  }

  lemma OneKindOfTag(tag: string)
    ensures !(MultivariantTag(tag) && MediaTag(tag))
  {
  }

  method CheckDateRange(value: string) returns (ok: bool)
    ensures ok <==> Parse(value).Some? && NoAssets(Parse(value).value)
  {
    hide Parse, Spans;
    var spans, parsed := ParseHlsAttributeList(value);
    if !parsed {
      return false;
    }
    var attrs := AttributesAt(value, spans);
    for i := 0 to |attrs|
      invariant forall j :: 0 <= j < i ==> attrs[j].name != "X-ASSET-LIST" && attrs[j].name != "X-ASSET-URI"
    {
      if attrs[i].name == "X-ASSET-LIST" || attrs[i].name == "X-ASSET-URI" {
        return false;
      }
    }
    return true;
  }

  method RewriteLine(rw: Rewriter, index: nat, st: State, line: string) returns (stepped: Option<Stepped>)
    ensures stepped == Step(rw, index, st, line)
  {
    hide UriLineStep, TagLineStep;
    if |line| > MAX_LINE {
      return None;
    }
    if index == 0 {
      return Some(Stepped(st, line));
    }
    if line == "" {
      if st.expectUri {
        return None;
      }
      return Some(Stepped(st, line));
    }
    if line[0] != '#' {
      stepped := RewriteUriLine(rw, index, st, line);
    } else {
      stepped := RewriteTag(rw, index, st, line);
    }
  }

  method RewriteHlsResponse(rw: Rewriter, maxLines: nat, limit: nat, text: string) returns (output: Option<string>)
    ensures output == Rewrite(rw, maxLines, limit, text)
  {
    hide CleanText, Split, Step, Run, Join, HasCrLf;
    var ok, sawCrLf := CheckText(text);
    if !ok {
      return None;
    }
    var separator := if sawCrLf then "\r\n" else "\n";
    var lines := Split(text, separator);
    if |lines| > maxLines || lines[0] != "#EXTM3U" {
      return None;
    }
    var original := lines;
    var st := Start();
    WholeRun(rw, original);
    for index := 0 to |original|
      invariant |lines| == |original| && lines[index..] == original[index..]
      invariant Run(rw, 0, Start(), original)
             == match Run(rw, index, st, original[index..])
                case None => None
                case Some(r) => Some(Ran(r.state, lines[..index] + r.lines))
    {
      RunOne(rw, index, st, original, lines[..index]);
      var stepped := RewriteLine(rw, index, st, original[index]);
      if stepped.None? {
        return None;
      }
      st := stepped.value.state;
      lines := lines[index := stepped.value.line];
      assert lines[..index + 1] == lines[..index] + [stepped.value.line];
    }
    EmptyRun(rw, |original|, st, original, lines);
    if !st.multivariant && !st.media {
      return None;
    }
    if st.expectUri {
      return None;
    }
    var joined := Join(lines, separator);
    if |joined| > limit {
      return None;
    }
    return Some(joined);
  }

  lemma WholeRun(rw: Rewriter, lines: seq<string>)
    ensures lines[0..] == lines
    ensures Run(rw, 0, Start(), lines).Some? ==>
      lines[..0] + Run(rw, 0, Start(), lines).value.lines == Run(rw, 0, Start(), lines).value.lines
  {
  }

  lemma RunOne(rw: Rewriter, index: nat, st: State, original: seq<string>, before: seq<string>)
    requires index < |original|
    ensures var s := Step(rw, index, st, original[index]);
      Run(rw, index, st, original[index..])
      == if s.None? || Run(rw, index + 1, s.value.state, original[index + 1..]).None? then None
         else Some(Ran(Run(rw, index + 1, s.value.state, original[index + 1..]).value.state,
                       [s.value.line] + Run(rw, index + 1, s.value.state, original[index + 1..]).value.lines))
    ensures var s := Step(rw, index, st, original[index]);
      s.Some? && Run(rw, index + 1, s.value.state, original[index + 1..]).Some? ==>
        var rest := Run(rw, index + 1, s.value.state, original[index + 1..]).value.lines;
        before + ([s.value.line] + rest) == before + [s.value.line] + rest
  {
    hide Step;
    assert original[index..][1..] == original[index + 1..];
  }

  lemma EmptyRun(rw: Rewriter, n: nat, st: State, original: seq<string>, lines: seq<string>)
    requires n == |original| == |lines|
    ensures Run(rw, n, st, original[n..]) == Some(Ran(st, []))
    ensures lines[..n] + [] == lines
  {
    assert original[n..] == [];
  }
}
