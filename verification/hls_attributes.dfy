/**
 The attribute list of an HLS tag (RFC 8216, section 4.2): names in capitals, values
 quoted or plain, separated by commas. Strings are sequences of bytes, written as characters.
 */
module HlsAttributes {
  import opened Wrappers
  import opened TextSpans

  const MAX_ATTRIBUTES := 256

  datatype Attr = Attr(name: string, quoted: bool, content: string)

  predicate IsNameByte(c: char) {
    'A' <= c <= 'Z' || '0' <= c <= '9' || c == '-'
  }

  predicate IsQuotedByte(c: char) {
    c != '"' && c >= ' ' && c != 0x7f as char
  }

  predicate IsPlainByte(c: char) {
    c != ',' && c > ' ' && c != 0x7f as char
  }

  predicate ValidAttr(a: Attr) {
    && a.name != "" && All(a.name, IsNameByte)
    && if a.quoted then All(a.content, IsQuotedByte)
       else a.content != "" && All(a.content, IsPlainByte) && a.content[0] != '"'
  }

  predicate ValidAll(attrs: seq<Attr>) {
    attrs != [] && forall i :: 0 <= i < |attrs| ==> ValidAttr(attrs[i])
  }

  predicate Unrepeated(attrs: seq<Attr>) {
    forall i, j :: 0 <= i < j < |attrs| ==> attrs[i].name != attrs[j].name
  }

  function Opening(a: Attr): string {
    a.name + "=" + if a.quoted then "\"" else ""
  }

  function Closing(a: Attr): string {
    if a.quoted then "\"" else ""
  }

  function Print(a: Attr): string {
    Opening(a) + a.content + Closing(a)
  }

  function PrintAll(attrs: seq<Attr>): string {
    if attrs == [] then ""
    else if |attrs| == 1 then Print(attrs[0])
    else Print(attrs[0]) + "," + PrintAll(attrs[1..])
  }

  // ---------- reading ----------

  datatype Found = Found(attr: Attr, rest: string)

  function ParseValue(name: string, text: string): Option<Found> {
    var quote := Expect(text, '"');
    if quote.Some? then
      var (content, t) := Take(quote.value, IsQuotedByte);
      var rest := Expect(t, '"');
      if rest.None? then None else Some(Found(Attr(name, true, content), rest.value))
    else
      var (content, rest) := Take(text, IsPlainByte);
      if content == "" || (rest != "" && rest[0] != ',') then None else Some(Found(Attr(name, false, content), rest))
  }

  function ParseAttr(text: string): Option<Found> {
    var (name, t) := Take(text, IsNameByte);
    var value := Expect(t, '=');
    if name == "" || value.None? then None else ParseValue(name, value.value)
  }

  lemma ParseValueSound(name: string, text: string)
    requires ParseValue(name, text).Some?
    ensures var f := ParseValue(name, text).value;
      && f.attr.name == name
      && text == (if f.attr.quoted then "\"" else "") + f.attr.content + Closing(f.attr) + f.rest
      && (name != "" && All(name, IsNameByte) ==> ValidAttr(f.attr))
      && (!f.attr.quoted ==> f.rest == "" || f.rest[0] == ',')
  {
    var f := ParseValue(name, text).value;
    ExpectSound(text, '"');
    if f.attr.quoted {
      var t := Expect(text, '"').value;
      TakeSound(t, IsQuotedByte);
      ExpectSound(Take(t, IsQuotedByte).1, '"');
    } else {
      TakeSound(text, IsPlainByte);
      PlainStart(text, f.attr.content, f.rest);
    }
  }

  lemma PlainStart(text: string, content: string, rest: string)
    requires Expect(text, '"').None? && text == content + rest && content != ""
    ensures content[0] != '"' && text == "" + content + "" + rest
  {
    assert text[0] == content[0];
  }

  lemma ParseValueComplete(a: Attr, rest: string)
    requires ValidAttr(a) && (!a.quoted ==> rest == "" || rest[0] == ',')
    ensures ParseValue(a.name, (if a.quoted then "\"" else "") + a.content + Closing(a) + rest) == Some(Found(a, rest))
  {
    hide Take, Expect, All;
    if a.quoted {
      var t := ['"'] + rest;
      assert "\"" + a.content + "\"" + rest == ['"'] + (a.content + t);
      ExpectIs('"', a.content + t);
      TakeIs(a.content, t, IsQuotedByte);
      ExpectIs('"', rest);
    } else {
      assert "" + a.content + "" + rest == a.content + rest;
      NotExpected(a.content, rest);
      TakeIs(a.content, rest, IsPlainByte);
    }
  }

  lemma NotExpected(content: string, rest: string)
    requires content != "" && content[0] != '"'
    ensures Expect(content + rest, '"').None?
  {
    assert (content + rest)[0] == content[0];
  }

  lemma ParseAttrSound(text: string)
    requires ParseAttr(text).Some?
    ensures var f := ParseAttr(text).value;
      ValidAttr(f.attr) && text == Print(f.attr) + f.rest && (!f.attr.quoted ==> f.rest == "" || f.rest[0] == ',')
  {
    hide ParseValue, Take, Expect, All;
    var f := ParseAttr(text).value;
    TakeSound(text, IsNameByte);
    var name := Take(text, IsNameByte).0;
    var t := Take(text, IsNameByte).1;
    ExpectSound(t, '=');
    var v := Expect(t, '=').value;
    ParseValueSound(name, v);
    var q := if f.attr.quoted then "\"" else "";
    Rejoin(name, q, f.attr.content, Closing(f.attr), f.rest);
  }

  lemma Rejoin(name: string, q: string, content: string, close: string, rest: string)
    ensures name + (['='] + (q + content + close + rest)) == (name + "=" + q) + content + close + rest
  {
  }

  lemma ParseAttrComplete(a: Attr, rest: string)
    requires ValidAttr(a) && (!a.quoted ==> rest == "" || rest[0] == ',')
    ensures ParseAttr(Print(a) + rest) == Some(Found(a, rest))
  {
    ParseValueComplete(a, rest);
    hide ParseValue, Take, Expect, All;
    var q := if a.quoted then "\"" else "";
    var v := q + a.content + Closing(a) + rest;
    Rejoin(a.name, q, a.content, Closing(a), rest);
    TakeIs(a.name, ['='] + v, IsNameByte);
    ExpectIs('=', v);
  }

  function ParseList(text: string): Option<seq<Attr>>
    decreases |text|
  {
    match ParseAttr(text)
    case None => None
    case Some(f) =>
      ParseAttrSound(text);
      if f.rest == "" then Some([f.attr])
      else if f.rest[0] != ',' then None
      else
        match ParseList(f.rest[1..])
        case None => None
        case Some(more) => Some([f.attr] + more)
  }

  /** The attributes of a list, unless a name occurs twice or there are too many. */
  function Parse(text: string): Option<seq<Attr>> {
    var list := ParseList(text);
    if list.Some? && Unrepeated(list.value) && |list.value| <= MAX_ATTRIBUTES then list else None
  }

  lemma {:induction false} ParseListSound(text: string)
    requires ParseList(text).Some?
    ensures ValidAll(ParseList(text).value) && PrintAll(ParseList(text).value) == text
    decreases |text|
  {
    hide ParseAttr, ValidAttr, Print;
    var f := ParseAttr(text).value;
    ParseAttrSound(text);
    if f.rest != "" {
      var more := ParseList(f.rest[1..]).value;
      ParseListSound(f.rest[1..]);
      assert ([f.attr] + more)[1..] == more;
      assert f.rest == "," + f.rest[1..];
    }
  }

  lemma ParseListStep(a: Attr, rest: string)
    requires ValidAttr(a) && (rest == "" || rest[0] == ',')
    ensures ParseList(Print(a) + rest) ==
      if rest == "" then Some([a])
      else if ParseList(rest[1..]).None? then None else Some([a] + ParseList(rest[1..]).value)
  {
    hide ParseAttr, ValidAttr, Print;
    ParseAttrComplete(a, rest);
  }

  lemma {:induction false} ParseListComplete(attrs: seq<Attr>)
    requires ValidAll(attrs)
    ensures ParseList(PrintAll(attrs)) == Some(attrs)
    decreases |attrs|
  {
    hide ParseAttr, ValidAttr, Print, ParseList;
    var a := attrs[0];
    if |attrs| == 1 {
      ParseListStep(a, "");
      assert Print(a) + "" == PrintAll(attrs) && attrs == [a];
    } else {
      var rest := "," + PrintAll(attrs[1..]);
      ParseListStep(a, rest);
      assert Print(a) + rest == PrintAll(attrs);
      assert ValidAll(attrs[1..]);
      ParseListComplete(attrs[1..]);
      assert rest[1..] == PrintAll(attrs[1..]);
      assert attrs == [a] + attrs[1..];
    }
  }

  /** The attributes of a list print it exactly, and a list is accepted exactly when it is printed so. */
  lemma ReadableExactly(text: string, attrs: seq<Attr>)
    ensures Parse(text) == Some(attrs)
      <==> ValidAll(attrs) && Unrepeated(attrs) && |attrs| <= MAX_ATTRIBUTES && PrintAll(attrs) == text
  {
    hide ParseList, PrintAll, ValidAll;
    if Parse(text) == Some(attrs) {
      ParseListSound(text);
    }
    if ValidAll(attrs) {
      ParseListComplete(attrs);
    }
  }

  // ---------- where the values lie ----------

  datatype Span = Span(name: string, valueStart: nat, valueEnd: nat, quoted: bool)

  function SpanOf(a: Attr, at: nat): Span {
    Span(a.name, at + |Opening(a)|, at + |Opening(a)| + |a.content|, a.quoted)
  }

  function Spans(attrs: seq<Attr>, at: nat): (spans: seq<Span>)
    ensures |spans| == |attrs|
  {
    if attrs == [] then [] else [SpanOf(attrs[0], at)] + Spans(attrs[1..], at + |Print(attrs[0])| + 1)
  }

  function Before(attrs: seq<Attr>, i: nat): string
    requires i < |attrs|
  {
    if i == 0 then "" else Print(attrs[0]) + "," + Before(attrs[1..], i - 1)
  }

  function After(attrs: seq<Attr>, i: nat): string
    requires i < |attrs|
  {
    if i == |attrs| - 1 then "" else "," + PrintAll(attrs[i + 1..])
  }

  lemma {:induction false} PrintedAround(attrs: seq<Attr>, i: nat)
    requires i < |attrs|
    ensures PrintAll(attrs) == Before(attrs, i) + Print(attrs[i]) + After(attrs, i)
    decreases i
  {
    hide Print;
    if i > 0 {
      PrintedAround(attrs[1..], i - 1);
      assert attrs[1..][i..] == attrs[i + 1..];
      var head := Print(attrs[0]) + ",";
      assert head + (Before(attrs[1..], i - 1) + Print(attrs[i]) + After(attrs, i))
          == head + Before(attrs[1..], i - 1) + Print(attrs[i]) + After(attrs, i);
    }
  }

  lemma {:induction false} SpanAt(attrs: seq<Attr>, i: nat, at: nat)
    requires i < |attrs|
    ensures Spans(attrs, at)[i] == SpanOf(attrs[i], at + |Before(attrs, i)|)
    decreases i
  {
    hide Print, SpanOf;
    if i > 0 {
      SpanAt(attrs[1..], i - 1, at + |Print(attrs[0])| + 1);
    }
  }

  lemma {:induction false} BeforeSame(a: seq<Attr>, b: seq<Attr>, i: nat)
    requires i < |a| && i < |b| && a[..i] == b[..i]
    ensures Before(a, i) == Before(b, i)
    decreases i
  {
    if i > 0 {
      assert a[0] == a[..i][0] && b[0] == b[..i][0];
      assert a[1..][..i - 1] == a[..i][1..] && b[1..][..i - 1] == b[..i][1..];
      BeforeSame(a[1..], b[1..], i - 1);
    }
  }

  /** A value cut out of the line by its span is the attribute's content. */
  lemma SpanHolds(head: string, attrs: seq<Attr>, i: nat)
    requires i < |attrs|
    ensures var s := Spans(attrs, |head|)[i]; var line := head + PrintAll(attrs);
      s.valueStart <= s.valueEnd <= |line| && line[s.valueStart..s.valueEnd] == attrs[i].content
      && s.name == attrs[i].name && s.quoted == attrs[i].quoted
  {
    hide Print, Before, After, PrintAll, Spans;
    var a := attrs[i];
    var front := head + Before(attrs, i) + Opening(a);
    PrintedAround(attrs, i);
    SpanAt(attrs, i, |head|);
    PrintParts(a);
    Middle(head, Before(attrs, i), Opening(a), a.content, Closing(a), After(attrs, i));
    InTheMiddle(front, a.content, Closing(a) + After(attrs, i));
  }

  lemma PrintParts(a: Attr)
    ensures Print(a) == Opening(a) + a.content + Closing(a)
  {
  }

  lemma Middle(head: string, outside: string, o: string, content: string, c: string, rest: string)
    ensures (head + outside + o) + content + (c + rest) == head + (outside + (o + content + c) + rest)
  {
  }

  lemma InTheMiddle(a: string, b: string, c: string)
    ensures (a + b + c)[|a|..|a| + |b|] == b
  {
  }

  function WithContent(attrs: seq<Attr>, i: nat, content: string): (out: seq<Attr>)
    requires i < |attrs|
    ensures |out| == |attrs|
  {
    attrs[i := attrs[i].(content := content)]
  }

  /** Splicing at an attribute's own span, while nothing before it has changed, replaces its content. */
  lemma SpliceOne(head: string, attrs: seq<Attr>, mixed: seq<Attr>, i: nat, content: string)
    requires i < |attrs| == |mixed| && mixed[..i + 1] == attrs[..i + 1]
    ensures var s := Spans(attrs, |head|)[i]; var line := head + PrintAll(mixed);
      s.valueStart <= s.valueEnd <= |line|
      && Spliced(line, s.valueStart, s.valueEnd, content) == head + PrintAll(WithContent(mixed, i, content))
  {
    hide Print, Before, After, PrintAll, Spans, Opening, Closing;
    var a := attrs[i];
    var changed := WithContent(mixed, i, content);
    assert mixed[i] == mixed[..i + 1][i] && attrs[i] == attrs[..i + 1][i];
    assert mixed[..i] == mixed[..i + 1][..i] && attrs[..i] == attrs[..i + 1][..i];
    ChangedAround(mixed, i, content);
    BeforeSame(mixed, attrs, i);
    SpanAt(attrs, i, |head|);
    PrintedAround(mixed, i);
    PrintedAround(changed, i);
    PrintParts(a);
    PrintParts(changed[i]);
    Middle(head, Before(mixed, i), Opening(a), a.content, Closing(a), After(mixed, i));
    Middle(head, Before(mixed, i), Opening(a), content, Closing(a), After(mixed, i));
    SplicedParts(head + Before(mixed, i) + Opening(a), a.content, Closing(a) + After(mixed, i), content);
  }

  lemma ChangedAround(attrs: seq<Attr>, i: nat, content: string)
    requires i < |attrs|
    ensures var changed := WithContent(attrs, i, content);
      && Before(changed, i) == Before(attrs, i) && After(changed, i) == After(attrs, i)
      && Opening(changed[i]) == Opening(attrs[i]) && Closing(changed[i]) == Closing(attrs[i])
      && changed[i].content == content
  {
    var changed := WithContent(attrs, i, content);
    assert changed[..i] == attrs[..i] && changed[i + 1..] == attrs[i + 1..];
    BeforeSame(changed, attrs, i);
  }
}
