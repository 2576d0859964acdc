/**
 The Emby authorization value: a scheme and a list of quoted attributes. A value is
 read into the pieces it is written from, so that printing them gives it back.
 Strings are sequences of bytes, written as characters.
 */
module EmbySpec {
  import opened Wrappers
  import opened TextSpans

  /** One attribute with the whitespace around each of its parts. */
  datatype Part = Part(before: string, name: string, gap: string, pad: string, content: string, after: string)

  predicate IsSpace(c: char) {
    c == ' ' || c == '\t'
  }

  predicate IsToken(c: char) {
    'a' <= c <= 'z' || 'A' <= c <= 'Z' || '0' <= c <= '9' || c == '-' || c == '_'
  }

  predicate IsContent(c: char) {
    c != '"' && c != '\\' && c >= ' ' && c != 0x7f as char
  }

  function Print(p: Part): string {
    p.before + (p.name + (p.gap + ("=" + (p.pad + ("\"" + (p.content + ("\"" + p.after)))))))
  }

  function PrintAll(parts: seq<Part>): string {
    if parts == [] then ""
    else if |parts| == 1 then Print(parts[0])
    else Print(parts[0]) + "," + PrintAll(parts[1..])
  }

  predicate ValidPart(p: Part) {
    && All(p.before, IsSpace) && All(p.gap, IsSpace) && All(p.pad, IsSpace) && All(p.after, IsSpace)
    && p.name != "" && All(p.name, IsToken) && All(p.content, IsContent)
  }

  predicate ValidParts(parts: seq<Part>) {
    parts != [] && forall i :: 0 <= i < |parts| ==> ValidPart(parts[i])
  }

  // ---------- reading ----------

  datatype NamePart = NamePart(before: string, name: string, gap: string, rest: string)

  datatype ContentPart = ContentPart(pad: string, content: string, after: string)

  /** A name up to and with its equals sign. */
  function ParseName(text: string): Option<NamePart> {
    var (before, t1) := Take(text, IsSpace);
    var (name, t2) := Take(t1, IsToken);
    var (gap, t3) := Take(t2, IsSpace);
    var t4 := Expect(t3, '=');
    if name == "" || t4.None? then None else Some(NamePart(before, name, gap, t4.value))
  }

  /** A quoted content and the whitespace around it. */
  function ParseContent(text: string): Option<ContentPart> {
    var (pad, t5) := Take(text, IsSpace);
    var t6 := Expect(t5, '"');
    if t6.None? then None
    else
      var (content, t7) := Take(t6.value, IsContent);
      var t8 := Expect(t7, '"');
      if t8.None? then None else Some(ContentPart(pad, content, Take(t8.value, IsSpace).0))
  }

  function ParsePart(text: string): Option<Part> {
    match ParseName(text)
    case None => None
    case Some(n) =>
      match ParseContent(n.rest)
      case None => None
      case Some(c) => Some(Part(n.before, n.name, n.gap, c.pad, c.content, c.after))
  }

  lemma ParsePartSound(text: string)
    requires ParsePart(text).Some?
    ensures var p := ParsePart(text).value;
      ValidPart(p) && |Print(p)| <= |text| && text == Print(p) + text[|Print(p)|..] && Stops(text[|Print(p)|..], IsSpace)
  {
    hide Take, Expect, All, Stops, Print;
    var p := ParsePart(text).value;
    TakeSound(text, IsSpace);
    var t1 := Take(text, IsSpace).1;
    TakeSound(t1, IsToken);
    var t2 := Take(t1, IsToken).1;
    TakeSound(t2, IsSpace);
    var t3 := Take(t2, IsSpace).1;
    ExpectSound(t3, '=');
    var t4 := Expect(t3, '=').value;
    TakeSound(t4, IsSpace);
    var t5 := Take(t4, IsSpace).1;
    ExpectSound(t5, '"');
    var t6 := Expect(t5, '"').value;
    TakeSound(t6, IsContent);
    var t7 := Take(t6, IsContent).1;
    ExpectSound(t7, '"');
    var t8 := Expect(t7, '"').value;
    TakeSound(t8, IsSpace);
    Joined(text, t1, t2, t4, t6, t8, Take(t8, IsSpace).1, p);
  }

  lemma Joined(text: string, t1: string, t2: string, t4: string, t6: string, t8: string, rest: string, p: Part)
    requires text == p.before + t1 && t1 == p.name + t2 && t2 == p.gap + (['='] + t4)
    requires t4 == p.pad + (['"'] + t6) && t6 == p.content + (['"'] + t8) && t8 == p.after + rest
    ensures |Print(p)| <= |text| && text == Print(p) + rest && rest == text[|Print(p)|..]
  {
    assert (['"'] + p.after) + rest == ['"'] + (p.after + rest);
    var c := p.content + ("\"" + p.after);
    assert c + rest == t6;
    var d := p.pad + ("\"" + c);
    assert d + rest == t4;
    var e := p.gap + ("=" + d);
    assert e + rest == t2;
    assert (p.name + e) + rest == t1;
    assert Print(p) == p.before + (p.name + e);
    assert Print(p) + rest == text;
    Cut(Print(p), rest);
  }

  lemma ParsePartComplete(p: Part, rest: string)
    requires ValidPart(p) && Stops(rest, IsSpace)
    ensures ParsePart(Print(p) + rest) == Some(p)
  {
    var t8 := p.after + rest;
    var t7 := ['"'] + t8;
    var t6 := p.content + t7;
    var t5 := ['"'] + t6;
    var t4 := p.pad + t5;
    var t3 := ['='] + t4;
    var t2 := p.gap + t3;
    var t1 := p.name + t2;
    hide Take, Expect, All, Stops, Print;
    StopsHere('"', t8, IsContent);
    StopsHere('"', t6, IsSpace);
    StopsHere('=', t4, IsSpace);
    StopsHere('=', t4, IsToken);
    StopsThrough(p.gap, t3);
    NameStops(p.name, t2);
    Joined(p.before + t1, t1, t2, t4, t6, t8, rest, p);
    TakeIs(p.before, t1, IsSpace);
    TakeIs(p.name, t2, IsToken);
    TakeIs(p.gap, t3, IsSpace);
    ExpectIs('=', t4);
    TakeIs(p.pad, t5, IsSpace);
    ExpectIs('"', t6);
    TakeIs(p.content, t7, IsContent);
    ExpectIs('"', t8);
    TakeIs(p.after, rest, IsSpace);
  }

  lemma StopsHere(c: char, rest: string, kind: char -> bool)
    requires !kind(c)
    ensures Stops([c] + rest, kind)
  {
  }

  lemma NameStops(name: string, rest: string)
    requires All(name, IsToken) && name != ""
    ensures Stops(name + rest, IsSpace)
  {
    assert IsToken(name[0]) && (name + rest)[0] == name[0];
  }

  lemma StopsThrough(spaces: string, rest: string)
    requires All(spaces, IsSpace) && Stops(rest, IsToken)
    ensures Stops(spaces + rest, IsToken)
  {
    if spaces != "" {
      assert IsSpace(spaces[0]) && (spaces + rest)[0] == spaces[0];
    } else {
      assert spaces + rest == rest;
    }
  }

  function Parse(text: string): Option<seq<Part>>
    decreases |text|
  {
    match ParsePart(text)
    case None => None
    case Some(p) =>
      ParsePartSound(text);
      var rest := text[|Print(p)|..];
      if rest == "" then Some([p])
      else if rest[0] != ',' then None
      else
        match Parse(rest[1..])
        case None => None
        case Some(ps) => Some([p] + ps)
  }

  lemma {:induction false} ParseSound(text: string)
    requires Parse(text).Some?
    ensures ValidParts(Parse(text).value) && PrintAll(Parse(text).value) == text
    decreases |text|
  {
    hide ParsePart, ValidPart, Print, Stops;
    var p := ParsePart(text).value;
    ParsePartSound(text);
    var rest := text[|Print(p)|..];
    if rest != "" {
      ParseSound(rest[1..]);
      var ps := Parse(rest[1..]).value;
      assert ([p] + ps)[1..] == ps;
      assert rest == "," + rest[1..];
    }
  }

  lemma {:induction false} ParseComplete(parts: seq<Part>)
    requires ValidParts(parts)
    ensures Parse(PrintAll(parts)) == Some(parts)
    decreases |parts|
  {
    hide ParsePart, Print;
    var p := parts[0];
    assert ValidPart(p);
    var rest := if |parts| == 1 then "" else "," + PrintAll(parts[1..]);
    hide ValidPart;
    ParsePartComplete(p, rest);
    assert PrintAll(parts) == Print(p) + rest;
    Cut(Print(p), rest);
    if |parts| > 1 {
      assert ValidParts(parts[1..]);
      ParseComplete(parts[1..]);
      assert rest[1..] == PrintAll(parts[1..]);
      assert parts == [p] + parts[1..];
    } else {
      assert parts == [p];
    }
  }

  /** A list is readable exactly when it is printed from valid parts, and from one list only. */
  lemma ReadableExactly(text: string, parts: seq<Part>)
    ensures Parse(text) == Some(parts) <==> ValidParts(parts) && PrintAll(parts) == text
  {
    hide Parse, PrintAll, ValidParts;
    if Parse(text) == Some(parts) {
      ParseSound(text);
    }
    if ValidParts(parts) {
      ParseComplete(parts);
    }
  }

  // ---------- where the parts lie ----------

  datatype Attribute = Attribute(name: string, attrStart: nat, attrEnd: nat, valueStart: nat, valueEnd: nat)

  function SpanOf(p: Part, at: nat): Attribute {
    var start := at + |p.before|;
    var value := start + |p.name| + |p.gap| + 1 + |p.pad| + 1;
    Attribute(p.name, start, value + |p.content| + 1, value, value + |p.content|)
  }

  /** The spans of a printed list that starts at an offset. */
  function Spans(parts: seq<Part>, at: nat): (spans: seq<Attribute>)
    ensures |spans| == |parts|
  {
    if parts == [] then [] else [SpanOf(parts[0], at)] + Spans(parts[1..], at + |Print(parts[0])| + 1)
  }

  /** What is printed before and after one part of a list. */
  function Before(parts: seq<Part>, i: nat): string
    requires i < |parts|
  {
    if i == 0 then "" else Print(parts[0]) + "," + Before(parts[1..], i - 1)
  }

  function After(parts: seq<Part>, i: nat): string
    requires i < |parts|
  {
    if i == |parts| - 1 then "" else "," + PrintAll(parts[i + 1..])
  }

  lemma {:induction false} PrintedAround(parts: seq<Part>, i: nat)
    requires i < |parts|
    ensures PrintAll(parts) == Before(parts, i) + Print(parts[i]) + After(parts, i)
    decreases i
  {
    hide Print;
    if i > 0 {
      PrintedAround(parts[1..], i - 1);
      assert parts[1..][i..] == parts[i + 1..];
      var head := Print(parts[0]) + ",";
      assert head + (Before(parts[1..], i - 1) + Print(parts[i]) + After(parts, i))
          == head + Before(parts[1..], i - 1) + Print(parts[i]) + After(parts, i);
    }
  }

  lemma {:induction false} SpanAt(parts: seq<Part>, i: nat, at: nat)
    requires i < |parts|
    ensures Spans(parts, at)[i] == SpanOf(parts[i], at + |Before(parts, i)|)
    decreases i
  {
    hide Print, SpanOf;
    if i > 0 {
      SpanAt(parts[1..], i - 1, at + |Print(parts[0])| + 1);
    }
  }

  lemma {:induction false} BeforeSame(a: seq<Part>, b: seq<Part>, i: nat)
    requires i < |a| && i < |b| && a[..i] == b[..i]
    ensures Before(a, i) == Before(b, i)
    decreases i
  {
    if i > 0 {
      assert a[0] == a[..i][0] && b[0] == b[..i][0];
      assert a[1..][..i - 1] == a[..i][1..] && b[1..][..i - 1] == b[..i][1..];
      BeforeSame(a[1..], b[1..], i - 1);
    }
  }

  lemma {:induction false} PrintedAppend(a: seq<Part>, b: seq<Part>)
    requires a != [] && b != []
    ensures PrintAll(a + b) == PrintAll(a) + "," + PrintAll(b)
    decreases |a|
  {
    assert (a + b)[1..] == a[1..] + b;
    if |a| == 1 {
      assert a[1..] + b == b;
    } else {
      PrintedAppend(a[1..], b);
    }
  }

  // ---------- whole values ----------

  /** What a value says; Foreign covers every scheme that is not one of the two known ones. */
  datatype Reading =
    | NoScheme
    | Foreign
    | Bare(lead: string, scheme: string, gap: string)
    | Broken
    | Listed(lead: string, scheme: string, gap: string, parts: seq<Part>)

  function Lower(c: char): char {
    if 'A' <= c <= 'Z' then (c as int + 32) as char else c
  }

  predicate Fold(a: string, b: string) {
    |a| == |b| && forall i :: 0 <= i < |a| ==> Lower(a[i]) == Lower(b[i])
  }

  predicate KnownScheme(scheme: string) {
    Fold(scheme, "MediaBrowser") || Fold(scheme, "Emby")
  }

  function Read(value: string): Reading {
    var (lead, t1) := Take(value, IsSpace);
    var (scheme, t2) := Take(t1, IsToken);
    var (gap, body) := Take(t2, IsSpace);
    if scheme == "" then NoScheme
    else if !KnownScheme(scheme) || (t2 != "" && gap == "") then Foreign
    else if body == "" then Bare(lead, scheme, gap)
    else
      match Parse(body)
      case None => Broken
      case Some(parts) => Listed(lead, scheme, gap, parts)
  }

  ghost predicate Headed(lead: string, scheme: string, gap: string) {
    && All(lead, IsSpace) && All(scheme, IsToken) && scheme != "" && KnownScheme(scheme) && All(gap, IsSpace)
  }

  /** A printed list is read back, provided its whitespace before the first attribute is in the gap. */
  lemma ReadListed(lead: string, scheme: string, gap: string, parts: seq<Part>)
    requires Headed(lead, scheme, gap) && gap != "" && ValidParts(parts) && parts[0].before == ""
    ensures Read(lead + scheme + gap + PrintAll(parts)) == Listed(lead, scheme, gap, parts)
  {
    hide Parse, KnownScheme;
    var body := PrintAll(parts);
    FirstChar(parts);
    ParseComplete(parts);
    ReadPieces(lead, scheme, gap, body);
  }

  lemma FirstChar(parts: seq<Part>)
    requires ValidParts(parts) && parts[0].before == ""
    ensures PrintAll(parts) != "" && Stops(PrintAll(parts), IsSpace)
  {
    var p := parts[0];
    assert ValidPart(p);
    assert IsToken(p.name[0]);
    assert Print(p)[0] == p.name[0];
    assert PrintAll(parts)[0] == p.name[0];
  }

  lemma ReadPieces(lead: string, scheme: string, gap: string, body: string)
    requires Headed(lead, scheme, gap) && Stops(body, IsSpace) && (gap == "" ==> body == "")
    ensures Read(lead + scheme + gap + body) ==
      if body == "" then Bare(lead, scheme, gap)
      else if Parse(body).None? then Broken
      else Listed(lead, scheme, gap, Parse(body).value)
  {
    var t2 := gap + body;
    var t1 := scheme + t2;
    var value := lead + scheme + gap + body;
    assert value == lead + t1;
    assert Stops(t2, IsToken) by {
      if t2 != "" {
        assert gap != "" && t2[0] == gap[0] && IsSpace(gap[0]);
      }
    }
    assert Stops(t1, IsSpace) by { assert IsToken(scheme[0]) && t1[0] == scheme[0]; }
    hide Parse, KnownScheme, Take, All, Stops;
    TakeIs(lead, t1, IsSpace);
    TakeIs(scheme, t2, IsToken);
    TakeIs(gap, body, IsSpace);
  }

  lemma ReadSound(value: string)
    ensures var r := Read(value);
      && (r.Bare? ==> Headed(r.lead, r.scheme, r.gap) && value == r.lead + r.scheme + r.gap)
      && (r.Listed? ==>
            && Headed(r.lead, r.scheme, r.gap) && r.gap != "" && ValidParts(r.parts) && r.parts[0].before == ""
            && value == r.lead + r.scheme + r.gap + PrintAll(r.parts))
  {
    hide KnownScheme, Take, All, Stops, Parse, PrintAll, ValidParts;
    var r := Read(value);
    TakeSound(value, IsSpace);
    var t1 := Take(value, IsSpace).1;
    TakeSound(t1, IsToken);
    var t2 := Take(t1, IsToken).1;
    TakeSound(t2, IsSpace);
    var body := Take(t2, IsSpace).1;
    if r.Bare? || r.Listed? {
      assert r.lead + (r.scheme + (r.gap + body)) == r.lead + r.scheme + r.gap + body;
      if r.Listed? {
        ParseSound(body);
        NoSpaceFirst(body, r.parts);
      } else {
        assert r.lead + r.scheme + r.gap + body == r.lead + r.scheme + r.gap;
      }
    }
  }

  lemma NoSpaceFirst(body: string, parts: seq<Part>)
    requires ValidParts(parts) && PrintAll(parts) == body && Stops(body, IsSpace)
    ensures parts[0].before == ""
  {
    if parts[0].before != "" {
      SpaceFirst(parts);
    }
  }

  lemma SpaceFirst(parts: seq<Part>)
    requires ValidParts(parts) && parts[0].before != ""
    ensures PrintAll(parts) != "" && IsSpace(PrintAll(parts)[0])
  {
    var p := parts[0];
    assert ValidPart(p);
    assert IsSpace(p.before[0]);
    assert Print(p)[0] == p.before[0];
    assert PrintAll(parts)[0] == p.before[0];
  }
}
