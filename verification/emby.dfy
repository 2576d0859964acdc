/** The cursor loops that read, strip and rewrite an Emby authorization value. */
module EmbyAuthorization {
  import opened Wrappers
  import opened TextSpans
  import opened EmbySpec
  import opened EmbyEdit
  import opened EmbyRewrite

  /** The spans of the attributes from an offset to the end; None if they cannot be read. */
  function SpansFrom(value: string, offset: nat): Option<seq<Attribute>>
    requires offset <= |value|
  {
    match Parse(value[offset..])
    case None => None
    case Some(parts) => Some(Spans(parts, offset))
  }

  lemma PrintLength(p: Part)
    ensures |Print(p)| == |p.before| + |p.name| + |p.gap| + 1 + |p.pad| + 1 + |p.content| + 1 + |p.after|
  {
  }

  /** A name and its equals sign, read from left to right. */
  method ScanName(value: string, offset: nat) returns (ok: bool, nameStart: nat, nameEnd: nat, next: nat)
    requires offset <= |value|
    ensures ok <==> ParseName(value[offset..]).Some?
    ensures ok ==>
      && offset <= nameStart <= nameEnd < next <= |value|
      && ParseName(value[offset..]).value
         == NamePart(value[offset..nameStart], value[nameStart..nameEnd], value[nameEnd..next - 1], value[next..])
  {
    hide Take, Expect, Lead, IsSpace, IsToken;
    nameStart := SkipRun(value, offset, IsSpace);
    nameEnd := SkipRun(value, nameStart, IsToken);
    TakeAt(value, offset, IsSpace);
    TakeAt(value, nameStart, IsToken);
    next := SkipRun(value, nameEnd, IsSpace);
    TakeAt(value, nameEnd, IsSpace);
    ExpectAt(value, next, '=');
    if nameStart == nameEnd || next >= |value| || value[next] != '=' {
      return false, nameStart, nameEnd, next;
    }
    return true, nameStart, nameEnd, next + 1;
  }

  /** A quoted content and the whitespace after it. */
  method ScanContent(value: string, offset: nat) returns (ok: bool, valueStart: nat, valueEnd: nat, next: nat)
    requires offset <= |value|
    ensures ok <==> ParseContent(value[offset..]).Some?
    ensures ok ==>
      && offset < valueStart <= valueEnd < next <= |value|
      && ParseContent(value[offset..]).value
         == ContentPart(value[offset..valueStart - 1], value[valueStart..valueEnd], value[valueEnd + 1..next])
  {
    hide Take, Expect, Lead, IsSpace, IsContent;
    valueStart := SkipRun(value, offset, IsSpace);
    TakeAt(value, offset, IsSpace);
    ExpectAt(value, valueStart, '"');
    if valueStart >= |value| || value[valueStart] != '"' {
      return false, valueStart, valueStart, valueStart;
    }
    valueStart := valueStart + 1;
    valueEnd := SkipRun(value, valueStart, IsContent);
    TakeAt(value, valueStart, IsContent);
    ExpectAt(value, valueEnd, '"');
    if valueEnd >= |value| || value[valueEnd] != '"' {
      return false, valueStart, valueEnd, valueEnd;
    }
    next := SkipRun(value, valueEnd + 1, IsSpace);
    TakeAt(value, valueEnd + 1, IsSpace);
    return true, valueStart, valueEnd, next;
  }

  /** One attribute with its offsets, and where the scan stands behind it. */
  method ScanAttribute(value: string, offset: nat) returns (found: Option<Attribute>, next: nat)
    requires offset <= |value|
    ensures found.None? <==> ParsePart(value[offset..]).None?
    ensures found.Some? ==>
      var p := ParsePart(value[offset..]).value;
      found.value == SpanOf(p, offset) && next == offset + |Print(p)| && next <= |value|
  {
    hide ParseName, ParseContent, Print;
    var ok, nameStart, nameEnd, rest := ScanName(value, offset);
    if !ok {
      return None, offset;
    }
    var quoted, valueStart, valueEnd, after := ScanContent(value, rest);
    if !quoted {
      return None, offset;
    }
    PrintLength(ParsePart(value[offset..]).value);
    return Some(Attribute(value[nameStart..nameEnd], nameStart, valueEnd + 1, valueStart, valueEnd)), after;
  }

  lemma SpansCons(p: Part, rest: seq<Part>, at: nat)
    ensures Spans([p] + rest, at) == [SpanOf(p, at)] + Spans(rest, at + |Print(p)| + 1)
  {
    assert ([p] + rest)[1..] == rest;
  }

  lemma SpansStep(value: string, offset: nat)
    requires offset <= |value|
    ensures ParsePart(value[offset..]).None? ==> SpansFrom(value, offset).None?
    ensures ParsePart(value[offset..]).Some? ==>
      var p := ParsePart(value[offset..]).value; var next := offset + |Print(p)|;
      && next <= |value|
      && SpansFrom(value, offset)
         == if next == |value| then Some([SpanOf(p, offset)])
            else if value[next] != ',' || SpansFrom(value, next + 1).None? then None
            else Some([SpanOf(p, offset)] + SpansFrom(value, next + 1).value)
  {
    hide ParsePart, Print, SpanOf, ValidPart, Stops;
    if ParsePart(value[offset..]).Some? {
      ParsePartSound(value[offset..]);
      var p := ParsePart(value[offset..]).value;
      var next := offset + |Print(p)|;
      assert value[offset..][|Print(p)|..] == value[next..];
      assert value[next..] == "" <==> next == |value|;
      if next < |value| {
        assert value[next..][0] == value[next];
        assert value[next..][1..] == value[next + 1..];
        if value[next] == ',' && Parse(value[next + 1..]).Some? {
          SpansCons(p, Parse(value[next + 1..]).value, offset);
        }
      } else {
        assert Parse(value[offset..]) == Some([p]);
        assert [p] + [] == [p] && [SpanOf(p, offset)] + [] == [SpanOf(p, offset)];
        SpansCons(p, [], offset);
      }
    }
  }

  /** The attributes from an offset on, each with its offsets in the value. */
  method ParseEmbyAuthorizationAttributes(value: string, start: nat) returns (attributes: seq<Attribute>, ok: bool)
    requires start <= |value|
    ensures ok <==> SpansFrom(value, start).Some?
    ensures ok ==> attributes == SpansFrom(value, start).value
  {
    hide ParsePart, Print, SpanOf, SpansFrom;
    var offset := start;
    attributes := [];
    assert forall rest: seq<Attribute> :: [] + rest == rest;
    while true
      invariant start <= offset <= |value|
      invariant SpansFrom(value, start)
             == if SpansFrom(value, offset).None? then None else Some(attributes + SpansFrom(value, offset).value)
      decreases |value| - offset
    {
      SpansStep(value, offset);
      var found, next := ScanAttribute(value, offset);
      if found.None? {
        return [], false;
      }
      attributes := attributes + [found.value];
      if next == |value| {
        return attributes, true;
      }
      if value[next] != ',' {
        return [], false;
      }
      if next + 1 == |value| {
        NothingParsed(value);
        return [], false;
      }
      ghost var rest := SpansFrom(value, next + 1);
      if rest.Some? {
        Regrouped(attributes[..|attributes| - 1], found.value, rest.value);
      }
      offset := next + 1;
    }
  }

  lemma Regrouped(a: seq<Attribute>, x: Attribute, b: seq<Attribute>)
    ensures a + ([x] + b) == a + [x] + b
  {
  }

  lemma NothingParsed(value: string)
    ensures SpansFrom(value, |value|).None?
  {
    assert value[|value|..] == "";
  }

  /** The scheme at the start of a value, and where what follows its whitespace begins. */
  method ScanScheme(value: string) returns (schemeStart: nat, schemeEnd: nat, offset: nat)
    ensures schemeStart <= schemeEnd <= offset <= |value|
    ensures Take(value, IsSpace) == (value[..schemeStart], value[schemeStart..])
    ensures Take(value[schemeStart..], IsToken) == (value[schemeStart..schemeEnd], value[schemeEnd..])
    ensures Take(value[schemeEnd..], IsSpace) == (value[schemeEnd..offset], value[offset..])
    ensures schemeEnd < offset <==> schemeEnd < |value| && IsSpace(value[schemeEnd])
  {
    hide Take;
    assert value[0..] == value;
    schemeStart := SkipRun(value, 0, IsSpace);
    TakeAt(value, 0, IsSpace);
    schemeEnd := SkipRun(value, schemeStart, IsToken);
    TakeAt(value, schemeStart, IsToken);
    offset := SkipRun(value, schemeEnd, IsSpace);
    TakeAt(value, schemeEnd, IsSpace);
    assert value[0..schemeStart] == value[..schemeStart];
  }

  lemma ReadIs(value: string, schemeStart: nat, schemeEnd: nat, offset: nat)
    requires schemeStart <= schemeEnd <= offset <= |value|
    requires Take(value, IsSpace) == (value[..schemeStart], value[schemeStart..])
    requires Take(value[schemeStart..], IsToken) == (value[schemeStart..schemeEnd], value[schemeEnd..])
    requires Take(value[schemeEnd..], IsSpace) == (value[schemeEnd..offset], value[offset..])
    ensures Read(value) ==
      if schemeStart == schemeEnd then NoScheme
      else if !KnownScheme(value[schemeStart..schemeEnd]) || (schemeEnd < |value| && schemeEnd == offset) then Foreign
      else if offset == |value| then Bare(value[..schemeStart], value[schemeStart..schemeEnd], value[schemeEnd..offset])
      else if Parse(value[offset..]).None? then Broken
      else Listed(value[..schemeStart], value[schemeStart..schemeEnd], value[schemeEnd..offset], Parse(value[offset..]).value)
  {
    hide Take, Parse, KnownScheme;
  }

  lemma OnlyEverywhere(names: seq<string>, key: string, index: int)
    requires -1 <= index < |names| && (index >= 0 ==> Fold(names[index], key))
    requires forall i :: 0 <= i < |names| && i != index ==> !Fold(names[i], key)
    ensures First(names, key) == index && !Twice(names, key)
  {
    if index >= 0 {
      Located(names, key, index);
    }
  }

  lemma {:induction false} SpanNames(parts: seq<Part>, at: nat)
    ensures forall i :: 0 <= i < |parts| ==> Spans(parts, at)[i].name == parts[i].name
    decreases |parts|
  {
    if parts != [] {
      SpanNames(parts[1..], at + |Print(parts[0])| + 1);
    }
  }

  method StripEmbyAuthorizationToken(value: string) returns (stripped: string, safe: bool)
    ensures (stripped, safe) == Strip(value)
  {
    hide Take, Parse, KnownScheme, Spans, Fold, Twice, PrintAll;
    var schemeStart, schemeEnd, offset := ScanScheme(value);
    ReadIs(value, schemeStart, schemeEnd, offset);
    if schemeStart == schemeEnd {
      return value, true;
    }
    if !KnownScheme(value[schemeStart..schemeEnd]) {
      return value, false;
    }
    if schemeEnd < |value| && schemeEnd == offset {
      return value, false;
    }
    if offset == |value| {
      return value, true;
    }
    var attributes, ok := ParseEmbyAuthorizationAttributes(value, offset);
    if !ok {
      return value, false;
    }
    ghost var parts := Parse(value[offset..]).value;
    ghost var names := Names(parts);
    SpanNames(parts, offset);
    ListedInside(value);
    ListedHead(value, schemeStart, schemeEnd, offset);
    var tokenIndex := -1;
    for index := 0 to |attributes|
      invariant -1 <= tokenIndex < index || (tokenIndex == -1 && index == 0)
      invariant tokenIndex >= 0 ==> Fold(names[tokenIndex], "Token")
      invariant forall i :: 0 <= i < index && i != tokenIndex ==> !Fold(names[i], "Token")
    {
      if Fold(attributes[index].name, "Token") {
        if tokenIndex >= 0 {
          HeldTwice(names, "Token", tokenIndex, index);
          return value, false;
        }
        tokenIndex := index;
      }
    }
    OnlyEverywhere(names, "Token", tokenIndex);
    if tokenIndex < 0 {
      return value, true;
    }
    var attribute := attributes[tokenIndex];
    if tokenIndex == 0 && |attributes| == 1 {
      return value[..schemeEnd] + value[attribute.attrEnd..], true;
    }
    if tokenIndex == 0 {
      return value[..attribute.attrStart] + value[attributes[1].attrStart..], true;
    }
    return value[..attributes[tokenIndex - 1].attrEnd] + value[attribute.attrEnd..], true;
  }

  lemma ListedHead(value: string, schemeStart: nat, schemeEnd: nat, offset: nat)
    requires schemeStart <= schemeEnd <= offset <= |value|
    requires Read(value).Listed?
    requires Read(value).lead == value[..schemeStart] && Read(value).scheme == value[schemeStart..schemeEnd]
    requires Read(value).gap == value[schemeEnd..offset]
    ensures |Head(Read(value))| == offset && |Read(value).lead| + |Read(value).scheme| == schemeEnd
  {
    hide Read;
  }

  method RewriteEmbyAuthorizationValue(value: string, profile: Profile) returns (rewritten: string)
    ensures rewritten == Rewrite(value, profile)
  {
    hide Take, Parse, KnownScheme, Spans, Fold, Twice, PrintAll, ApplyEdits, Edits, Ordered, Quoted, ValidParts;
    var schemeStart, schemeEnd, offset := ScanScheme(value);
    ReadIs(value, schemeStart, schemeEnd, offset);
    if schemeStart == schemeEnd {
      return value;
    }
    if !KnownScheme(value[schemeStart..schemeEnd]) {
      return value;
    }
    if schemeEnd < |value| && schemeEnd == offset {
      return value;
    }
    if offset == |value| {
      var prefix := value;
      if |value| == schemeEnd {
        prefix := prefix + " ";
      }
      return prefix + Quoted("Client", profile.client) + ", " + Quoted("Version", profile.version);
    }
    var attributes, ok := ParseEmbyAuthorizationAttributes(value, offset);
    if !ok {
      return value;
    }
    ghost var parts := Parse(value[offset..]).value;
    ghost var names := Names(parts);
    SpanNames(parts, offset);
    ListedInside(value);
    ListedHead(value, schemeStart, schemeEnd, offset);
    ParseSound(value[offset..]);
    var clientIndex, versionIndex, unique := LocateClientVersion(attributes, names);
    if !unique {
      return value;
    }
    if clientIndex >= 0 {
      ClientIsNotVersion(names[clientIndex]);
    }
    rewritten := SpliceContents(value, offset, parts, attributes, clientIndex, versionIndex, profile);
    if clientIndex < 0 {
      rewritten := rewritten + ", " + Quoted("Client", profile.client);
    }
    if versionIndex < 0 {
      rewritten := rewritten + ", " + Quoted("Version", profile.version);
    }
  }

  /** The only Client and the only Version attribute; unique is false if either occurs twice. */
  method LocateClientVersion(attributes: seq<Attribute>, ghost names: seq<string>)
    returns (clientIndex: int, versionIndex: int, unique: bool)
    requires |names| == |attributes| && forall i :: 0 <= i < |names| ==> attributes[i].name == names[i]
    ensures unique <==> !Twice(names, "Client") && !Twice(names, "Version")
    ensures unique ==> clientIndex == First(names, "Client") && versionIndex == First(names, "Version")
  {
    hide Twice, Fold;
    clientIndex, versionIndex := -1, -1;
    for index := 0 to |attributes|
      invariant -1 <= clientIndex < index || (clientIndex == -1 && index == 0)
      invariant clientIndex >= 0 ==> Fold(names[clientIndex], "Client")
      invariant forall i :: 0 <= i < index && i != clientIndex ==> !Fold(names[i], "Client")
      invariant -1 <= versionIndex < index || (versionIndex == -1 && index == 0)
      invariant versionIndex >= 0 ==> Fold(names[versionIndex], "Version")
      invariant forall i :: 0 <= i < index && i != versionIndex ==> !Fold(names[i], "Version")
    {
      ClientIsNotVersion(names[index]);
      if Fold(attributes[index].name, "Client") {
        if clientIndex >= 0 {
          HeldTwice(names, "Client", clientIndex, index);
          return clientIndex, versionIndex, false;
        }
        clientIndex := index;
      } else if Fold(attributes[index].name, "Version") {
        if versionIndex >= 0 {
          HeldTwice(names, "Version", versionIndex, index);
          return clientIndex, versionIndex, false;
        }
        versionIndex := index;
      }
    }
    OnlyEverywhere(names, "Client", clientIndex);
    OnlyEverywhere(names, "Version", versionIndex);
    return clientIndex, versionIndex, true;
  }

  method SpliceContents(value: string, offset: nat, ghost parts: seq<Part>, attributes: seq<Attribute>, c: int, v: int,
                        profile: Profile) returns (rewritten: string)
    requires -1 <= c < |attributes| && -1 <= v < |attributes| && (c >= 0 ==> c != v)
    requires attributes == Spans(parts, offset)
    requires offset <= |value| && value[offset..] == PrintAll(parts)
    ensures rewritten == ApplyEdits(value, Ordered(Edits(attributes, c, v, profile)))
  {
    hide Spans, PrintAll, Spliced, SetContent;
    ghost var head := value[..offset];
    assert value == head + PrintAll(parts) && |head| == offset;
    var replacements: seq<Edit> := [];
    if c >= 0 {
      replacements := replacements + [Edit(attributes[c].valueStart, attributes[c].valueEnd, profile.client)];
      SpliceOne(head, parts, c, profile.client);
    }
    if v >= 0 {
      replacements := replacements + [Edit(attributes[v].valueStart, attributes[v].valueEnd, profile.version)];
      SpliceOne(head, parts, v, profile.version);
    }
    if |replacements| == 2 && replacements[0].start < replacements[1].start {
      replacements := [replacements[1], replacements[0]];
    }
    assert replacements == Ordered(Edits(attributes, c, v, profile));
    if c >= 0 && v >= 0 {
      SecondInside(head, parts, c, v, profile);
    }
    rewritten := value;
    for i := 0 to |replacements|
      invariant ApplyEdits(value, replacements) == ApplyEdits(rewritten, replacements[i..])
      invariant i == 0 ==> rewritten == value
      invariant i == 1 ==> rewritten == Spliced(value, replacements[0].start, replacements[0].end, replacements[0].text)
    {
      var e := replacements[i];
      assert replacements[i..][1..] == replacements[i + 1..];
      rewritten := SplicedText(rewritten, e);
    }
  }

  method SplicedText(text: string, e: Edit) returns (spliced: string)
    requires e.start <= e.end <= |text|
    ensures spliced == Spliced(text, e.start, e.end, e.text)
  {
    spliced := text[..e.start] + e.text + text[e.end..];
  }

  /** After the first edit the second one still lies inside the text. */
  lemma SecondInside(head: string, parts: seq<Part>, c: nat, v: nat, profile: Profile)
    requires c < |parts| && v < |parts| && c != v
    ensures var text := head + PrintAll(parts);
      var edits := Ordered(Edits(Spans(parts, |head|), c, v, profile));
      && |edits| == 2 && edits[0].start <= edits[0].end <= |text|
      && edits[1].start <= edits[1].end <= |Spliced(text, edits[0].start, edits[0].end, edits[0].text)|
  {
    hide PrintAll, Spans, Spliced, SetContent;
    var spans := Spans(parts, |head|);
    var i, j := if c < v then v else c, if c < v then c else v;
    var a := if c < v then profile.version else profile.client;
    var b := if c < v then profile.client else profile.version;
    assert Edits(spans, c, v, profile) == [EditAt(spans, c, profile.client), EditAt(spans, v, profile.version)];
    SpanOrder(parts, j, i, |head|);
    SpliceOne(head, parts, i, a);
    SpliceOne(head, parts, j, b);
    SetKeepsLength(parts, i, a);
    EarlierSpan(parts, i, a, j, |head|);
    SpliceOne(head, SetContent(parts, i, a), j, b);
  }

  /** The values of one authorization header that may follow a redirect; None drops the header. */
  method StripValues(values: seq<string>) returns (kept: Option<seq<string>>)
    ensures kept.None? <==> exists i :: 0 <= i < |values| && !Strip(values[i]).1
    ensures kept.Some? ==>
      |kept.value| == |values| && forall i :: 0 <= i < |values| ==> kept.value[i] == Strip(values[i]).0
  {
    hide Strip;
    var out := values;
    for i := 0 to |values|
      invariant |out| == |values|
      invariant forall j :: 0 <= j < i ==> Strip(values[j]).1 && out[j] == Strip(values[j]).0
      invariant forall j :: i <= j < |values| ==> out[j] == values[j]
    {
      var stripped, safe := StripEmbyAuthorizationToken(out[i]);
      if !safe {
        return None;
      }
      out := out[i := stripped];
    }
    return Some(out);
  }
}
