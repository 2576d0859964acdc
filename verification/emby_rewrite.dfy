/** Writing a client profile into an authorization value, and what the result reads as. */
module EmbyRewrite {
  import opened Wrappers
  import opened TextSpans
  import opened EmbySpec
  import opened EmbyEdit

  datatype Profile = Profile(client: string, version: string)

  datatype Edit = Edit(start: nat, end: nat, text: string)

  /** Contents that the reader of an authorization value accepts between quotes. */
  predicate SafeProfile(profile: Profile) {
    All(profile.client, IsContent) && All(profile.version, IsContent)
  }

  function Edits(spans: seq<Attribute>, c: int, v: int, profile: Profile): seq<Edit>
    requires c < |spans| && v < |spans|
  {
    (if c >= 0 then [Edit(spans[c].valueStart, spans[c].valueEnd, profile.client)] else [])
    + if v >= 0 then [Edit(spans[v].valueStart, spans[v].valueEnd, profile.version)] else []
  }

  /** The later one first, so that the offsets of the other stay right. */
  function Ordered(edits: seq<Edit>): (ordered: seq<Edit>)
    ensures |ordered| == |edits|
  {
    if |edits| == 2 && edits[0].start < edits[1].start then [edits[1], edits[0]] else edits
  }

  function ApplyEdits(text: string, edits: seq<Edit>): string
    decreases |edits|
  {
    if edits == [] then text
    else
      var e := edits[0];
      if e.start <= e.end <= |text| then ApplyEdits(Spliced(text, e.start, e.end, e.text), edits[1..]) else text
  }

  function Quoted(name: string, content: string): string {
    name + "=\"" + content + "\""
  }

  function Rewrite(value: string, profile: Profile): string {
    match Read(value)
    case NoScheme => value
    case Foreign => value
    case Broken => value
    case Bare(_, _, gap) =>
      value + (if gap == "" then " " else "") + Quoted("Client", profile.client) + ", "
      + Quoted("Version", profile.version)
    case Listed(lead, scheme, gap, parts) =>
      var names := Names(parts);
      if Twice(names, "Client") || Twice(names, "Version") then value
      else
        var c, v := First(names, "Client"), First(names, "Version");
        ApplyEdits(value, Ordered(Edits(Spans(parts, |lead + scheme + gap|), c, v, profile)))
        + (if c < 0 then ", " + Quoted("Client", profile.client) else "")
        + if v < 0 then ", " + Quoted("Version", profile.version) else ""
  }

  // ---------- one edit ----------

  function SetContent(parts: seq<Part>, i: nat, content: string): seq<Part>
    requires i < |parts|
  {
    parts[i := parts[i].(content := content)]
  }

  lemma SpliceOne(head: string, parts: seq<Part>, i: nat, content: string)
    requires i < |parts|
    ensures var s := Spans(parts, |head|)[i]; var text := head + PrintAll(parts);
      s.valueStart <= s.valueEnd <= |text|
      && Spliced(text, s.valueStart, s.valueEnd, content) == head + PrintAll(SetContent(parts, i, content))
  {
    hide Print, Before, After, PrintAll, Spans, SpanOf, Opening;
    var p := parts[i];
    var changed := SetContent(parts, i, content);
    SetAround(parts, i, content);
    SpanAt(parts, i, |head|);
    SpanNumbers(p, |head| + |Before(parts, i)|);
    PrintedAround(parts, i);
    PrintedAround(changed, i);
    PrintSplit(p);
    PrintSplit(changed[i]);
    Middle(head, Before(parts, i), p.before, Opening(p), p.content, "\"" + p.after, After(parts, i));
    Middle(head, Before(parts, i), p.before, Opening(p), content, "\"" + p.after, After(parts, i));
    SplicedParts(head + Before(parts, i) + p.before + Opening(p), p.content, "\"" + p.after + After(parts, i), content);
  }

  lemma Middle(head: string, outside: string, b: string, o: string, content: string, a: string, rest: string)
    ensures (head + outside + b + o) + content + (a + rest) == head + (outside + (b + o + content + a) + rest)
  {
  }

  lemma SetAround(parts: seq<Part>, i: nat, content: string)
    requires i < |parts|
    ensures var changed := SetContent(parts, i, content);
      && Before(changed, i) == Before(parts, i) && After(changed, i) == After(parts, i)
      && Opening(changed[i]) == Opening(parts[i]) && changed[i].before == parts[i].before && changed[i].after == parts[i].after
      && changed[i].content == content
  {
    var changed := SetContent(parts, i, content);
    assert changed[..i] == parts[..i] && changed[i + 1..] == parts[i + 1..];
    BeforeSame(changed, parts, i);
  }

  /** Editing a part leaves the offsets of the parts before it alone. */
  lemma EarlierSpan(parts: seq<Part>, i: nat, content: string, j: nat, at: nat)
    requires j < i < |parts|
    ensures Spans(SetContent(parts, i, content), at)[j] == Spans(parts, at)[j]
  {
    hide SpanOf, Print, Before, Spans;
    var changed := SetContent(parts, i, content);
    assert changed[..j] == parts[..j];
    BeforeSame(changed, parts, j);
    SpanAt(parts, j, at);
    SpanAt(changed, j, at);
  }

  lemma {:induction false} SpanOrder(parts: seq<Part>, j: nat, i: nat, at: nat)
    requires j < i < |parts|
    ensures Spans(parts, at)[j].valueEnd < Spans(parts, at)[i].valueStart
    decreases j
  {
    var next := at + |Print(parts[0])| + 1;
    if j > 0 {
      SpanOrder(parts[1..], j - 1, i - 1, next);
    } else {
      SpanFrom(parts[1..], i - 1, next);
      PrintSplit(parts[0]);
    }
  }

  lemma {:induction false} SpanFrom(parts: seq<Part>, i: nat, at: nat)
    requires i < |parts|
    ensures Spans(parts, at)[i].valueStart >= at
    decreases i
  {
    if i > 0 {
      SpanFrom(parts[1..], i - 1, at + |Print(parts[0])| + 1);
    }
  }

  // ---------- both edits ----------

  function Filled(parts: seq<Part>, profile: Profile): (filled: seq<Part>)
    ensures |filled| == |parts|
  {
    var c, v := First(Names(parts), "Client"), First(Names(parts), "Version");
    var withVersion := if v >= 0 then SetContent(parts, v, profile.version) else parts;
    if c >= 0 then SetContent(withVersion, c, profile.client) else withVersion
  }

  function Added(name: string, content: string): Part {
    Part(" ", name, "", "", content, "")
  }

  function Extra(parts: seq<Part>, profile: Profile): seq<Part> {
    (if First(Names(parts), "Client") < 0 then [Added("Client", profile.client)] else [])
    + if First(Names(parts), "Version") < 0 then [Added("Version", profile.version)] else []
  }

  lemma ClientIsNotVersion(name: string)
    ensures !(Fold(name, "Client") && Fold(name, "Version"))
    ensures !(Fold(name, "Token") && (Fold(name, "Client") || Fold(name, "Version")))
  {
  }

  lemma EditsFill(head: string, parts: seq<Part>, profile: Profile)
    ensures var c, v := First(Names(parts), "Client"), First(Names(parts), "Version");
      ApplyEdits(head + PrintAll(parts), Ordered(Edits(Spans(parts, |head|), c, v, profile)))
      == head + PrintAll(Filled(parts, profile))
  {
    hide PrintAll, Spans, Names, SetContent, ApplyEdits, Fold, Spliced;
    var c, v := First(Names(parts), "Client"), First(Names(parts), "Version");
    var text := head + PrintAll(parts);
    var spans := Spans(parts, |head|);
    if c >= 0 && v >= 0 {
      ClientIsNotVersion(Names(parts)[c]);
      BothEdits(head, parts, c, v, profile);
    } else if c >= 0 {
      SpliceOne(head, parts, c, profile.client);
      assert Edits(spans, c, v, profile) == [EditAt(spans, c, profile.client)];
      OneEdit(text, EditAt(spans, c, profile.client));
    } else if v >= 0 {
      SpliceOne(head, parts, v, profile.version);
      assert Edits(spans, c, v, profile) == [EditAt(spans, v, profile.version)];
      OneEdit(text, EditAt(spans, v, profile.version));
    } else {
      NoEdits(text);
    }
  }

  lemma NoEdits(text: string)
    ensures ApplyEdits(text, []) == text
  {
  }

  lemma OneEdit(text: string, e: Edit)
    requires e.start <= e.end <= |text|
    ensures ApplyEdits(text, [e]) == Spliced(text, e.start, e.end, e.text)
  {
    assert [e][1..] == [];
  }

  lemma TwoEdits(text: string, e: Edit, f: Edit)
    requires e.start <= e.end <= |text| && f.start <= f.end <= |Spliced(text, e.start, e.end, e.text)|
    ensures ApplyEdits(text, [e, f])
         == Spliced(Spliced(text, e.start, e.end, e.text), f.start, f.end, f.text)
  {
    assert [e, f][1..] == [f];
    OneEdit(Spliced(text, e.start, e.end, e.text), f);
  }

  function EditAt(spans: seq<Attribute>, i: nat, content: string): Edit
    requires i < |spans|
  {
    Edit(spans[i].valueStart, spans[i].valueEnd, content)
  }

  /** Edits from right to left replace both contents at once. */
  lemma InOrder(head: string, parts: seq<Part>, i: nat, a: string, j: nat, b: string)
    requires j < i < |parts|
    ensures var spans := Spans(parts, |head|);
      ApplyEdits(head + PrintAll(parts), [EditAt(spans, i, a), EditAt(spans, j, b)])
      == head + PrintAll(SetContent(SetContent(parts, i, a), j, b))
  {
    hide PrintAll, Spans, Spliced, ApplyEdits, SetContent;
    var spans := Spans(parts, |head|);
    assert |SetContent(parts, i, a)| == |parts| by { SetKeepsLength(parts, i, a); }
    SpliceOne(head, parts, i, a);
    EarlierSpan(parts, i, a, j, |head|);
    SpliceOne(head, SetContent(parts, i, a), j, b);
    TwoEdits(head + PrintAll(parts), EditAt(spans, i, a), EditAt(spans, j, b));
  }

  lemma SetKeepsLength(parts: seq<Part>, i: nat, a: string)
    requires i < |parts|
    ensures |SetContent(parts, i, a)| == |parts|
  {
  }

  lemma BothEdits(head: string, parts: seq<Part>, c: nat, v: nat, profile: Profile)
    requires c < |parts| && v < |parts| && c != v
    ensures ApplyEdits(head + PrintAll(parts), Ordered(Edits(Spans(parts, |head|), c, v, profile)))
         == head + PrintAll(SetContent(SetContent(parts, v, profile.version), c, profile.client))
  {
    hide PrintAll, Spans, Spliced, ApplyEdits, SetContent;
    var spans := Spans(parts, |head|);
    assert Edits(spans, c, v, profile) == [EditAt(spans, c, profile.client), EditAt(spans, v, profile.version)];
    if c < v {
      SpanOrder(parts, c, v, |head|);
      SpliceOne(head, parts, c, profile.client);
      InOrder(head, parts, v, profile.version, c, profile.client);
    } else {
      SpanOrder(parts, v, c, |head|);
      SpliceOne(head, parts, v, profile.version);
      InOrder(head, parts, c, profile.client, v, profile.version);
      SetTwice(parts, c, profile.client, v, profile.version);
    }
  }

  lemma SetTwice(parts: seq<Part>, i: nat, a: string, j: nat, b: string)
    requires i < |parts| && j < |parts| && i != j
    ensures SetContent(SetContent(parts, i, a), j, b) == SetContent(SetContent(parts, j, b), i, a)
  {
  }

  /** The list that a rewritten value spells. */
  function Finish(parts: seq<Part>, profile: Profile): seq<Part> {
    Filled(parts, profile) + Extra(parts, profile)
  }

  lemma PrintAdded(name: string, content: string)
    ensures PrintAll([Added(name, content)]) == " " + Quoted(name, content)
  {
    PrintSplit(Added(name, content));
  }

  lemma PrintFinish(parts: seq<Part>, profile: Profile)
    requires parts != []
    ensures PrintAll(Finish(parts, profile))
         == PrintAll(Filled(parts, profile))
            + (if First(Names(parts), "Client") < 0 then ", " + Quoted("Client", profile.client) else "")
            + if First(Names(parts), "Version") < 0 then ", " + Quoted("Version", profile.version) else ""
  {
    hide PrintAll, Filled, Names, Quoted, Added;
    var filled := Filled(parts, profile);
    var client, version := Added("Client", profile.client), Added("Version", profile.version);
    PrintAdded("Client", profile.client);
    PrintAdded("Version", profile.version);
    PrintedAppend(filled, [client]);
    PrintedAppend(filled, [version]);
    PrintedAppend(filled + [client], [version]);
    CommaSpace(PrintAll(filled), Quoted("Client", profile.client));
    CommaSpace(PrintAll(filled), Quoted("Version", profile.version));
    CommaSpace(PrintAll(filled + [client]), Quoted("Version", profile.version));
    assert filled + ([client] + [version]) == filled + [client] + [version];
    assert filled + ([] + []) == filled && filled + ([client] + []) == filled + [client];
    assert filled + ([] + [version]) == filled + [version];
  }

  lemma CommaSpace(a: string, b: string)
    ensures a + "," + (" " + b) == a + (", " + b)
  {
  }

  lemma RewriteListed(value: string, profile: Profile)
    requires Read(value).Listed?
    requires !Twice(Names(Read(value).parts), "Client") && !Twice(Names(Read(value).parts), "Version")
    ensures Rewrite(value, profile) == Head(Read(value)) + PrintAll(Finish(Read(value).parts, profile))
  {
    hide Read, PrintAll, Spans, Names, Edits, Ordered, ApplyEdits, Quoted, Filled, Finish, Twice;
    var r := Read(value);
    ListedInside(value);
    ReadSound(value);
    EditsFill(Head(r), r.parts, profile);
    PrintFinish(r.parts, profile);
    Grouped(Head(r), PrintAll(Filled(r.parts, profile)),
            if First(Names(r.parts), "Client") < 0 then ", " + Quoted("Client", profile.client) else "",
            if First(Names(r.parts), "Version") < 0 then ", " + Quoted("Version", profile.version) else "");
  }

  lemma Grouped(a: string, b: string, c: string, d: string)
    ensures a + b + c + d == a + (b + c + d)
  {
  }

  // ---------- what rewriting means ----------

  function Retag(f: Field, profile: Profile): Field {
    if Fold(f.name, "Client") then f.(content := profile.client)
    else if Fold(f.name, "Version") then f.(content := profile.version)
    else f
  }

  function RetagAll(fields: seq<Field>, profile: Profile): (out: seq<Field>)
    ensures |out| == |fields| && forall i :: 0 <= i < |fields| ==> out[i] == Retag(fields[i], profile)
  {
    seq(|fields|, i requires 0 <= i < |fields| => Retag(fields[i], profile))
  }

  predicate Has(fields: seq<Field>, key: string) {
    exists i :: 0 <= i < |fields| && Fold(fields[i].name, key)
  }

  function Fresh(name: string, content: string): Field {
    Field(name + "=\"", name, content)
  }

  /** Client and Version replaced wherever they are, and added at the end where they are not. */
  function Updated(fields: seq<Field>, profile: Profile): seq<Field> {
    RetagAll(fields, profile)
    + (if Has(fields, "Client") then [] else [Fresh("Client", profile.client)])
    + if Has(fields, "Version") then [] else [Fresh("Version", profile.version)]
  }

  lemma HeldTwice(names: seq<string>, key: string, i: nat, j: nat)
    requires i < j < |names| && Fold(names[i], key) && Fold(names[j], key)
    ensures Twice(names, key)
  {
  }

  lemma OnceAt(parts: seq<Part>, key: string, i: nat)
    requires i < |parts| && !Twice(Names(parts), key) && Fold(parts[i].name, key)
    ensures First(Names(parts), key) == i
  {
    hide Twice, Fold;
    var names := Names(parts);
    var k := First(names, key);
    assert Fold(names[i], key);
    if k >= 0 && k < i {
      HeldTwice(names, key, k, i);
    }
  }

  lemma FilledFields(parts: seq<Part>, profile: Profile)
    requires !Twice(Names(parts), "Client") && !Twice(Names(parts), "Version")
    ensures Fields(Filled(parts, profile)) == RetagAll(Fields(parts), profile)
  {
    hide Twice, Fold;
    forall i | 0 <= i < |parts|
      ensures Fields(Filled(parts, profile))[i] == RetagAll(Fields(parts), profile)[i]
    {
      FilledField(parts, profile, i);
    }
  }

  lemma FilledField(parts: seq<Part>, profile: Profile, i: nat)
    requires i < |parts| && !Twice(Names(parts), "Client") && !Twice(Names(parts), "Version")
    ensures FieldOf(Filled(parts, profile)[i]) == Retag(FieldOf(parts[i]), profile)
    ensures ValidPart(parts[i]) && SafeProfile(profile) ==> ValidPart(Filled(parts, profile)[i])
    ensures Filled(parts, profile)[i].before == parts[i].before
    ensures Filled(parts, profile)[i].name == parts[i].name
  {
    hide Twice, Fold;
    var names := Names(parts);
    ClientIsNotVersion(parts[i].name);
    if Fold(parts[i].name, "Client") {
      OnceAt(parts, "Client", i);
    } else {
      assert names[i] == parts[i].name;
    }
    if Fold(parts[i].name, "Version") {
      OnceAt(parts, "Version", i);
    } else {
      assert names[i] == parts[i].name;
    }
  }

  lemma HasFirst(parts: seq<Part>, key: string)
    ensures Has(Fields(parts), key) <==> First(Names(parts), key) >= 0
  {
    var k := First(Names(parts), key);
    if k >= 0 {
      assert Fold(Fields(parts)[k].name, key);
    } else {
      forall i | 0 <= i < |parts| ensures !Fold(Fields(parts)[i].name, key) {
        assert !Fold(Names(parts)[i], key);
      }
    }
  }

  lemma FinishFields(parts: seq<Part>, profile: Profile)
    requires !Twice(Names(parts), "Client") && !Twice(Names(parts), "Version")
    ensures Fields(Finish(parts, profile)) == Updated(Fields(parts), profile)
  {
    hide Twice, Fold, Filled, RetagAll, Has;
    FilledFields(parts, profile);
    HasFirst(parts, "Client");
    HasFirst(parts, "Version");
    assert FieldOf(Added("Client", profile.client)) == Fresh("Client", profile.client);
    assert FieldOf(Added("Version", profile.version)) == Fresh("Version", profile.version);
    FieldsAppend(Filled(parts, profile), Extra(parts, profile));
    assert Fields(Extra(parts, profile))
        == (if First(Names(parts), "Client") < 0 then [Fresh("Client", profile.client)] else [])
           + if First(Names(parts), "Version") < 0 then [Fresh("Version", profile.version)] else [];
  }

  lemma FieldsAppend(a: seq<Part>, b: seq<Part>)
    ensures Fields(a + b) == Fields(a) + Fields(b)
  {
  }

  lemma FinishValid(parts: seq<Part>, profile: Profile)
    requires ValidParts(parts) && parts[0].before == "" && SafeProfile(profile)
    requires !Twice(Names(parts), "Client") && !Twice(Names(parts), "Version")
    ensures ValidParts(Finish(parts, profile)) && Finish(parts, profile)[0].before == ""
  {
    hide Twice, Filled, ValidPart;
    var done := Finish(parts, profile);
    AddedValid(profile);
    forall i | 0 <= i < |done| ensures ValidPart(done[i]) {
      if i < |parts| {
        FilledField(parts, profile, i);
      }
    }
    FilledField(parts, profile, 0);
  }

  lemma AddedValid(profile: Profile)
    requires SafeProfile(profile)
    ensures ValidPart(Added("Client", profile.client)) && ValidPart(Added("Version", profile.version))
  {
  }

  /** A list whose only Client and only Version already have the profile's contents. */
  ghost predicate Ready(parts: seq<Part>, profile: Profile) {
    && !Twice(Names(parts), "Client") && !Twice(Names(parts), "Version")
    && var c, v := First(Names(parts), "Client"), First(Names(parts), "Version");
       c >= 0 && v >= 0 && parts[c].content == profile.client && parts[v].content == profile.version
  }

  lemma ReadyStays(parts: seq<Part>, profile: Profile)
    requires Ready(parts, profile)
    ensures Finish(parts, profile) == parts
  {
    hide Twice, First;
  }

  /** First and Twice of a list of names, from where a name is and is not. */
  lemma Located(names: seq<string>, key: string, k: nat)
    requires k < |names| && Fold(names[k], key)
    requires forall i :: 0 <= i < |names| && i != k ==> !Fold(names[i], key)
    ensures First(names, key) == k && !Twice(names, key)
  {
    hide Fold;
  }

  lemma FinishReady(parts: seq<Part>, profile: Profile)
    requires !Twice(Names(parts), "Client") && !Twice(Names(parts), "Version")
    ensures Ready(Finish(parts, profile), profile)
  {
    FinishLocated(parts, profile, "Client");
    FinishLocated(parts, profile, "Version");
  }

  lemma FinishLocated(parts: seq<Part>, profile: Profile, key: string)
    requires key == "Client" || key == "Version"
    requires !Twice(Names(parts), "Client") && !Twice(Names(parts), "Version")
    ensures var done := Finish(parts, profile); var k := First(Names(done), key);
      && k >= 0 && !Twice(Names(done), key)
      && done[k].content == if key == "Client" then profile.client else profile.version
  {
    hide Twice, Fold;
    var done := Finish(parts, profile);
    var f := First(Names(parts), key);
    var k := if f >= 0 then f
             else if key == "Client" then |parts|
             else if First(Names(parts), "Client") < 0 then |parts| + 1 else |parts|;
    AddedNames(profile);
    forall i | 0 <= i < |done| && i != k ensures !Fold(Names(done)[i], key) {
      if i < |parts| {
        FilledField(parts, profile, i);
        if Fold(parts[i].name, key) {
          OnceAt(parts, key, i);
        }
      }
    }
    if f >= 0 {
      FilledField(parts, profile, f);
      assert Names(parts)[f] == parts[f].name;
      assert ClientOrVersion(parts[f].name, key) by { ClientIsNotVersion(parts[f].name); }
    }
    Located(Names(done), key, k);
  }

  predicate ClientOrVersion(name: string, key: string) {
    if key == "Client" then Fold(name, "Client") else Fold(name, "Version") && !Fold(name, "Client")
  }

  lemma AddedNames(profile: Profile)
    ensures Fold(Added("Client", profile.client).name, "Client") && Fold(Added("Version", profile.version).name, "Version")
    ensures !Fold(Added("Client", profile.client).name, "Version") && !Fold(Added("Version", profile.version).name, "Client")
  {
  }

  /** A bare scheme gets both attributes. */
  lemma RewriteBare(value: string, profile: Profile)
    requires Read(value).Bare? && SafeProfile(profile)
    ensures var r := Read(value); var q := Read(Rewrite(value, profile));
      && q.Listed? && q.lead == r.lead && q.scheme == r.scheme
      && Fields(q.parts) == [Fresh("Client", profile.client), Fresh("Version", profile.version)]
      && Ready(q.parts, profile)
  {
    hide Read, PrintAll, ValidPart, Quoted, KnownScheme;
    var r := Read(value);
    ReadSound(value);
    var gap := if r.gap == "" then " " else r.gap;
    var client, version := Added("Client", profile.client).(before := ""), Added("Version", profile.version);
    var parts := [client, version];
    AddedValid(profile);
    PlainValid(profile);
    PrintPlain(profile);
    PrintAdded("Version", profile.version);
    PrintedAppend([client], [version]);
    assert [client] + [version] == parts;
    CommaSpace(PrintAll([client]), Quoted("Version", profile.version));
    BareText(value, r, gap, PrintAll([client]), ", " + Quoted("Version", profile.version));
    assert Rewrite(value, profile) == r.lead + r.scheme + gap + PrintAll(parts);
    ReadListed(r.lead, r.scheme, gap, parts);
    AddedNames(profile);
    assert Names(parts) == ["Client", "Version"];
    Located(Names(parts), "Client", 0);
    Located(Names(parts), "Version", 1);
    PlainFields(profile);
  }

  lemma BareText(value: string, r: Reading, gap: string, a: string, b: string)
    requires r.Bare? && value == r.lead + r.scheme + r.gap && gap == if r.gap == "" then " " else r.gap
    ensures value + (if r.gap == "" then " " else "") + a + b == r.lead + r.scheme + gap + (a + b)
  {
  }

  lemma PlainValid(profile: Profile)
    requires SafeProfile(profile)
    ensures ValidPart(Added("Client", profile.client).(before := ""))
  {
  }

  lemma PlainFields(profile: Profile)
    ensures Fields([Added("Client", profile.client).(before := ""), Added("Version", profile.version)])
         == [Fresh("Client", profile.client), Fresh("Version", profile.version)]
  {
    var client, version := Added("Client", profile.client).(before := ""), Added("Version", profile.version);
    assert FieldOf(client) == Fresh("Client", profile.client);
    assert FieldOf(version) == Fresh("Version", profile.version);
  }

  lemma PrintPlain(profile: Profile)
    ensures PrintAll([Added("Client", profile.client).(before := "")]) == Quoted("Client", profile.client)
  {
    PrintSplit(Added("Client", profile.client).(before := ""));
  }

  /** A value that is changed at all. */
  predicate Rewritable(r: Reading) {
    r.Bare? || (r.Listed? && !Twice(Names(r.parts), "Client") && !Twice(Names(r.parts), "Version"))
  }

  /**
   With a profile that the reader accepts, a rewritten value reads as the same
   attributes in the same order, byte for byte, except that Client and Version have the
   profile's contents, added at the end if they were missing; every other value is left
   alone, and rewriting again changes nothing.
   */
  lemma RewriteMeaning(value: string, profile: Profile)
    requires SafeProfile(profile)
    ensures var w := Rewrite(value, profile); var r, q := Read(value), Read(w);
      && (Rewritable(r) ==>
            && q.Listed? && q.lead == r.lead && q.scheme == r.scheme && (r.Listed? ==> q.gap == r.gap)
            && Fields(q.parts) == Updated(FieldsOf(r), profile))
      && (!Rewritable(r) ==> w == value)
      && Rewrite(w, profile) == w
  {
    hide Read, PrintAll, Finish, Updated, Twice, Ready, ValidParts, KnownScheme, ApplyEdits, Quoted;
    var r := Read(value);
    var w := Rewrite(value, profile);
    if r.Bare? {
      RewriteBare(value, profile);
      NothingToUpdate(profile);
    } else if Rewritable(r) {
      ReadSound(value);
      RewriteListed(value, profile);
      FinishValid(r.parts, profile);
      ReadListed(r.lead, r.scheme, r.gap, Finish(r.parts, profile));
      FinishFields(r.parts, profile);
      FinishReady(r.parts, profile);
    }
    if Rewritable(r) {
      ReadyAgain(w, profile);
    }
  }

  lemma NothingToUpdate(profile: Profile)
    ensures Updated([], profile) == [Fresh("Client", profile.client), Fresh("Version", profile.version)]
  {
    var none: seq<Field> := [];
    var client, version := Fresh("Client", profile.client), Fresh("Version", profile.version);
    assert RetagAll(none, profile) == none && !Has(none, "Client") && !Has(none, "Version");
    assert none + [client] + [version] == [client, version];
  }

  lemma ReadyAgain(w: string, profile: Profile)
    requires Read(w).Listed? && Ready(Read(w).parts, profile)
    ensures Rewrite(w, profile) == w
  {
    hide Read, PrintAll, Finish, KnownScheme, ApplyEdits;
    ReadyStays(Read(w).parts, profile);
    RewriteListed(w, profile);
    ListedInside(w);
  }
}
