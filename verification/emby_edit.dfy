/** Editing an authorization value by the spans of its attributes, and what the edits mean to a reader. */
module EmbyEdit {
  import opened Wrappers
  import opened TextSpans
  import opened EmbySpec

  // ---------- attributes by name ----------

  function Names(parts: seq<Part>): (names: seq<string>)
    ensures |names| == |parts| && forall i :: 0 <= i < |parts| ==> names[i] == parts[i].name
  {
    seq(|parts|, i requires 0 <= i < |parts| => parts[i].name)
  }

  /** The first attribute of a name, ignoring case; -1 if there is none. */
  function First(names: seq<string>, key: string): (index: int)
    ensures -1 <= index < |names|
    ensures index >= 0 ==> Fold(names[index], key)
    ensures forall i :: 0 <= i < (if index < 0 then |names| else index) ==> !Fold(names[i], key)
  {
    if names == [] then -1
    else if Fold(names[0], key) then 0
    else
      var rest := First(names[1..], key);
      assert forall i :: 0 < i < |names| ==> names[i] == names[1..][i - 1];
      if rest < 0 then -1 else rest + 1
  }

  predicate Twice(names: seq<string>, key: string) {
    exists i, j :: 0 <= i < j < |names| && Fold(names[i], key) && Fold(names[j], key)
  }

  /** What a reader takes from an attribute, and the bytes in front of its content. */
  datatype Field = Field(opening: string, name: string, content: string)

  function Opening(p: Part): string {
    p.name + p.gap + "=" + p.pad + "\""
  }

  function FieldOf(p: Part): Field {
    Field(Opening(p), p.name, p.content)
  }

  function Fields(parts: seq<Part>): (fields: seq<Field>)
    ensures |fields| == |parts| && forall i :: 0 <= i < |parts| ==> fields[i] == FieldOf(parts[i])
  {
    seq(|parts|, i requires 0 <= i < |parts| => FieldOf(parts[i]))
  }

  function FieldsOf(r: Reading): seq<Field> {
    if r.Listed? then Fields(r.parts) else []
  }

  /** The fields without the Token attributes. */
  function NonToken(fields: seq<Field>): seq<Field> {
    if fields == [] then []
    else if Fold(fields[0].name, "Token") then NonToken(fields[1..])
    else [fields[0]] + NonToken(fields[1..])
  }

  lemma PrintSplit(p: Part)
    ensures Print(p) == p.before + Opening(p) + p.content + ("\"" + p.after)
    ensures Print(p) == p.before + (Opening(p) + p.content + "\"") + p.after
  {
    assert p.name + (p.gap + ("=" + (p.pad + ("\"" + (p.content + ("\"" + p.after))))))
        == Opening(p) + (p.content + ("\"" + p.after));
  }

  // ---------- stripping the token ----------

  function Head(r: Reading): string
    requires r.Listed?
  {
    r.lead + r.scheme + r.gap
  }

  predicate InBounds(value: string, schemeEnd: nat, spans: seq<Attribute>) {
    schemeEnd <= |value| && forall i :: 0 <= i < |spans| ==> spans[i].attrStart <= spans[i].attrEnd <= |value|
  }

  /** Cuts the t-th attribute out by offsets: alone, first, or after another one. */
  function CutOut(value: string, schemeEnd: nat, spans: seq<Attribute>, t: nat): string
    requires t < |spans| && InBounds(value, schemeEnd, spans)
  {
    if t == 0 && |spans| == 1 then value[..schemeEnd] + value[spans[0].attrEnd..]
    else if t == 0 then value[..spans[0].attrStart] + value[spans[1].attrStart..]
    else value[..spans[t - 1].attrEnd] + value[spans[t].attrEnd..]
  }

  /** The parts that remain: the delimiter on one side of the cut goes with it. */
  function Kept(parts: seq<Part>, t: nat): seq<Part>
    requires t < |parts| && |parts| > 1
  {
    if t == 0 then [parts[1].(before := parts[0].before)] + parts[2..]
    else parts[..t - 1] + [parts[t - 1].(after := parts[t].after)] + parts[t + 1..]
  }

  lemma SpanLies(head: string, parts: seq<Part>, i: nat)
    requires i < |parts|
    ensures var s := Spans(parts, |head|)[i]; var value := head + PrintAll(parts); var p := parts[i];
      && s.name == p.name
      && s.attrStart <= s.valueStart <= s.valueEnd < s.attrEnd <= |value|
      && value[..s.attrStart] == head + Before(parts, i) + p.before
      && value[s.attrStart..] == Opening(p) + p.content + "\"" + p.after + After(parts, i)
      && value[..s.attrEnd] == head + Before(parts, i) + p.before + (Opening(p) + p.content + "\"")
      && value[s.attrEnd..] == p.after + After(parts, i)
  {
    hide Print, Before, After, PrintAll, Spans, SpanOf, Opening;
    var p := parts[i];
    var value := head + PrintAll(parts);
    var a := head + Before(parts, i) + p.before;
    var core := Opening(p) + p.content + "\"";
    PrintedAround(parts, i);
    SpanAt(parts, i, |head|);
    SpanNumbers(p, |head| + |Before(parts, i)|);
    PrintSplit(p);
    Regroup(head, Before(parts, i), p.before, core, p.after, After(parts, i));
    Cut(a, core + p.after + After(parts, i));
    Cut(a + core, p.after + After(parts, i));
  }

  lemma SpanNumbers(p: Part, at: nat)
    ensures SpanOf(p, at)
         == Attribute(p.name, at + |p.before|, at + |p.before| + |Opening(p)| + |p.content| + 1,
                      at + |p.before| + |Opening(p)|, at + |p.before| + |Opening(p)| + |p.content|)
  {
  }

  lemma SpansInside(head: string, parts: seq<Part>, schemeEnd: nat)
    requires schemeEnd <= |head|
    ensures InBounds(head + PrintAll(parts), schemeEnd, Spans(parts, |head|))
  {
    hide PrintAll, Spans;
    forall i | 0 <= i < |parts|
      ensures Spans(parts, |head|)[i].attrStart <= Spans(parts, |head|)[i].attrEnd <= |head + PrintAll(parts)|
    {
      SpanLies(head, parts, i);
    }
  }

  lemma KeepsLead(value: string, lead: string, head: string)
    requires lead <= head <= value
    ensures value[..|lead|] == lead
  {
  }

  lemma CutOutOnly(head: string, lead: string, parts: seq<Part>)
    requires |parts| == 1 && lead <= head && InBounds(head + PrintAll(parts), |lead|, Spans(parts, |head|))
    ensures CutOut(head + PrintAll(parts), |lead|, Spans(parts, |head|), 0) == lead + parts[0].after
  {
    hide Print, PrintAll, Spans, InBounds, Opening;
    SpanLies(head, parts, 0);
    NothingAfter(parts);
    KeepsLead(head + PrintAll(parts), lead, head);
  }

  lemma NothingAfter(parts: seq<Part>)
    requires |parts| == 1
    ensures parts[0].after + After(parts, 0) == parts[0].after
  {
  }

  lemma Regroup(head: string, outside: string, b: string, core: string, a: string, rest: string)
    ensures (head + outside + b) + (core + a + rest) == head + (outside + (b + core + a) + rest)
    ensures (head + outside + b + core) + (a + rest) == head + (outside + (b + core + a) + rest)
  {
  }

  lemma CutOutKeeps(head: string, parts: seq<Part>, t: nat, schemeEnd: nat)
    requires t < |parts| && |parts| > 1 && InBounds(head + PrintAll(parts), schemeEnd, Spans(parts, |head|))
    ensures CutOut(head + PrintAll(parts), schemeEnd, Spans(parts, |head|), t) == head + PrintAll(Kept(parts, t))
  {
    hide Print, Before, After, PrintAll, Spans, InBounds, Opening, Kept;
    var kept := Kept(parts, t);
    var j := if t == 0 then 0 else t - 1;
    KeptAround(parts, t);
    SpanLies(head, parts, t);
    PrintedAround(kept, j);
    var q := kept[j];
    PrintSplit(q);
    if t == 0 {
      SpanLies(head, parts, 1);
      Regroup(head, Before(parts, 0), parts[0].before, Opening(q) + q.content + "\"", q.after, After(parts, 1));
    } else {
      SpanLies(head, parts, t - 1);
      Regroup(head, Before(parts, j), q.before, Opening(q) + q.content + "\"", q.after, After(parts, t));
    }
  }

  /** The joined part of a kept list takes what is needed from both sides of the cut. */
  lemma KeptAround(parts: seq<Part>, t: nat)
    requires t < |parts| && |parts| > 1
    ensures var kept := Kept(parts, t); var j := if t == 0 then 0 else t - 1; var from := if t == 0 then 1 else t - 1;
      && |kept| == |parts| - 1
      && Before(kept, j) == Before(parts, j) && After(kept, j) == After(parts, if t == 0 then 1 else t)
      && kept[j].content == parts[from].content && Opening(kept[j]) == Opening(parts[from])
      && kept[j].before == parts[j].before && kept[j].after == parts[if t == 0 then 1 else t].after
  {
    hide Print, PrintAll, Before;
    var kept := Kept(parts, t);
    if t == 0 {
      assert kept[1..] == parts[2..];
      FirstBefore(parts);
      FirstBefore(kept);
    } else {
      assert kept[..t - 1] == parts[..t - 1] && kept[t..] == parts[t + 1..];
      BeforeSame(kept, parts, t - 1);
    }
  }

  lemma FirstBefore(parts: seq<Part>)
    requires parts != []
    ensures Before(parts, 0) == ""
  {
  }

  lemma ListedInside(value: string)
    requires Read(value).Listed?
    ensures var r := Read(value);
      value == Head(r) + PrintAll(r.parts) && InBounds(value, |r.lead| + |r.scheme|, Spans(r.parts, |Head(r)|))
  {
    hide Read, PrintAll, Spans, InBounds;
    var r := Read(value);
    ReadSound(value);
    SpansInside(Head(r), r.parts, |r.lead| + |r.scheme|);
  }

  /** The value without its Token attribute, and whether it may be forwarded. */
  function Strip(value: string): (string, bool) {
    var r := Read(value);
    match r
    case NoScheme => (value, true)
    case Foreign => (value, false)
    case Bare(_, _, _) => (value, true)
    case Broken => (value, false)
    case Listed(lead, scheme, gap, parts) =>
      var names := Names(parts);
      ListedInside(value);
      if Twice(names, "Token") then (value, false)
      else if First(names, "Token") < 0 then (value, true)
      else (CutOut(value, |lead| + |scheme|, Spans(parts, |Head(r)|), First(names, "Token")), true)
  }

  // ---------- what stripping means ----------

  lemma {:induction false} NonTokenAppend(a: seq<Field>, b: seq<Field>)
    ensures NonToken(a + b) == NonToken(a) + NonToken(b)
    decreases |a|
  {
    if a == [] {
      assert a + b == b;
    } else {
      assert (a + b)[1..] == a[1..] + b;
      NonTokenAppend(a[1..], b);
    }
  }

  lemma {:induction false} NoToken(fields: seq<Field>)
    requires forall i :: 0 <= i < |fields| ==> !Fold(fields[i].name, "Token")
    ensures NonToken(fields) == fields
    decreases |fields|
  {
    if fields != [] {
      NoToken(fields[1..]);
    }
  }

  lemma OnlyToken(parts: seq<Part>, t: nat)
    requires t < |parts| && First(Names(parts), "Token") == t && !Twice(Names(parts), "Token")
    ensures forall i :: 0 <= i < |parts| && i != t ==> !Fold(parts[i].name, "Token")
    ensures NonToken(Fields(parts)) == Fields(parts[..t]) + Fields(parts[t + 1..])
  {
    var names := Names(parts);
    forall i | 0 <= i < |parts| && i != t ensures !Fold(parts[i].name, "Token") {
      if i > t {
        assert Fold(names[t], "Token") && names[i] == parts[i].name;
      } else {
        assert names[i] == parts[i].name;
      }
    }
    var a, b := Fields(parts[..t]), Fields(parts[t + 1..]);
    assert Fields(parts) == a + ([FieldOf(parts[t])] + b);
    NonTokenAppend(a, [FieldOf(parts[t])] + b);
    assert ([FieldOf(parts[t])] + b)[1..] == b;
    assert parts[t].name == names[t];
    NoToken(a);
    NoToken(b);
  }

  lemma KeptFields(parts: seq<Part>, t: nat)
    requires t < |parts| && |parts| > 1 && ValidParts(parts) && parts[0].before == ""
    ensures Fields(Kept(parts, t)) == Fields(parts[..t]) + Fields(parts[t + 1..])
    ensures ValidParts(Kept(parts, t)) && Kept(parts, t)[0].before == ""
  {
    hide ValidPart, FieldOf;
    var kept := Kept(parts, t);
    forall i | 0 <= i < |kept| ensures ValidPart(kept[i]) && FieldOf(kept[i]) == FieldOf(if i < t then parts[i] else parts[i + 1]) {
      KeptPart(parts, t, i);
    }
  }

  lemma KeptPart(parts: seq<Part>, t: nat, i: nat)
    requires t < |parts| && |parts| > 1 && ValidParts(parts) && i < |Kept(parts, t)|
    ensures ValidPart(Kept(parts, t)[i])
    ensures i < |parts| - 1 && FieldOf(Kept(parts, t)[i]) == FieldOf(if i < t then parts[i] else parts[i + 1])
  {
    assert ValidPart(parts[0]) && ValidPart(parts[1]) && ValidPart(parts[t]) && ValidPart(parts[if t == 0 then 1 else t - 1]);
    assert ValidPart(if i < t then parts[i] else parts[i + 1]);
  }

  /** What is read from a stripped list. */
  lemma StripListed(value: string)
    requires Read(value).Listed? && Strip(value).1 && First(Names(Read(value).parts), "Token") >= 0
    ensures var r, q := Read(value), Read(Strip(value).0);
      && (q.Bare? || q.Listed?) && q.lead == r.lead && q.scheme == r.scheme
      && FieldsOf(q) == NonToken(FieldsOf(r))
  {
    hide Read, PrintAll, Spans, Names, Fields, ValidPart, KnownScheme, Kept;
    var r := Read(value);
    var parts := r.parts;
    var t := First(Names(parts), "Token");
    ReadSound(value);
    OnlyToken(parts, t);
    if |parts| == 1 {
      assert Head(r)[..|r.lead + r.scheme|] == r.lead + r.scheme;
      ListedInside(value);
      CutOutOnly(Head(r), r.lead + r.scheme, parts);
      assert ValidPart(parts[0]);
      AfterIsSpace(parts[0]);
      assert r.lead + r.scheme + parts[0].after + "" == r.lead + r.scheme + parts[0].after;
      ReadPieces(r.lead, r.scheme, parts[0].after, "");
      assert parts[..t] == [] && parts[t + 1..] == [];
    } else {
      ListedInside(value);
      CutOutKeeps(Head(r), parts, t, |r.lead| + |r.scheme|);
      KeptFields(parts, t);
      ReadListed(r.lead, r.scheme, r.gap, Kept(parts, t));
    }
  }

  lemma AfterIsSpace(p: Part)
    requires ValidPart(p)
    ensures All(p.after, IsSpace)
  {
  }

  lemma {:induction false} NonTokenClean(fields: seq<Field>)
    ensures forall i :: 0 <= i < |NonToken(fields)| ==> !Fold(NonToken(fields)[i].name, "Token")
    decreases |fields|
  {
    if fields != [] {
      NonTokenClean(fields[1..]);
    }
  }

  lemma CleanStrip(value: string)
    requires Read(value).Bare? || Read(value).Listed?
    requires forall i :: 0 <= i < |FieldsOf(Read(value))| ==> !Fold(FieldsOf(Read(value))[i].name, "Token")
    ensures Strip(value) == (value, true)
  {
    hide Read, CutOut, Spans;
    var r := Read(value);
    if r.Listed? {
      forall i | 0 <= i < |r.parts| ensures !Fold(Names(r.parts)[i], "Token") {
        assert FieldsOf(r)[i] == FieldOf(r.parts[i]);
      }
    }
  }

  /**
   A value that may be forwarded reads as the same attributes in the same order, byte
   for byte, without Token, and stripping it again changes nothing. It may be
   forwarded exactly when it has no scheme, or reads with at most one Token.
   */
  lemma StripMeaning(value: string)
    ensures var (w, safe) := Strip(value); var r, q := Read(value), Read(w);
      && (safe <==> r.NoScheme? || r.Bare? || (r.Listed? && !Twice(Names(r.parts), "Token")))
      && (safe ==>
            && FieldsOf(q) == NonToken(FieldsOf(r)) && Strip(w) == (w, true)
            && (r.NoScheme? ==> w == value)
            && (!r.NoScheme? ==> (q.Bare? || q.Listed?) && q.lead == r.lead && q.scheme == r.scheme))
      && (!safe ==> w == value)
  {
    var r := Read(value);
    var w := Strip(value).0;
    hide Read, PrintAll, Spans, CutOut, Twice, Fields, Names;
    if r.Listed? && Strip(value).1 {
      if First(Names(r.parts), "Token") >= 0 {
        StripListed(value);
      } else {
        NoTokenFields(r.parts);
      }
      NonTokenClean(FieldsOf(r));
      CleanStrip(w);
    }
  }

  lemma NoTokenFields(parts: seq<Part>)
    requires First(Names(parts), "Token") < 0
    ensures NonToken(Fields(parts)) == Fields(parts)
  {
    forall i | 0 <= i < |parts| ensures !Fold(Fields(parts)[i].name, "Token") {
      assert Names(parts)[i] == parts[i].name;
    }
    NoToken(Fields(parts));
  }
}
