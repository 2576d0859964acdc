/**
 Sealing a DASH URL template into a claim with a public suffix, and expanding the
 claim with the values a player puts into the suffix.
 */
module DashTemplate {
  import opened Wrappers
  import opened DashStrings
  import opened DashMarkers
  import opened DashValues

  // ---------- templates ----------

  /** What stands between two literal texts: "$$" or an expression between dollars. */
  datatype Mark = Dollar | Slot(expression: string)

  datatype Template = Template(texts: seq<string>, marks: seq<Mark>)

  ghost predicate Shaped(t: Template) {
    |t.texts| == |t.marks| + 1
  }

  function WithText(c: char, t: Template): Template
    requires |t.texts| > 0
  {
    Template([[c] + t.texts[0]] + t.texts[1..], t.marks)
  }

  function WithMark(m: Mark, t: Template): Template {
    Template([""] + t.texts, [m] + t.marks)
  }

  /** Reads a template from the left; fails on an open or unsupported expression. */
  function ParseTemplate(s: string): (r: Result<Template>)
    ensures r.Ok? ==> |r.value.texts| == |r.value.marks| + 1
    decreases |s|
  {
    if s == "" then Ok(Template([""], []))
    else if s[0] != '$' then
      match ParseTemplate(s[1..]) {
        case Err => Err
        case Ok(t) => Ok(WithText(s[0], t))
      }
    else if |s| > 1 && s[1] == '$' then
      match ParseTemplate(s[2..]) {
        case Err => Err
        case Ok(t) => Ok(WithMark(Dollar, t))
      }
    else
      var end := Find("$", s[1..]);
      if end < 0 || Identifier(s[1..][..end]).None? then Err
      else
        match ParseTemplate(s[1..][end + 1..]) {
          case Err => Err
          case Ok(t) => Ok(WithMark(Slot(s[1..][..end]), t))
        }
  }

  // ---------- sanitizing ----------

  datatype Marker = Marker(sentinel: string, expression: string, literal: bool, fixed: bool, fixedIndex: nat)

  function MarkerOf(m: Mark, i: nat): Marker {
    match m
    case Dollar => Marker(Sentinel(i), "", true, false, 0)
    case Slot(e) => Marker(Sentinel(i), e, false, false, 0)
  }

  function MarkersOf(marks: seq<Mark>, i: nat): (ms: seq<Marker>)
    ensures |ms| == |marks|
  {
    if marks == [] then [] else [MarkerOf(marks[0], i)] + MarkersOf(marks[1..], i + 1)
  }

  function Sentinels(i: nat, n: nat): (fills: seq<string>)
    ensures |fills| == n
    decreases n
  {
    if n == 0 then [] else [Sentinel(i)] + Sentinels(i + 1, n - 1)
  }

  function LowerChar(c: char): char {
    if 'A' <= c <= 'Z' then ((c as int) + 32) as char else c
  }

  function Lower(s: string): string {
    seq(|s|, i requires 0 <= i < |s| => LowerChar(s[i]))
  }

  predicate UnsafeChar(c: char) {
    var n := c as int;
    n <= 0x20 || 0x7f <= n <= 0xa0 || n == 0x1680 || 0x2000 <= n <= 0x200a || n == 0x2028 || n == 0x2029
    || n == 0x202f || n == 0x205f || n == 0x3000
  }

  predicate Acceptable(value: string) {
    && value != "" && |value| <= MAX_TARGET
    && !Contains(value, TemplatePrefix())
    && !Contains(Lower(value), FixedCore())
    && forall i :: 0 <= i < |value| ==> !UnsafeChar(value[i])
  }

  datatype Sanitized = Sanitized(text: string, markers: seq<Marker>)

  function SanitizedText(t: Template): string
    requires |t.texts| == |t.marks| + 1
  {
    Weave(t.texts, Sentinels(0, |t.marks|))
  }

  function SanitizedTemplate(t: Template): Sanitized
    requires |t.texts| == |t.marks| + 1
  {
    Sanitized(SanitizedText(t), MarkersOf(t.marks, 0))
  }

  function Sanitize(value: string): Result<Sanitized> {
    if !Acceptable(value) then Err
    else
      match ParseTemplate(value)
      case Err => Err
      case Ok(t) => Ok(SanitizedTemplate(t))
  }

  // ---------- choosing the markers of the claim ----------

  /** The parts of a URL reference that a marker may stand in. */
  datatype Parts = Parts(host: string, path: string, query: string)

  function Marked(v: string, p: Parts): nat
    requires v != ""
  {
    Count(v, p.host) + Count(v, p.path) + Count(v, p.query)
  }

  datatype Prepared = Prepared(claimText: string, markers: seq<Marker>, fixedValues: seq<string>)

  function FixAt(m: Marker, k: nat): Marker {
    m.(fixed := true, fixedIndex := k)
  }

  function Prepare(markers: seq<Marker>, p: Parts, b: Bindings, state: Prepared): Result<Prepared> {
    if markers == [] then Ok(state)
    else
      var m := markers[0];
      if m.sentinel == "" || Marked(m.sentinel, p) != 1 then Err
      else if m.literal then
        if Count(m.sentinel, p.host) != 0 then Err
        else Prepare(markers[1..], p, b, state.(markers := state.markers + [m]))
      else
        match FixedValue(m.expression, b)
        case Err => Err
        case Ok(None) =>
          if Count(m.sentinel, p.host) != 0 then Err
          else Prepare(markers[1..], p, b, state.(markers := state.markers + [m]))
        case Ok(Some(v)) =>
          var k := |state.fixedValues|;
          Prepare(markers[1..], p, b,
            Prepared(ReplaceFirst(state.claimText, m.sentinel, FixedMarker(k)),
                     state.markers + [FixAt(m, k)], state.fixedValues + [v]))
  }

  // ---------- the claim and its public suffix ----------

  datatype Restored = Restored(target: string, expressions: seq<string>)

  function Restore(markers: seq<Marker>, state: Restored): Result<Restored> {
    if markers == [] then Ok(state)
    else
      var m := markers[0];
      if m.fixed then
        if Count(FixedMarker(m.fixedIndex), state.target) != 1 then Err else Restore(markers[1..], state)
      else if m.sentinel == "" || Count(m.sentinel, state.target) != 1 then Err
      else if m.literal then
        Restore(markers[1..], state.(target := ReplaceFirst(state.target, m.sentinel, LiteralMarker())))
      else
        Restore(markers[1..],
          Restored(ReplaceFirst(state.target, m.sentinel, "$" + m.expression + "$"),
                   state.expressions + [m.expression]))
  }

  function PublicSuffix(expressions: seq<string>, i: nat): string {
    if expressions == [] then ""
    else "/v" + Itoa(i) + "-$" + expressions[0] + "$" + PublicSuffix(expressions[1..], i + 1)
  }

  /** net/url as far as sealing and expanding use it. */
  datatype Net = Net(
    reference: string -> Option<Parts>,   // parse the sanitized reference
    resolve: string -> Option<string>,    // parse, resolve against the base, normalise, print
    parts: string -> Option<Parts>,       // parse an absolute URL
    normalize: string -> Option<string>)  // normalise and print an absolute URL

  datatype Claims = Claims(target: string, template: seq<string>, fixed: seq<string>)

  datatype Sealed = Sealed(claims: Claims, suffix: string)

  function Seal(value: string, b: Bindings, net: Net): Result<Sealed> {
    match Sanitize(value)
    case Err => Err
    case Ok(s) =>
      match net.reference(s.text)
      case None => Err
      case Some(p) =>
        match Prepare(s.markers, p, b, Prepared(s.text, [], []))
        case Err => Err
        case Ok(prepared) =>
          match net.resolve(prepared.claimText)
          case None => Err
          case Some(url) =>
            match Restore(prepared.markers, Restored(url, []))
            case Err => Err
            case Ok(r) =>
              if r.target == "" || |r.target| > MAX_TARGET then Err
              else Ok(Sealed(Claims(r.target, r.expressions, prepared.fixedValues), PublicSuffix(r.expressions, 0)))
  }

  // ---------- expanding ----------

  function Split(s: string, c: char): (segments: seq<string>)
    ensures segments != []
    decreases |s|
  {
    var i := Find([c], s);
    if i < 0 then [s] else [s[..i]] + Split(s[i + 1..], c)
  }

  /** The value of each expression in its segment, if all are valid and agree with each other. */
  function Values(template: seq<string>, segments: seq<string>, i: nat, seen: map<string, nat>, values: seq<string>): Result<seq<string>>
    requires |template| == |segments|
    decreases |template|
  {
    if template == [] then Ok(values)
    else
      var prefix := "v" + Itoa(i) + "-";
      if Identifier(template[0]).None? || !(prefix <= segments[0]) then Err
      else
        var id := Identifier(template[0]).value;
        var value := segments[0][|prefix|..];
        match ParsedValue(template[0], value)
        case None => Err
        case Some(n) =>
          if id in seen && seen[id] != n then Err
          else Values(template[1..], segments[1..], i + 1, seen[id := n], values + [value])
  }

  /** Replaces the expressions in order; no other dollar sign may be left between them. */
  function Substitute(rest: string, template: seq<string>, values: seq<string>): Result<string>
    requires |template| == |values|
    decreases |template|
  {
    if template == [] then
      if Contains(rest, "$") then Err else Ok(rest)
    else
      var needle := "$" + template[0] + "$";
      var i := Find(needle, rest);
      if i < 0 || Contains(rest[..i], "$") then Err
      else
        match Substitute(rest[i + |needle|..], template[1..], values[1..])
        case Err => Err
        case Ok(tail) => Ok(rest[..i] + values[0] + tail)
  }

  function RestoreFixed(value: string, p: Parts, fixed: seq<string>, k: nat): Result<string>
    decreases |fixed|
  {
    if fixed == [] then Ok(value)
    else if !ValidRepresentationId(fixed[0]) || Marked(FixedMarker(k), p) != 1 then Err
    else RestoreFixed(ReplaceFirst(value, FixedMarker(k), fixed[0]), p, fixed[1..], k + 1)
  }

  function RestoreFixedClaims(target: string, fixed: seq<string>, net: Net): Result<string> {
    if fixed == [] then Ok(target)
    else if |fixed| > 64 then Err
    else
      match net.parts(target)
      case None => Err
      case Some(p) => RestoreFixed(target, p, fixed, 0)
  }

  function Reconstruct(claims: Claims, suffix: string): Result<string> {
    if claims.template == [] then
      if suffix != "" then Err else Ok(claims.target)
    else if |claims.template| > 64 || suffix == "" then Err
    else
      var segments := Split(suffix, '/');
      if |segments| != |claims.template| then Err
      else
        match Values(claims.template, segments, 0, map[], [])
        case Err => Err
        case Ok(values) => SubstituteAll(claims.target, claims.template, values)
  }

  function SubstituteAll(target: string, template: seq<string>, values: seq<string>): Result<string> {
    if |values| != |template| then Err else Substitute(target, template, values)
  }

  function Expand(claims: Claims, suffix: string, net: Net): Result<string> {
    match Reconstruct(claims, suffix)
    case Err => Err
    case Ok(text) =>
      match RestoreFixedClaims(text, claims.fixed, net)
      case Err => Err
      case Ok(restored) =>
        var targetText := ReplaceAll(restored, LiteralMarker(), "$");
        match net.normalize(targetText)
        case None => Err
        case Some(target) => if claims.fixed == [] && target != targetText then Err else Ok(target)
  }

  // ---------- what a player does ----------

  /** Template substitution as a player performs it: "$$" is a dollar, an expression its value. */
  function Play(s: string, value: string -> string): string
    decreases |s|
  {
    if s == "" then ""
    else if s[0] != '$' then [s[0]] + Play(s[1..], value)
    else if |s| > 1 && s[1] == '$' then "$" + Play(s[2..], value)
    else
      var end := Find("$", s[1..]);
      if end < 0 then s else value(s[1..][..end]) + Play(s[1..][end + 1..], value)
  }

  // ---------- the loops of the program ----------

  method SanitizeDashTemplate(value: string) returns (r: Result<Sanitized>)
    ensures r == Sanitize(value)
  {
    hide Lower, Core, FixedCore, Sentinel, Identifier, UnsafeChar, TemplatePrefix, Reading, SanitizedTemplate,
      Appended, Marking, ParseTemplate;
    if value == "" || |value| > MAX_TARGET || Contains(value, TemplatePrefix())
       || Contains(Lower(value), FixedCore()) || exists i :: 0 <= i < |value| && UnsafeChar(value[i]) {
      return Err;
    }
    var markers: seq<Marker> := [];
    var output := "";
    var offset := 0;
    ghost var done := Template([""], []);
    ReadingStarts(value);
    while offset < |value|
      invariant offset <= |value| && Shaped(done)
      invariant Reading(value, offset, done, markers, output)
    {
      if value[offset] != '$' {
        ReadingText(value, offset, done, markers, output);
        done := Appended(done, value[offset]);
        output := output + [value[offset]];
        offset := offset + 1;
        continue;
      }
      if offset + 1 < |value| && value[offset + 1] == '$' {
        ReadingDollar(value, offset, done, markers, output);
        done := Marking(done, Dollar);
        var sentinel := Sentinel(|markers|);
        markers := markers + [Marker(sentinel, "", true, false, 0)];
        output := output + sentinel;
        offset := offset + 2;
        continue;
      }
      ReadingFails(value, offset, done, markers, output);
      var end := Find("$", value[offset + 1..]);
      if end < 0 {
        return Err;
      }
      var expression := value[offset + 1..][..end];
      if Identifier(expression).None? {
        return Err;
      }
      ReadingSlot(value, offset, done, markers, output, end);
      done := Marking(done, Slot(expression));
      var sentinel := Sentinel(|markers|);
      markers := markers + [Marker(sentinel, expression, false, false, 0)];
      output := output + sentinel;
      offset := offset + 1 + end + 1;
    }
    ReadingEnds(value, done, markers, output);
    r := Ok(Sanitized(output, markers));
  }

  /** The loop has turned value[..offset] into output and markers, which stand for the template done. */
  ghost predicate Reading(value: string, offset: nat, done: Template, markers: seq<Marker>, output: string) {
    && offset <= |value| && Shaped(done)
    && markers == MarkersOf(done.marks, 0)
    && output == SanitizedText(done)
    && ParseTemplate(value) == Joined(done, ParseTemplate(value[offset..]))
  }

  lemma ReadingStarts(value: string)
    ensures Shaped(Template([""], [])) && Reading(value, 0, Template([""], []), [], "")
  {
    hide ParseTemplate;
    Started(value);
  }

  lemma ReadingText(value: string, offset: nat, done: Template, markers: seq<Marker>, output: string)
    requires Shaped(done) && Reading(value, offset, done, markers, output)
    requires offset < |value| && value[offset] != '$'
    ensures Shaped(Appended(done, value[offset]))
    ensures Reading(value, offset + 1, Appended(done, value[offset]), markers, output + [value[offset]])
  {
    hide ParseTemplate, SanitizedText, Joined, Appended;
    ReadText(done, value[offset..]);
    TextWoven(done, value[offset]);
    assert value[offset..][1..] == value[offset + 1..];
  }

  lemma ReadingDollar(value: string, offset: nat, done: Template, markers: seq<Marker>, output: string)
    requires Reading(value, offset, done, markers, output)
    requires offset + 1 < |value| && value[offset] == '$' && value[offset + 1] == '$'
    ensures Shaped(Marking(done, Dollar))
    ensures Reading(value, offset + 2, Marking(done, Dollar),
      markers + [Marker(Sentinel(|markers|), "", true, false, 0)], output + Sentinel(|markers|))
  {
    hide ParseTemplate, SanitizedText, Joined, Marking, Sentinel;
    ReadDollar(done, value[offset..]);
    MarkWoven(done, Dollar);
    assert value[offset..][2..] == value[offset + 2..];
  }

  lemma ReadingFails(value: string, offset: nat, done: Template, markers: seq<Marker>, output: string)
    requires Reading(value, offset, done, markers, output)
    requires offset < |value| && value[offset] == '$' && !(offset + 1 < |value| && value[offset + 1] == '$')
    ensures var end := Find("$", value[offset + 1..]);
      end < 0 || Identifier(value[offset + 1..][..end]).None? ==> ParseTemplate(value) == Err
  {
    hide ParseTemplate, SanitizedText, Marking, Identifier, Glued;
    assert value[offset..][1..] == value[offset + 1..];
    ReadSlot(done, value[offset..]);
  }

  lemma ReadingSlot(value: string, offset: nat, done: Template, markers: seq<Marker>, output: string, end: nat)
    requires Reading(value, offset, done, markers, output)
    requires offset < |value| && value[offset] == '$' && !(offset + 1 < |value| && value[offset + 1] == '$')
    requires end == Find("$", value[offset + 1..]) && Identifier(value[offset + 1..][..end]).Some?
    ensures var e := value[offset + 1..][..end];
      && Shaped(Marking(done, Slot(e)))
      && offset + 1 + end + 1 <= |value|
      && Reading(value, offset + 1 + end + 1, Marking(done, Slot(e)),
           markers + [Marker(Sentinel(|markers|), e, false, false, 0)], output + Sentinel(|markers|))
  {
    hide ParseTemplate, SanitizedText, Marking, Sentinel, Identifier, Joined, MarkersOf;
    var rest := value[offset + 1..];
    assert value[offset..][1..] == rest;
    ReadSlot(done, value[offset..]);
    MarkWoven(done, Slot(rest[..end]));
    assert rest[end + 1..] == value[offset + 1 + end + 1..];
  }

  lemma ReadingEnds(value: string, done: Template, markers: seq<Marker>, output: string)
    requires Reading(value, |value|, done, markers, output)
    ensures ParseTemplate(value) == Ok(done) && Sanitized(output, markers) == SanitizedTemplate(done)
  {
    assert value[|value|..] == "";
    JoinedEnd(done);
  }

  function Joined(done: Template, rest: Result<Template>): Result<Template>
    requires |done.texts| > 0
  {
    match rest
    case Err => Err
    case Ok(t) => if |t.texts| == 0 then Err else Ok(Glued(done, t))
  }

  function Glued(a: Template, b: Template): Template
    requires |a.texts| > 0 && |b.texts| > 0
  {
    var n := |a.texts| - 1;
    Template(a.texts[..n] + [a.texts[n] + b.texts[0]] + b.texts[1..], a.marks + b.marks)
  }

  function Appended(t: Template, c: char): Template
    requires |t.texts| > 0
  {
    var n := |t.texts| - 1;
    Template(t.texts[..n] + [t.texts[n] + [c]], t.marks)
  }

  function Marking(t: Template, m: Mark): Template {
    Template(t.texts + [""], t.marks + [m])
  }

  lemma Started(value: string)
    ensures Joined(Template([""], []), ParseTemplate(value)) == ParseTemplate(value)
    ensures MarkersOf([], 0) == [] && SanitizedText(Template([""], [])) == ""
    ensures value[0..] == value
  {
    if ParseTemplate(value).Ok? {
      var t := ParseTemplate(value).value;
      assert "" + t.texts[0] == t.texts[0];
      assert [] + [t.texts[0]] + t.texts[1..] == t.texts;
      assert Glued(Template([""], []), t).texts == t.texts;
      assert [] + t.marks == t.marks;
    }
  }

  lemma JoinedEnd(done: Template)
    requires |done.texts| > 0
    ensures Joined(done, ParseTemplate("")) == Ok(done)
  {
    var n := |done.texts| - 1;
    assert done.texts[n] + "" == done.texts[n];
    assert done.texts[..n] + [done.texts[n]] + [] == done.texts;
    assert Glued(done, Template([""], [])).texts == done.texts;
    assert done.marks + [] == done.marks;
  }

  lemma GluedText(a: Template, c: char, t: Template)
    requires |a.texts| > 0 && |t.texts| > 0
    ensures Glued(a, WithText(c, t)) == Glued(Appended(a, c), t)
  {
    var n := |a.texts| - 1;
    var b := Appended(a, c);
    assert b.texts[..n] == a.texts[..n];
    assert a.texts[n] + ([c] + t.texts[0]) == b.texts[n] + t.texts[0];
    assert WithText(c, t).texts[1..] == t.texts[1..];
  }

  lemma GluedMark(a: Template, m: Mark, t: Template)
    requires |a.texts| > 0 && |t.texts| > 0
    ensures Glued(a, WithMark(m, t)) == Glued(Marking(a, m), t)
  {
    GluedTexts(a.texts, t.texts);
    assert a.marks + ([m] + t.marks) == (a.marks + [m]) + t.marks;
  }

  lemma GluedTexts(a: seq<string>, t: seq<string>)
    requires |a| > 0 && |t| > 0
    ensures var w := [""] + t; var b := a + [""];
      a[..|a| - 1] + [a[|a| - 1] + w[0]] + w[1..] == b[..|a|] + [b[|a|] + t[0]] + t[1..]
  {
    var w, b := [""] + t, a + [""];
    var n := |a| - 1;
    assert a[n] + "" == a[n] && "" + t[0] == t[0];
    assert w[1..] == t && b[..n + 1] == a;
    assert a[..n] + [a[n]] + t == a + t;
    assert a + [t[0]] + t[1..] == a + t;
  }

  lemma ReadText(done: Template, s: string)
    requires |done.texts| > 0 && s != "" && s[0] != '$'
    ensures Joined(done, ParseTemplate(s)) == Joined(Appended(done, s[0]), ParseTemplate(s[1..]))
  {
    hide Glued, Appended;
    if ParseTemplate(s[1..]).Ok? {
      GluedText(done, s[0], ParseTemplate(s[1..]).value);
    }
  }

  lemma MarkJoined(done: Template, m: Mark, rest: Result<Template>)
    requires |done.texts| > 0 && (rest.Ok? ==> |rest.value.texts| > 0)
    ensures Joined(Marking(done, m), rest)
         == Joined(done, match rest { case Err => Err case Ok(t) => Ok(WithMark(m, t)) })
  {
    hide Glued, Marking;
    if rest.Ok? {
      GluedMark(done, m, rest.value);
    }
  }

  lemma ReadDollar(done: Template, s: string)
    requires |done.texts| > 0 && |s| > 1 && s[0] == '$' && s[1] == '$'
    ensures Joined(done, ParseTemplate(s)) == Joined(Marking(done, Dollar), ParseTemplate(s[2..]))
  {
    hide Joined, Marking;
    MarkJoined(done, Dollar, ParseTemplate(s[2..]));
  }

  lemma ReadSlot(done: Template, s: string)
    requires |done.texts| > 0 && s != "" && s[0] == '$' && !(|s| > 1 && s[1] == '$')
    ensures var end := Find("$", s[1..]);
      && (end < 0 || Identifier(s[1..][..end]).None? ==> ParseTemplate(s) == Err)
      && (end >= 0 && Identifier(s[1..][..end]).Some? ==>
            Joined(done, ParseTemplate(s)) == Joined(Marking(done, Slot(s[1..][..end])), ParseTemplate(s[1..][end + 1..])))
  {
    hide Joined, Marking, Identifier;
    var end := Find("$", s[1..]);
    if end >= 0 && Identifier(s[1..][..end]).Some? {
      MarkJoined(done, Slot(s[1..][..end]), ParseTemplate(s[1..][end + 1..]));
    }
  }

  lemma {:induction false} SentinelsSnoc(i: nat, n: nat)
    ensures Sentinels(i, n + 1) == Sentinels(i, n) + [Sentinel(i + n)]
    decreases n
  {
    if n > 0 {
      SentinelsSnoc(i + 1, n - 1);
    }
  }

  lemma {:induction false} MarkersSnoc(marks: seq<Mark>, m: Mark, i: nat)
    ensures MarkersOf(marks + [m], i) == MarkersOf(marks, i) + [MarkerOf(m, i + |marks|)]
  {
    if marks != [] {
      MarkersSnoc(marks[1..], m, i + 1);
      assert (marks + [m])[1..] == marks[1..] + [m];
    }
  }

  lemma MarkWoven(t: Template, m: Mark)
    requires Shaped(t)
    ensures Shaped(Marking(t, m)) && SanitizedText(Marking(t, m)) == SanitizedText(t) + Sentinel(|t.marks|)
    ensures MarkersOf(Marking(t, m).marks, 0) == MarkersOf(t.marks, 0) + [MarkerOf(m, |t.marks|)]
  {
    hide Sentinel;
    SentinelsSnoc(0, |t.marks|);
    WeaveSnoc(t.texts, Sentinels(0, |t.marks|), Sentinel(|t.marks|), "");
    MarkersSnoc(t.marks, m, 0);
  }

  lemma TextWoven(t: Template, c: char)
    requires Shaped(t)
    ensures Shaped(Appended(t, c)) && SanitizedText(Appended(t, c)) == SanitizedText(t) + [c]
    ensures Appended(t, c).marks == t.marks
  {
    hide Sentinels;
    WeaveLast(t.texts, Sentinels(0, |t.marks|), [c]);
  }

  lemma {:induction false} WeaveLast(texts: seq<string>, fills: seq<string>, s: string)
    requires |texts| == |fills| + 1
    ensures Weave(texts[..|fills|] + [texts[|fills|] + s], fills) == Weave(texts, fills) + s
  {
    var n := |fills|;
    var after := texts[..n] + [texts[n] + s];
    if n > 0 {
      WeaveLast(texts[1..], fills[1..], s);
      assert after[1..] == texts[1..][..n - 1] + [texts[1..][n - 1] + s];
    }
  }
}
