/**
 Expanding a sealed claim with a player's values gives what the player would have
 got from the original template.
 */
module DashExpansion {
  import opened Wrappers
  import opened DashStrings
  import opened DashMarkers
  import opened DashValues
  import opened DashTemplate
  import opened DashSealing

  // ---------- templates are read back exactly ----------

  function Spelled(m: Mark): string {
    match m
    case Dollar => "$$"
    case Slot(e) => "$" + e + "$"
  }

  function Played(m: Mark, value: string -> string): string {
    match m
    case Dollar => "$"
    case Slot(e) => value(e)
  }

  function SpelledAll(marks: seq<Mark>): (fills: seq<string>)
    ensures |fills| == |marks|
  {
    if marks == [] then [] else [Spelled(marks[0])] + SpelledAll(marks[1..])
  }

  function PlayedAll(marks: seq<Mark>, value: string -> string): (fills: seq<string>)
    ensures |fills| == |marks|
  {
    if marks == [] then [] else [Played(marks[0], value)] + PlayedAll(marks[1..], value)
  }

  ghost predicate ReadsAs(s: string, t: Template, value: string -> string) {
    && Shaped(t) && MarksOk(t.marks)
    && (forall i :: 0 <= i < |t.texts| ==> '$' !in t.texts[i])
    && Weave(t.texts, SpelledAll(t.marks)) == s
    && Weave(t.texts, PlayedAll(t.marks, value)) == Play(s, value)
  }

  lemma TextRead(s: string, t: Template, value: string -> string)
    requires s != "" && s[0] != '$' && ReadsAs(s[1..], t, value)
    ensures ReadsAs(s, WithText(s[0], t), value)
  {
    var w := WithText(s[0], t);
    assert w.texts[1..] == t.texts[1..];
    WeaveHead([s[0]], t.texts, SpelledAll(t.marks));
    WeaveHead([s[0]], t.texts, PlayedAll(t.marks, value));
    assert [s[0]] + s[1..] == s;
  }

  lemma WeaveHead(a: string, texts: seq<string>, fills: seq<string>)
    requires |texts| == |fills| + 1
    ensures Weave([a + texts[0]] + texts[1..], fills) == a + Weave(texts, fills)
  {
    var ts := [a + texts[0]] + texts[1..];
    assert ts[1..] == texts[1..];
    if fills != [] {
      assert (a + texts[0]) + fills[0] + Weave(texts[1..], fills[1..]) == a + (texts[0] + fills[0] + Weave(texts[1..], fills[1..]));
    }
  }

  lemma WeaveMark(f: string, texts: seq<string>, fills: seq<string>)
    requires |texts| == |fills| + 1
    ensures Weave([""] + texts, [f] + fills) == f + Weave(texts, fills)
  {
    var ts, fs := [""] + texts, [f] + fills;
    assert ts[1..] == texts && fs[1..] == fills;
    assert "" + f == f;
  }

  lemma MarkRead(m: Mark, s: string, rest: string, t: Template, value: string -> string)
    requires ReadsAs(rest, t, value) && s == Spelled(m) + rest
    requires m.Slot? ==> Identifier(m.expression).Some?
    requires Play(s, value) == Played(m, value) + Play(rest, value)
    ensures ReadsAs(s, WithMark(m, t), value)
  {
    hide Identifier, Play, Weave, Spelled, Played;
    var w := WithMark(m, t);
    assert w.marks[1..] == t.marks;
    assert SpelledAll(w.marks) == [Spelled(m)] + SpelledAll(t.marks);
    assert PlayedAll(w.marks, value) == [Played(m, value)] + PlayedAll(t.marks, value);
    WeaveMark(Spelled(m), t.texts, SpelledAll(t.marks));
    WeaveMark(Played(m, value), t.texts, PlayedAll(t.marks, value));
  }

  /**
   A template that is accepted is split without loss, and substituting values into
   its marks is what a player's substitution does to its text.
   */
  lemma {:induction false} TemplateRead(s: string, value: string -> string)
    requires ParseTemplate(s).Ok?
    ensures ReadsAs(s, ParseTemplate(s).value, value)
    decreases |s|
  {
    hide ReadsAs, Identifier;
    if s == "" {
      EmptyRead(value);
    } else if s[0] != '$' {
      TemplateRead(s[1..], value);
      TextRead(s, ParseTemplate(s[1..]).value, value);
    } else if |s| > 1 && s[1] == '$' {
      TemplateRead(s[2..], value);
      assert s == Spelled(Dollar) + s[2..];
      MarkRead(Dollar, s, s[2..], ParseTemplate(s[2..]).value, value);
    } else {
      var end := Find("$", s[1..]);
      var e, rest := s[1..][..end], s[1..][end + 1..];
      TemplateRead(rest, value);
      SlotText(s, end);
      MarkRead(Slot(e), s, rest, ParseTemplate(rest).value, value);
    }
  }

  lemma SlotText(s: string, end: nat)
    requires s != "" && s[0] == '$' && end == Find("$", s[1..])
    ensures s == "$" + s[1..][..end] + "$" + s[1..][end + 1..]
  {
    var r := s[1..];
    Found("$", r);
    assert r[end..end + 1] == "$";
    assert r == r[..end] + r[end..end + 1] + r[end + 1..];
    assert s == [s[0]] + r;
  }

  lemma EmptyRead(value: string -> string)
    ensures ReadsAs("", Template([""], []), value)
  {
  }

  // ---------- the values in the public suffix ----------

  function Segments(exprs: seq<string>, value: string -> string, i: nat): (segments: seq<string>)
    ensures |segments| == |exprs|
  {
    if exprs == [] then [] else ["v" + Itoa(i) + "-" + value(exprs[0])] + Segments(exprs[1..], value, i + 1)
  }

  function SuffixOf(segments: seq<string>): string {
    if segments == [] then "" else "/" + segments[0] + SuffixOf(segments[1..])
  }

  function MapValues(exprs: seq<string>, value: string -> string): (values: seq<string>)
    ensures |values| == |exprs|
  {
    if exprs == [] then [] else [value(exprs[0])] + MapValues(exprs[1..], value)
  }

  /** The player's values: each variable expression gets its identifier's number, in a form that passes the checks. */
  ghost predicate Assigns(exprs: seq<string>, value: string -> string, number: string -> nat) {
    forall e :: e in exprs ==>
      Identifier(e).Some? && ParsedValue(e, value(e)) == Some(number(Identifier(e).value))
  }

  lemma {:induction false} PlayText(a: string, s: string, value: string -> string)
    requires '$' !in a
    ensures Play(a + s, value) == a + Play(s, value)
  {
    if a == "" {
      assert a + s == s;
    } else {
      PlayText(a[1..], s, value);
      assert (a + s)[1..] == a[1..] + s;
      assert [a[0]] + (a[1..] + Play(s, value)) == a + Play(s, value);
    }
  }

  lemma PlaySlot(e: string, s: string, value: string -> string)
    requires e != "" && '$' !in e
    ensures Play("$" + e + "$" + s, value) == value(e) + Play(s, value)
  {
    hide Play;
    var whole := "$" + e + "$" + s;
    var r := whole[1..];
    assert r == e + "$" + s;
    FindBehind("$", e, "$" + s);
    assert e + ("$" + s) == r;
    assert whole[1] == e[0];
    assert r[..|e|] == e && r[|e| + 1..] == s;
    PlayUnfolds(whole, value);
  }

  lemma PlayUnfolds(s: string, value: string -> string)
    requires |s| > 1 && s[0] == '$' && s[1] != '$' && Find("$", s[1..]) >= 0
    ensures var end := Find("$", s[1..]); Play(s, value) == value(s[1..][..end]) + Play(s[1..][end + 1..], value)
  {
  }

  lemma {:induction false} SuffixPlayed(exprs: seq<string>, value: string -> string, i: nat)
    requires forall e :: e in exprs ==> Identifier(e).Some?
    ensures Play(PublicSuffix(exprs, i), value) == SuffixOf(Segments(exprs, value, i))
  {
    hide Play, Identifier;
    if exprs == [] {
      PlayEmpty(value);
    } else {
      var e, rest := exprs[0], PublicSuffix(exprs[1..], i + 1);
      SuffixPlayed(exprs[1..], value, i + 1);
      IdentifierQuiet(e);
      var a := "/v" + Itoa(i) + "-";
      assert PublicSuffix(exprs, i) == a + ("$" + e + "$" + rest);
      PlayText(a, "$" + e + "$" + rest, value);
      PlaySlot(e, rest, value);
      SegmentJoined(exprs, value, i);
    }
  }

  lemma PlayEmpty(value: string -> string)
    ensures Play("", value) == ""
  {
  }

  lemma SegmentJoined(exprs: seq<string>, value: string -> string, i: nat)
    requires exprs != []
    ensures SuffixOf(Segments(exprs, value, i))
         == ("/v" + Itoa(i) + "-") + (value(exprs[0]) + SuffixOf(Segments(exprs[1..], value, i + 1)))
  {
    var all := Segments(exprs, value, i);
    assert all[1..] == Segments(exprs[1..], value, i + 1);
    assert "/" + ("v" + Itoa(i) + "-" + value(exprs[0])) == ("/v" + Itoa(i) + "-") + value(exprs[0]);
  }

  lemma IdentifierQuiet(e: string)
    requires Identifier(e).Some?
    ensures e != "" && '$' !in e && '/' !in e
  {
    ExpressionQuiet(e);
  }

  lemma {:induction false} SplitJoined(segments: seq<string>)
    requires segments != [] && forall i :: 0 <= i < |segments| ==> '/' !in segments[i]
    ensures SuffixOf(segments) != "" && Split(SuffixOf(segments)[1..], '/') == segments
  {
    var s := SuffixOf(segments)[1..];
    var rest := SuffixOf(segments[1..]);
    assert s == segments[0] + rest;
    if |segments| == 1 {
      assert rest == "" && s == segments[0];
      NoSlash(s);
      assert segments == [s];
    } else {
      SplitJoined(segments[1..]);
      SplitAtSlash(segments[0], rest);
    }
  }

  lemma SplitAtSlash(a: string, rest: string)
    requires '/' !in a && rest != "" && rest[0] == '/'
    ensures Split(a + rest, '/') == [a] + Split(rest[1..], '/')
  {
    var s := a + rest;
    FindBehind(['/'], a, rest);
    assert rest[0..1] == ['/'];
    assert s[|a| + 1..] == rest[1..];
    assert s[..|a|] == a;
  }

  lemma NoSlash(s: string)
    requires '/' !in s
    ensures Find(['/'], s) == -1
  {
    Found(['/'], s);
    forall p ensures !OccursAt(['/'], s, p) {
      if 0 <= p < |s| {
        assert s[p] in s;
        Mismatch(['/'], s, p, 0);
      }
    }
  }

  lemma {:induction false} SegmentsHaveNoSlash(exprs: seq<string>, value: string -> string, number: string -> nat, i: nat)
    requires Assigns(exprs, value, number)
    ensures forall j :: 0 <= j < |exprs| ==> '/' !in Segments(exprs, value, i)[j]
  {
    hide Identifier, ParsedValue;
    if exprs != [] {
      SegmentsHaveNoSlash(exprs[1..], value, number, i + 1);
      AssignedQuiet(exprs[0], value(exprs[0]));
    }
  }

  lemma AssignedQuiet(e: string, v: string)
    requires ParsedValue(e, v).Some?
    ensures '/' !in v && '$' !in v
  {
    ValueQuiet(e, v);
  }

  lemma {:induction false} ValuesRead(exprs: seq<string>, value: string -> string, number: string -> nat, i: nat,
                                      seen: map<string, nat>, values: seq<string>)
    requires Assigns(exprs, value, number)
    requires forall id :: id in seen ==> seen[id] == number(id)
    ensures Values(exprs, Segments(exprs, value, i), i, seen, values) == Ok(values + MapValues(exprs, value))
    decreases |exprs|
  {
    hide Identifier, ParsedValue;
    if exprs == [] {
      assert values + [] == values;
    } else {
      var e := exprs[0];
      var segments := Segments(exprs, value, i);
      var prefix := "v" + Itoa(i) + "-";
      assert segments[0] == prefix + value(e) && segments[0][|prefix|..] == value(e);
      assert segments[1..] == Segments(exprs[1..], value, i + 1);
      var id := Identifier(e).value;
      ValuesRead(exprs[1..], value, number, i + 1, seen[id := number(id)], values + [value(e)]);
      assert (values + [value(e)]) + MapValues(exprs[1..], value) == values + MapValues(exprs, value);
    }
  }

  // ---------- the values in the claim ----------

  /** The fills of the claim once the player's values are in. */
  function FilledAt(m: Mark, k: nat, value: string -> string): string {
    if m.Dollar? then LiteralMarker() else if FixedMark(m) then FixedMarker(k) else value(m.expression)
  }

  function Filled(marks: seq<Mark>, k: nat, value: string -> string): (fills: seq<string>)
    ensures |fills| == |marks|
  {
    if marks == [] then [] else [FilledAt(marks[0], k, value)] + Filled(marks[1..], Next(marks[0], k), value)
  }

  /** The fills of the claim once the fixed values are in as well. */
  function UnfixedAt(m: Mark, value: string -> string): string {
    if m.Dollar? then LiteralMarker() else value(m.expression)
  }

  function Unfixed(marks: seq<Mark>, value: string -> string): (fills: seq<string>)
    ensures |fills| == |marks|
  {
    if marks == [] then [] else [UnfixedAt(marks[0], value)] + Unfixed(marks[1..], value)
  }

  lemma SubstituteText(a: string, s: string, template: seq<string>, values: seq<string>)
    requires '$' !in a && |template| == |values|
    ensures Substitute(a + s, template, values)
         == (match Substitute(s, template, values) { case Err => Err case Ok(tail) => Ok(a + tail) })
  {
    if template == [] {
      DollarFree(a, s);
    } else {
      SubstituteFirst(a, s, template, values);
    }
  }

  lemma SubstituteFirst(a: string, s: string, template: seq<string>, values: seq<string>)
    requires '$' !in a && |template| == |values| > 0
    ensures Substitute(a + s, template, values)
         == (match Substitute(s, template, values) { case Err => Err case Ok(tail) => Ok(a + tail) })
  {
    hide Contains, Find, Substitute;
    var needle := "$" + template[0] + "$";
    FindBehind(needle, a, s);
    var i := Find(needle, s);
    if i >= 0 {
      Shifted(a, s, i, i + |needle|);
      DollarFree(a, s[..i]);
    }
    if i < 0 || Contains(s[..i], "$") {
      SubstituteFails(s, template, values);
      SubstituteFails(a + s, template, values);
    } else {
      SubstituteBoth(a, s, template, values, i, i + |needle|);
    }
  }

  lemma SubstituteBoth(a: string, s: string, template: seq<string>, values: seq<string>, i: nat, j: nat)
    requires |template| == |values| > 0
    requires var needle := "$" + template[0] + "$";
      Find(needle, s) == i && Find(needle, a + s) == |a| + i && j == i + |needle|
    requires !Contains(s[..i], "$") && !Contains((a + s)[..|a| + i], "$")
    ensures Substitute(a + s, template, values)
         == (match Substitute(s, template, values) { case Err => Err case Ok(tail) => Ok(a + tail) })
  {
    hide Contains, Find, Substitute;
    Shifted(a, s, i, j);
    var before, rest := s[..i], s[j..];
    SubstituteAt(s, template, values, before, rest);
    SubstituteAt(a + s, template, values, a + before, rest);
    var r := Substitute(rest, template[1..], values[1..]);
    if r.Ok? {
      Reassociate(a, before, values[0], r.value);
    }
  }

  lemma Shifted(a: string, s: string, i: nat, j: nat)
    requires i <= j <= |s|
    ensures (a + s)[..|a| + i] == a + s[..i] && (a + s)[|a| + j..] == s[j..]
  {
  }

  lemma Reassociate(a: string, b: string, c: string, d: string)
    ensures ((a + b) + c) + d == a + ((b + c) + d)
  {
  }

  lemma SubstituteAt(s: string, template: seq<string>, values: seq<string>, before: string, rest: string)
    requires |template| == |values| > 0
    requires var needle := "$" + template[0] + "$"; var i := Find(needle, s);
      i >= 0 && before == s[..i] && rest == s[i + |needle|..] && !Contains(before, "$")
    ensures Substitute(s, template, values)
         == (match Substitute(rest, template[1..], values[1..])
             case Err => Err
             case Ok(tail) => Ok(before + values[0] + tail))
  {
  }

  lemma SubstituteFails(s: string, template: seq<string>, values: seq<string>)
    requires |template| == |values| > 0
    requires var i := Find("$" + template[0] + "$", s); i < 0 || Contains(s[..i], "$")
    ensures Substitute(s, template, values) == Err
  {
  }

  lemma DollarFree(a: string, s: string)
    requires '$' !in a
    ensures Contains(a + s, "$") == Contains(s, "$")
  {
    FindBehind("$", a, s);
  }

  lemma FindBehind(v: string, a: string, s: string)
    requires v != "" && v[0] !in a
    ensures Find(v, a + s) == if Find(v, s) < 0 then -1 else |a| + Find(v, s)
  {
    Found(v, s);
    Found(v, a + s);
    forall p ensures OccursAt(v, a + s, p) ==> p >= |a| && OccursAt(v, s, p - |a|) {
      if 0 <= p < |a| {
        assert (a + s)[p] == a[p];
        Mismatch(v, a + s, p, 0);
      } else if p >= |a| {
        OccursShifted(v, a, s, p - |a|);
      }
    }
    if Find(v, s) >= 0 {
      OccursShifted(v, a, s, Find(v, s));
    }
  }

  lemma SubstituteSlot(e: string, s: string, template: seq<string>, values: seq<string>)
    requires |template| == |values| > 0 && template[0] == e
    ensures Substitute("$" + e + "$" + s, template, values)
         == (match Substitute(s, template[1..], values[1..]) { case Err => Err case Ok(tail) => Ok(values[0] + tail) })
  {
    var needle := "$" + e + "$";
    var whole := needle + s;
    assert whole[0..|needle|] == needle;
    assert OccursAt(needle, whole, 0);
    assert Find(needle, whole) == 0;
    assert whole[..0] == "" && Find("$", "") == -1;
    assert whole[|needle|..] == s;
    assert forall tail :: "" + values[0] + tail == values[0] + tail;
  }

  lemma FillHasNoDollar(m: Mark, k: nat)
    requires m.Dollar? || FixedMark(m)
    ensures '$' !in Text(SealedFill(m, k))
  {
    hide Core, FixedCore, Literal, FixedMark;
    EdgesOutside();
    FixedCoreShape();
    LiteralChars();
  }

  lemma LiteralChars()
    ensures '$' !in Literal()
  {
  }

  lemma TextsTail(marks: seq<Mark>, k: nat)
    requires marks != []
    ensures Texts(SealedFills(marks, k))[0] == Text(SealedFill(marks[0], k))
    ensures Texts(SealedFills(marks, k))[1..] == Texts(SealedFills(marks[1..], Next(marks[0], k)))
  {
    hide Text, SealedFill;
  }

  lemma {:induction false} Substituted(marks: seq<Mark>, k: nat, u: seq<string>, value: string -> string)
    requires |u| == |marks| + 1 && forall i :: 0 <= i < |u| ==> '$' !in u[i]
    ensures Substitute(Weave(u, Texts(SealedFills(marks, k))), Expressions(marks), MapValues(Expressions(marks), value))
         == Ok(Weave(u, Filled(marks, k, value)))
  {
    hide Substitute, FixedMark, FixedMarker, LiteralMarker, Texts, SealedFill, FilledAt, Expressions, Next, MapValues;
    var fs := Texts(SealedFills(marks, k));
    if marks == [] {
      SubstituteNothing(u[0]);
      NoMarks(value);
    } else {
      var m := marks[0];
      var rest := Weave(u[1..], Texts(SealedFills(marks[1..], Next(m, k))));
      Substituted(marks[1..], Next(m, k), u[1..], value);
      TextsTail(marks, k);
      var f := Text(SealedFill(m, k));
      assert Weave(u, fs) == u[0] + (f + rest);
      var ex := Expressions(marks);
      SubstituteText(u[0], f + rest, ex, MapValues(ex, value));
      var tail := Weave(u[1..], Filled(marks[1..], Next(m, k), value));
      SubstituteMark(marks, k, rest, value, tail);
      assert Filled(marks, k, value)[1..] == Filled(marks[1..], Next(m, k), value);
      assert u[0] + (FilledAt(m, k, value) + tail) == Weave(u, Filled(marks, k, value));
    }
  }

  lemma SubstituteMark(marks: seq<Mark>, k: nat, rest: string, value: string -> string, tail: string)
    requires marks != []
    requires Substitute(rest, Expressions(marks[1..]), MapValues(Expressions(marks[1..]), value)) == Ok(tail)
    ensures Substitute(Text(SealedFill(marks[0], k)) + rest, Expressions(marks), MapValues(Expressions(marks), value))
         == Ok(FilledAt(marks[0], k, value) + tail)
  {
    hide Substitute, FixedMarker, LiteralMarker, Identifier;
    var m := marks[0];
    var ex := Expressions(marks);
    if m.Slot? && !FixedMark(m) {
      SubstituteSlot(m.expression, rest, ex, MapValues(ex, value));
      assert ex[1..] == Expressions(marks[1..]);
      assert MapValues(ex, value)[1..] == MapValues(ex[1..], value);
    } else {
      FillHasNoDollar(m, k);
      SubstituteText(Text(SealedFill(m, k)), rest, ex, MapValues(ex, value));
    }
  }

  lemma NoMarks(value: string -> string)
    ensures Expressions([]) == [] && MapValues([], value) == []
  {
  }

  lemma SubstituteNothing(s: string)
    requires '$' !in s
    ensures Substitute(s, [], []) == Ok(s)
  {
    DollarFree(s, "");
    assert s + "" == s && Find("$", "") == -1;
  }
}
