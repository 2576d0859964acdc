/** Exactly which templates are sealed and which suffixes are expanded, and into what. */
module DashAcceptance {
  import opened Wrappers
  import opened DashStrings
  import opened DashMarkers
  import opened DashValues
  import opened DashTemplate
  import opened DashSealing
  import opened DashExpansion

  // ---------- the values of a suffix ----------

  /** The segments of a suffix: v0-a, v1-b, and so on. */
  function Numbered(values: seq<string>, i: nat): (segments: seq<string>)
    ensures |segments| == |values|
    decreases |values|
  {
    if values == [] then [] else ["v" + Itoa(i) + "-" + values[0]] + Numbered(values[1..], i + 1)
  }

  function NumberIn(template: seq<string>, values: seq<string>, k: nat): Option<nat> {
    if k < |template| && k < |values| then ParsedValue(template[k], values[k]) else None
  }

  predicate SameName(template: seq<string>, k: nat, id: string) {
    k < |template| && Identifier(template[k]) == Some(id)
  }

  /** Every value is one of its expression's; expressions of one name get the same number. */
  ghost predicate Agreeing(template: seq<string>, values: seq<string>) {
    && |values| == |template|
    && (forall k: nat :: k < |template| ==> NumberIn(template, values, k).Some?)
    && (forall j: nat, k: nat, id :: SameName(template, j, id) && SameName(template, k, id) ==>
          NumberIn(template, values, j) == NumberIn(template, values, k))
  }

  ghost predicate AgreeingWith(template: seq<string>, values: seq<string>, seen: map<string, nat>) {
    forall k: nat, id :: SameName(template, k, id) && id in seen ==> NumberIn(template, values, k) == Some(seen[id])
  }

  lemma NamedBy(e: string, v: string)
    requires ParsedValue(e, v).Some?
    ensures Identifier(e).Some?
  {
  }

  lemma AgreeingTail(template: seq<string>, values: seq<string>, seen: map<string, nat>, n: nat)
    requires template != [] && |values| == |template| && NumberIn(template, values, 0) == Some(n) && Identifier(template[0]).Some?
    requires Identifier(template[0]).value in seen ==> seen[Identifier(template[0]).value] == n
    ensures var id := Identifier(template[0]).value;
      Agreeing(template, values) && AgreeingWith(template, values, seen)
      <==> Agreeing(template[1..], values[1..]) && AgreeingWith(template[1..], values[1..], seen[id := n])
  {
    hide Identifier, ParsedValue;
    var id := Identifier(template[0]).value;
    var rest, others := template[1..], values[1..];
    assert forall k: nat :: k < |rest| ==> NumberIn(rest, others, k) == NumberIn(template, values, k + 1);
    assert forall k: nat, x :: SameName(rest, k, x) == (k < |rest| && SameName(template, k + 1, x));
    assert SameName(template, 0, id);
    if Agreeing(template, values) && AgreeingWith(template, values, seen) {
      forall j: nat, k: nat, x | SameName(rest, j, x) && SameName(rest, k, x) ensures NumberIn(rest, others, j) == NumberIn(rest, others, k) {
        assert SameName(template, j + 1, x) && SameName(template, k + 1, x);
      }
      forall k: nat, x | SameName(rest, k, x) && x in seen[id := n] ensures NumberIn(rest, others, k) == Some(seen[id := n][x]) {
        assert SameName(template, k + 1, x);
      }
    }
    if Agreeing(rest, others) && AgreeingWith(rest, others, seen[id := n]) {
      forall k: nat | k < |template| ensures NumberIn(template, values, k).Some? {
        assert k > 0 ==> NumberIn(rest, others, k - 1).Some?;
      }
      forall k: nat, x | SameName(template, k, x) && x in seen[id := n] ensures NumberIn(template, values, k) == Some(seen[id := n][x]) {
        if k > 0 {
          assert SameName(rest, k - 1, x);
        }
      }
      forall j: nat, k: nat, x | SameName(template, j, x) && SameName(template, k, x)
        ensures NumberIn(template, values, j) == NumberIn(template, values, k) {
        if j > 0 && k > 0 {
          assert SameName(rest, j - 1, x) && SameName(rest, k - 1, x);
        }
      }
    }
  }

  lemma PrefixedBy(segment: string, i: nat, v: string)
    ensures segment == "v" + Itoa(i) + "-" + v
      <==> ("v" + Itoa(i) + "-") <= segment && segment[|"v" + Itoa(i) + "-"|..] == v
  {
    hide Itoa;
  }

  lemma {:induction false} ValuesExactly(template: seq<string>, segments: seq<string>, i: nat, seen: map<string, nat>,
                                         done: seq<string>, values: seq<string>)
    requires |template| == |segments| == |values|
    ensures Values(template, segments, i, seen, done) == Ok(done + values)
      <==> segments == Numbered(values, i) && Agreeing(template, values) && AgreeingWith(template, values, seen)
    decreases |template|
  {
    hide Itoa, Identifier, ParsedValue, Agreeing, AgreeingWith;
    if template == [] {
      assert done + values == done;
      NothingToAgree(template, values, seen);
    } else {
      PrefixedBy(segments[0], i, values[0]);
      var n := ParsedValue(template[0], values[0]);
      assert segments == [segments[0]] + segments[1..];
      assert Numbered(values, i) == ["v" + Itoa(i) + "-" + values[0]] + Numbered(values[1..], i + 1);
      if segments[0] == "v" + Itoa(i) + "-" + values[0] && n.Some? {
        NamedBy(template[0], values[0]);
        var id := Identifier(template[0]).value;
        assert NumberIn(template, values, 0) == n;
        if id in seen && seen[id] != n.value {
          assert SameName(template, 0, id);
          assert !AgreeingWith(template, values, seen) by { DisagreesAt(template, values, seen, id); }
        } else {
          ValuesExactly(template[1..], segments[1..], i + 1, seen[id := n.value], done + [values[0]], values[1..]);
          AgreeingTail(template, values, seen, n.value);
          assert done + values == done + [values[0]] + values[1..];
        }
      } else {
        FirstValueFails(template, segments, i, seen, done, values);
      }
    }
  }

  lemma NothingToAgree(template: seq<string>, values: seq<string>, seen: map<string, nat>)
    requires template == [] && values == []
    ensures Agreeing(template, values) && AgreeingWith(template, values, seen)
  {
  }

  lemma DisagreesAt(template: seq<string>, values: seq<string>, seen: map<string, nat>, id: string)
    requires SameName(template, 0, id) && id in seen && NumberIn(template, values, 0) != Some(seen[id])
    ensures !AgreeingWith(template, values, seen)
  {
  }

  /** What comes out starts with what was put in, so a first value other than the segment's is none. */
  lemma FirstValueFails(template: seq<string>, segments: seq<string>, i: nat, seen: map<string, nat>, done: seq<string>,
                        values: seq<string>)
    requires |template| == |segments| == |values| > 0
    requires !(segments[0] == "v" + Itoa(i) + "-" + values[0] && ParsedValue(template[0], values[0]).Some?)
    ensures Values(template, segments, i, seen, done) != Ok(done + values)
    ensures !(segments == Numbered(values, i) && Agreeing(template, values))
  {
    hide Itoa, Identifier, ParsedValue;
    PrefixedBy(segments[0], i, values[0]);
    if Agreeing(template, values) {
      assert NumberIn(template, values, 0).Some?;
    }
    if Values(template, segments, i, seen, done).Ok? {
      var prefix := "v" + Itoa(i) + "-";
      var v := segments[0][|prefix|..];
      var id := Identifier(template[0]).value;
      var n := ParsedValue(template[0], v).value;
      ValuesGrow(template[1..], segments[1..], i + 1, seen[id := n], done + [v]);
      var out := Values(template, segments, i, seen, done).value;
      assert out[|done|] == (done + [v])[|done|] == v;
      assert v != values[0];
      assert (done + values)[|done|] == values[0];
    }
  }

  lemma {:induction false} ValuesGrow(template: seq<string>, segments: seq<string>, i: nat, seen: map<string, nat>, done: seq<string>)
    requires |template| == |segments| && Values(template, segments, i, seen, done).Ok?
    ensures var out := Values(template, segments, i, seen, done).value;
      |out| == |done| + |template| && done <= out
    decreases |template|
  {
    hide Itoa, Identifier, ParsedValue;
    if template != [] {
      var prefix := "v" + Itoa(i) + "-";
      var v := segments[0][|prefix|..];
      var id := Identifier(template[0]).value;
      ValuesGrow(template[1..], segments[1..], i + 1, seen[id := ParsedValue(template[0], v).value], done + [v]);
    }
  }

  // ---------- the suffix ----------

  lemma SlashOccurs(s: string, p: int)
    ensures OccursAt("/", s, p) <==> 0 <= p < |s| && s[p] == '/'
  {
    if 0 <= p < |s| {
      assert s[p..p + 1] == [s[p]];
    }
  }

  lemma AtSlash(s: string)
    ensures var i := Find("/", s);
      if i < 0 then '/' !in s else '/' !in s[..i] && s == s[..i] + "/" + s[i + 1..]
  {
    hide Find, OccursAt;
    Found("/", s);
    var i := Find("/", s);
    forall p: int ensures OccursAt("/", s, p) <==> 0 <= p < |s| && s[p] == '/' {
      SlashOccurs(s, p);
    }
    if i >= 0 {
      assert s[i] == '/';
    }
  }

  lemma {:induction false} SplitParts(s: string)
    ensures "/" + s == SuffixOf(Split(s, '/'))
    ensures forall k :: 0 <= k < |Split(s, '/')| ==> '/' !in Split(s, '/')[k]
    decreases |s|
  {
    hide Find, SuffixOf;
    AtSlash(s);
    var i := Find("/", s);
    assert ['/'] == "/";
    if i < 0 {
      assert Split(s, '/') == [s];
      OneSegment(s);
    } else {
      var rest := s[i + 1..];
      SplitParts(rest);
      FirstSegment(s[..i], Split(rest, '/'));
      assert "/" + s[..i] + ("/" + rest) == "/" + (s[..i] + "/" + rest);
    }
  }

  lemma OneSegment(s: string)
    ensures SuffixOf([s]) == "/" + s
  {
    assert [s][1..] == [];
    assert SuffixOf([s]) == "/" + s + "";
  }

  lemma FirstSegment(a: string, segments: seq<string>)
    ensures SuffixOf([a] + segments) == "/" + a + SuffixOf(segments)
  {
    assert ([a] + segments)[1..] == segments;
  }

  lemma SplitExactly(s: string, segments: seq<string>)
    ensures Split(s, '/') == segments
      <==> segments != [] && "/" + s == SuffixOf(segments) && forall k :: 0 <= k < |segments| ==> '/' !in segments[k]
  {
    SplitParts(s);
    if segments != [] && "/" + s == SuffixOf(segments) && forall k :: 0 <= k < |segments| ==> '/' !in segments[k] {
      SplitJoined(segments);
      assert SuffixOf(segments)[1..] == s;
    }
  }

  lemma {:induction false} NumberedNoSlash(values: seq<string>, i: nat)
    requires forall k :: 0 <= k < |values| ==> '/' !in values[k]
    ensures forall k :: 0 <= k < |values| ==> '/' !in Numbered(values, i)[k]
    decreases |values|
  {
    if values != [] {
      NumberedNoSlash(values[1..], i + 1);
      ItoaNoSlash(i);
    }
  }

  lemma ItoaNoSlash(i: nat)
    ensures '/' !in Itoa(i)
  {
    var s := Itoa(i);
    assert forall k :: 0 <= k < |s| ==> Digit(s[k]);
  }

  // ---------- the text ----------

  function Slots(template: seq<string>): (fills: seq<string>)
    ensures |fills| == |template|
  {
    if template == [] then [] else ["$" + template[0] + "$"] + Slots(template[1..])
  }

  ghost predicate NoDollars(texts: seq<string>) {
    forall k :: 0 <= k < |texts| ==> '$' !in texts[k]
  }

  /** The target is these texts with the expressions between them, and the result has the values there. */
  ghost predicate Replaced(target: string, template: seq<string>, values: seq<string>, text: string, texts: seq<string>)
    requires |values| == |template|
  {
    |texts| == |template| + 1 && NoDollars(texts) && target == Weave(texts, Slots(template)) && text == Weave(texts, values)
  }

  lemma ContainsDollar(s: string)
    ensures Contains(s, "$") <==> '$' in s
  {
    Found("$", s);
    forall p | 0 <= p < |s| && s[p] == '$' ensures OccursAt("$", s, p) {
      assert s[p..p + 1] == "$";
    }
    forall p | OccursAt("$", s, p) ensures s[p] == '$' {
      assert s[p..p + 1][0] == '$';
    }
  }

  lemma {:induction false} SubstituteMade(target: string, template: seq<string>, values: seq<string>, text: string, texts: seq<string>)
    requires |values| == |template| && Replaced(target, template, values, text, texts)
    ensures Substitute(target, template, values) == Ok(text)
    decreases |template|
  {
    hide Substitute;
    if template == [] {
      ContainsDollar(target);
      assert texts == [texts[0]];
      NothingToSubstitute(target);
    } else {
      var rest, out := Weave(texts[1..], Slots(template[1..])), Weave(texts[1..], values[1..]);
      var slot := "$" + template[0] + "$";
      assert target == texts[0] + slot + rest && text == texts[0] + values[0] + out;
      assert Replaced(rest, template[1..], values[1..], out, texts[1..]);
      SubstituteMade(rest, template[1..], values[1..], out, texts[1..]);
      SubstituteText(texts[0], slot + rest, template, values);
      SubstituteSlot(template[0], rest, template, values);
      assert texts[0] + slot + rest == texts[0] + (slot + rest);
      assert texts[0] + (values[0] + out) == texts[0] + values[0] + out;
    }
  }

  lemma NothingToSubstitute(target: string)
    requires !Contains(target, "$")
    ensures Substitute(target, [], []) == Ok(target)
  {
  }

  lemma {:induction false} SubstituteFound(target: string, template: seq<string>, values: seq<string>) returns (texts: seq<string>)
    requires |values| == |template| && Substitute(target, template, values).Ok?
    ensures Replaced(target, template, values, Substitute(target, template, values).value, texts)
    decreases |template|
  {
    hide Contains, Find;
    if template == [] {
      ContainsDollar(target);
      texts := [target];
    } else {
      var needle := "$" + template[0] + "$";
      var i := Find(needle, target);
      Found(needle, target);
      ContainsDollar(target[..i]);
      var rest := target[i + |needle|..];
      var more := SubstituteFound(rest, template[1..], values[1..]);
      texts := [target[..i]] + more;
      assert texts[1..] == more;
      assert Slots(template)[1..] == Slots(template[1..]);
      assert target == target[..i] + needle + rest;
    }
  }

  // ---------- the claim and its suffix ----------

  ghost predicate Rebuilt(claims: Claims, suffix: string, text: string, values: seq<string>, texts: seq<string>) {
    && 0 < |claims.template| <= 64 && |values| == |claims.template|
    && "/" + suffix == SuffixOf(Numbered(values, 0))
    && Agreeing(claims.template, values)
    && Replaced(claims.target, claims.template, values, text, texts)
  }

  lemma AgreeingQuiet(template: seq<string>, values: seq<string>)
    requires Agreeing(template, values)
    ensures forall k :: 0 <= k < |values| ==> '/' !in values[k]
  {
    hide ParsedValue, Identifier;
    forall k: nat | k < |values| ensures '/' !in values[k] {
      assert NumberIn(template, values, k).Some?;
      AssignedQuiet(template[k], values[k]);
    }
  }

  lemma NotEmptySuffix(suffix: string, values: seq<string>)
    requires values != [] && "/" + suffix == SuffixOf(Numbered(values, 0))
    ensures suffix != ""
  {
    hide Itoa;
    var segments := Numbered(values, 0);
    assert |segments[0]| > 0;
    assert |SuffixOf(segments)| > 1;
  }

  /**
   A claim is filled in exactly if its suffix is v0-a/v1-b/... with as many values as the
   claim has expressions, at most 64; every value is a number of its expression, the same for
   the same name; and its target is text without dollars around those expressions, in order.
   A claim without expressions takes the empty suffix only.
   */
  lemma ReconstructExactly(claims: Claims, suffix: string, text: string)
    ensures Reconstruct(claims, suffix) == Ok(text)
      <==> if claims.template == [] then suffix == "" && text == claims.target
           else exists values, texts :: Rebuilt(claims, suffix, text, values, texts)
  {
    hide Values, Substitute, Split, Agreeing, Replaced, Numbered, SuffixOf, Itoa;
    if claims.template != [] {
      if Reconstruct(claims, suffix) == Ok(text) {
        var segments := Split(suffix, '/');
        var values := Values(claims.template, segments, 0, map[], []).value;
        ValuesGrow(claims.template, segments, 0, map[], []);
        assert [] + values == values;
        ValuesExactly(claims.template, segments, 0, map[], [], values);
        SplitExactly(suffix, segments);
        var texts := SubstituteFound(claims.target, claims.template, values);
        assert Rebuilt(claims, suffix, text, values, texts);
      }
      forall values, texts | Rebuilt(claims, suffix, text, values, texts) ensures Reconstruct(claims, suffix) == Ok(text) {
        RebuiltGives(claims, suffix, text, values, texts);
      }
    }
  }

  lemma RebuiltGives(claims: Claims, suffix: string, text: string, values: seq<string>, texts: seq<string>)
    requires Rebuilt(claims, suffix, text, values, texts)
    ensures Reconstruct(claims, suffix) == Ok(text)
  {
    hide Values, Substitute, Split, Agreeing, Replaced, Numbered, SuffixOf, Itoa, AgreeingWith;
    var segments := Numbered(values, 0);
    NotEmptySuffix(suffix, values);
    AgreeingQuiet(claims.template, values);
    NumberedNoSlash(values, 0);
    SplitExactly(suffix, segments);
    assert [] + values == values;
    NothingSeen(claims.template, values);
    ValuesExactly(claims.template, segments, 0, map[], [], values);
    SubstituteMade(claims.target, claims.template, values, text, texts);
  }

  lemma NothingSeen(template: seq<string>, values: seq<string>)
    ensures AgreeingWith(template, values, map[])
  {
  }

  // ---------- fixed values and the result ----------

  /** The fixed values put in for their markers, one after the other. */
  function PutFixed(text: string, fixed: seq<string>, k: nat): string
    decreases |fixed|
  {
    if fixed == [] then text else PutFixed(ReplaceFirst(text, FixedMarker(k), fixed[0]), fixed[1..], k + 1)
  }

  predicate FixedOkAt(p: Parts, fixed: seq<string>, k: nat, i: nat)
    requires i < |fixed|
  {
    ValidRepresentationId(fixed[i]) && Marked(FixedMarker(k + i), p) == 1
  }

  ghost predicate FixedOk(p: Parts, fixed: seq<string>, k: nat) {
    forall i: nat :: i < |fixed| ==> FixedOkAt(p, fixed, k, i)
  }

  lemma {:induction false} RestoreFixedExactly(text: string, p: Parts, fixed: seq<string>, k: nat)
    ensures RestoreFixed(text, p, fixed, k) == if FixedOk(p, fixed, k) then Ok(PutFixed(text, fixed, k)) else Err
    decreases |fixed|
  {
    hide ValidRepresentationId, Marked, ReplaceFirst, FixedMarker;
    if fixed != [] {
      RestoreFixedExactly(ReplaceFirst(text, FixedMarker(k), fixed[0]), p, fixed[1..], k + 1);
      FixedOkTail(p, fixed, k);
    }
  }

  lemma FixedOkTail(p: Parts, fixed: seq<string>, k: nat)
    requires fixed != []
    ensures FixedOk(p, fixed, k)
      <==> ValidRepresentationId(fixed[0]) && Marked(FixedMarker(k), p) == 1 && FixedOk(p, fixed[1..], k + 1)
  {
    hide ValidRepresentationId, Marked, FixedMarker;
    var rest, n := fixed[1..], k + 1;
    assert k + 0 == k;
    if FixedOk(p, fixed, k) {
      assert FixedOkAt(p, fixed, k, 0);
      forall i: nat | i < |rest| ensures FixedOkAt(p, rest, n, i) {
        FixedShifted(p, fixed, k, i);
        assert FixedOkAt(p, fixed, k, i + 1);
      }
    }
    if FixedOkAt(p, fixed, k, 0) && FixedOk(p, rest, n) {
      forall i: nat | i < |fixed| ensures FixedOkAt(p, fixed, k, i) {
        if i > 0 {
          FixedShifted(p, fixed, k, i - 1);
          assert FixedOkAt(p, rest, n, i - 1);
        }
      }
    }
  }

  lemma FixedShifted(p: Parts, fixed: seq<string>, k: nat, i: nat)
    requires i + 1 < |fixed|
    ensures FixedOkAt(p, fixed[1..], k + 1, i) == FixedOkAt(p, fixed, k, i + 1)
  {
    assert k + 1 + i == k + (i + 1);
  }

  /** The text with its fixed values: at most 64, all valid, and each marker once in the URL. */
  ghost predicate FixedIn(text: string, fixed: seq<string>, net: Net, out: string) {
    if fixed == [] then out == text
    else
      |fixed| <= 64 && net.parts(text).Some? && FixedOk(net.parts(text).value, fixed, 0) && out == PutFixed(text, fixed, 0)
  }

  ghost predicate ExpandedTo(claims: Claims, net: Net, target: string, text: string, out: string) {
    && FixedIn(text, claims.fixed, net, out)
    && net.normalize(ReplaceAll(out, LiteralMarker(), "$")) == Some(target)
    && (claims.fixed == [] ==> target == ReplaceAll(out, LiteralMarker(), "$"))
  }

  /**
   A claim and a suffix give a target exactly if the claim can be filled in and takes its fixed
   values, and what is left with its dollars back is normalised to that target; without
   fixed values it has to be normal already.
   */
  lemma ExpandExactly(claims: Claims, suffix: string, net: Net, target: string)
    ensures Expand(claims, suffix, net) == Ok(target)
      <==> exists text, out :: Reconstruct(claims, suffix) == Ok(text) && ExpandedTo(claims, net, target, text, out)
  {
    hide Reconstruct, RestoreFixed, FixedOk, PutFixed, ReplaceAll, LiteralMarker;
    forall text ensures RestoreFixedClaims(text, claims.fixed, net).Ok?
        ==> FixedIn(text, claims.fixed, net, RestoreFixedClaims(text, claims.fixed, net).value) {
      FixedClaimsExactly(text, claims.fixed, net, text);
      if RestoreFixedClaims(text, claims.fixed, net).Ok? {
        FixedClaimsExactly(text, claims.fixed, net, RestoreFixedClaims(text, claims.fixed, net).value);
      }
    }
    forall text, out | FixedIn(text, claims.fixed, net, out) ensures RestoreFixedClaims(text, claims.fixed, net) == Ok(out) {
      FixedClaimsExactly(text, claims.fixed, net, out);
    }
    if Expand(claims, suffix, net) == Ok(target) {
      var text := Reconstruct(claims, suffix).value;
      var out := RestoreFixedClaims(text, claims.fixed, net).value;
      assert ExpandedTo(claims, net, target, text, out);
    }
  }

  lemma FixedClaimsExactly(text: string, fixed: seq<string>, net: Net, out: string)
    ensures RestoreFixedClaims(text, fixed, net) == Ok(out) <==> FixedIn(text, fixed, net, out)
  {
    hide RestoreFixed, FixedOk, PutFixed;
    if fixed != [] && net.parts(text).Some? {
      RestoreFixedExactly(text, net.parts(text).value, fixed, 0);
    }
  }
}
