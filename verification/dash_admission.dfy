/** Exactly which templates can be sealed. */
module DashAdmission {
  import opened Wrappers
  import opened DashStrings
  import opened DashMarkers
  import opened DashValues
  import opened DashTemplate
  import opened DashSealing
  import opened DashExpansion
  import TextSpans

  // ---------- reading a template ----------

  /** The template written out: texts without dollars, "$$" and supported expressions between dollars. */
  ghost predicate WrittenAs(s: string, t: Template) {
    && Shaped(t) && MarksOk(t.marks)
    && (forall i :: 0 <= i < |t.texts| ==> '$' !in t.texts[i])
    && Weave(t.texts, SpelledAll(t.marks)) == s
  }

  lemma {:induction false} ParseWritten(s: string, t: Template)
    requires WrittenAs(s, t)
    ensures ParseTemplate(s) == Ok(t)
    decreases |s|
  {
    hide Identifier, ParseTemplate, Weave;
    var first := t.texts[0];
    if first != "" {
      var less := Template([first[1..]] + t.texts[1..], t.marks);
      assert ([first[1..]] + t.texts[1..])[1..] == t.texts[1..];
      WeaveHead([first[0]], less.texts, SpelledAll(t.marks));
      assert [first[0]] + first[1..] == first;
      assert [[first[0]] + less.texts[0]] + less.texts[1..] == t.texts;
      ParseWritten(Weave(less.texts, SpelledAll(t.marks)), less);
      assert '$' !in first;
      assert first[0] in first;
      ParseChar(s, less);
    } else if t.marks == [] {
      assert t.texts == [""];
      ParseNothing(s, t);
    } else {
      var m, less := t.marks[0], Template(t.texts[1..], t.marks[1..]);
      assert t.texts == [""] + t.texts[1..];
      WeaveMark(Spelled(m), less.texts, SpelledAll(less.marks));
      assert SpelledAll(t.marks) == [Spelled(m)] + SpelledAll(less.marks);
      var rest := Weave(less.texts, SpelledAll(less.marks));
      assert m in t.marks;
      ParseWritten(rest, less);
      ParseMark(m, rest, less);
      assert t == WithMark(m, less);
    }
  }

  lemma ParseNothing(s: string, t: Template)
    requires t == Template([""], []) && Weave(t.texts, SpelledAll(t.marks)) == s
    ensures ParseTemplate(s) == Ok(t)
  {
  }

  lemma ParseChar(s: string, less: Template)
    requires s != "" && s[0] != '$' && |less.texts| > 0 && ParseTemplate(s[1..]) == Ok(less)
    ensures ParseTemplate(s) == Ok(WithText(s[0], less))
  {
  }

  lemma ParseMark(m: Mark, rest: string, less: Template)
    requires ParseTemplate(rest) == Ok(less) && (m.Slot? ==> Identifier(m.expression).Some?)
    ensures ParseTemplate(Spelled(m) + rest) == Ok(WithMark(m, less))
  {
    hide Identifier, ParseTemplate;
    if m.Slot? {
      IdentifierQuiet(m.expression);
      ParseSlot(m.expression, rest, less);
    } else {
      ParseDollar(rest, less);
    }
  }

  lemma ParseDollar(rest: string, less: Template)
    requires ParseTemplate(rest) == Ok(less)
    ensures ParseTemplate("$$" + rest) == Ok(WithMark(Dollar, less))
  {
    assert ("$$" + rest)[2..] == rest;
  }

  lemma ParseSlot(e: string, rest: string, less: Template)
    requires ParseTemplate(rest) == Ok(less) && Identifier(e).Some? && e != "" && '$' !in e
    ensures ParseTemplate("$" + e + "$" + rest) == Ok(WithMark(Slot(e), less))
  {
    hide Identifier, Find;
    var s := "$" + e + "$" + rest;
    SlotAt(e, rest);
    assert s[0] == '$' && s[1] == e[0];
  }

  lemma SlotAt(e: string, rest: string)
    requires e != "" && '$' !in e
    ensures var r := ("$" + e + "$" + rest)[1..];
      Find("$", r) == |e| && r[..|e|] == e && r[|e| + 1..] == rest
  {
    var r := ("$" + e + "$" + rest)[1..];
    assert r == e + ("$" + rest);
    FindBehind("$", e, "$" + rest);
  }

  /** A template is read into texts and marks exactly if it is written out from them. */
  lemma ParseExactly(s: string, t: Template)
    ensures ParseTemplate(s) == Ok(t) <==> WrittenAs(s, t)
  {
    hide ParseTemplate;
    if ParseTemplate(s) == Ok(t) {
      TemplateRead(s, e => e);
    }
    if WrittenAs(s, t) {
      ParseWritten(s, t);
    }
  }

  // ---------- the text of a template ----------

  ghost predicate Within(s: string, v: string, p: nat) {
    p + |v| <= |s| && TextSpans.Spelled(s[p..p + |v|], v)
  }

  /** White space and control characters, as Unicode has them. */
  predicate Unsafe(c: char) {
    c <= ' ' || (0x7f as char <= c <= 0xa0 as char)
    || c in {0x1680 as char, 0x2028 as char, 0x2029 as char, 0x202f as char, 0x205f as char, 0x3000 as char}
    || 0x2000 as char <= c <= 0x200a as char
  }

  /** At most 4096 characters, none unsafe, without the head of a marker or, in any case, the fixed one's. */
  ghost predicate Clean(s: string) {
    && 1 <= |s| <= 4096
    && (forall i :: 0 <= i < |s| ==> !Unsafe(s[i]))
    && Free("__MERIDIAN_DASH_TEMPLATE_", s)
    && (forall p: nat :: !Within(s, "meridian-dash-fixed-", p))
  }

  lemma LowerAt(s: string, p: nat, v: string)
    requires p + |v| <= |s| && forall i :: 0 <= i < |v| ==> !('A' <= v[i] <= 'Z')
    ensures OccursAt(v, Lower(s), p) <==> Within(s, v, p)
  {
    var part := s[p..p + |v|];
    if OccursAt(v, Lower(s), p) {
      forall i | 0 <= i < |v| ensures TextSpans.SameLetter(part[i], v[i]) {
        assert Lower(s)[p..p + |v|][i] == LowerChar(part[i]);
      }
    }
    if Within(s, v, p) {
      forall i | 0 <= i < |v| ensures Lower(s)[p + i] == v[i] {
        assert TextSpans.SameLetter(part[i], v[i]);
      }
      assert Lower(s)[p..p + |v|] == v;
    }
  }

  lemma FixedCoreIs()
    ensures FixedCore() == "meridian-dash-fixed-" && |FixedCore()| == 20
    ensures forall i :: 0 <= i < |FixedCore()| ==> !('A' <= FixedCore()[i] <= 'Z')
    ensures TemplatePrefix() == "__MERIDIAN_DASH_TEMPLATE_" && |TemplatePrefix()| == 25
  {
  }

  lemma CleanExactly(s: string)
    ensures Acceptable(s) <==> Clean(s)
  {
    hide Lower, FixedCore, TemplatePrefix;
    FixedCoreIs();
    Found(TemplatePrefix(), s);
    CoreWithin(s);
    assert forall c: char :: UnsafeChar(c) <==> Unsafe(c);
  }

  lemma LowerLength(s: string)
    ensures |Lower(s)| == |s|
  {
  }

  lemma CoreWithin(s: string)
    ensures Contains(Lower(s), FixedCore()) <==> exists p: nat :: Within(s, FixedCore(), p)
  {
    hide Lower, FixedCore;
    FixedCoreIs();
    LowerLength(s);
    Found(FixedCore(), Lower(s));
    if Contains(Lower(s), FixedCore()) {
      LowerAt(s, Find(FixedCore(), Lower(s)), FixedCore());
    }
    forall p: nat | Within(s, FixedCore(), p) ensures OccursAt(FixedCore(), Lower(s), p) {
      LowerAt(s, p, FixedCore());
    }
  }

  /** What can be sealed, and the sentinels it is turned into, one for each mark in order. */
  lemma SanitizedExactly(s: string, out: Sanitized)
    ensures Sanitize(s) == Ok(out) <==> Clean(s) && exists t :: WrittenAs(s, t) && Shaped(t) && out == SanitizedTemplate(t)
  {
    hide Acceptable, Clean, ParseTemplate, SanitizedTemplate, WrittenAs;
    CleanExactly(s);
    if ParseTemplate(s).Ok? {
      ParseExactly(s, ParseTemplate(s).value);
    }
    forall t | WrittenAs(s, t) ensures ParseTemplate(s) == Ok(t) {
      ParseExactly(s, t);
    }
  }

  // ---------- its markers ----------

  /** The sentinel stands once in the reference, and in the host only if a fixed value takes its place. */
  ghost predicate Placeable(m: Marker, p: Parts, b: Bindings) {
    && m.sentinel != "" && Marked(m.sentinel, p) == 1
    && (m.literal || FixedValue(m.expression, b).Ok?)
    && (m.literal || FixedValue(m.expression, b).value.None? ==> Count(m.sentinel, p.host) == 0)
  }

  lemma {:induction false} PreparedExactly(markers: seq<Marker>, p: Parts, b: Bindings, state: Prepared)
    ensures Prepare(markers, p, b, state).Ok? <==> forall i :: 0 <= i < |markers| ==> Placeable(markers[i], p, b)
    decreases |markers|
  {
    hide Marked, FixedValue, Count, ReplaceFirst, FixedMarker;
    if markers != [] {
      var m := markers[0];
      PreparedRest(markers, p, b);
      if Placeable(m, p, b) {
        var k := |state.fixedValues|;
        if m.literal || FixedValue(m.expression, b).value.None? {
          PreparedExactly(markers[1..], p, b, state.(markers := state.markers + [m]));
        } else {
          PreparedExactly(markers[1..], p, b,
            Prepared(ReplaceFirst(state.claimText, m.sentinel, FixedMarker(k)), state.markers + [FixAt(m, k)],
                     state.fixedValues + [FixedValue(m.expression, b).value.value]));
        }
      }
    }
  }

  lemma PreparedRest(markers: seq<Marker>, p: Parts, b: Bindings)
    requires markers != []
    ensures (forall i :: 0 <= i < |markers| ==> Placeable(markers[i], p, b))
      <==> Placeable(markers[0], p, b) && forall i :: 0 <= i < |markers[1..]| ==> Placeable(markers[1..][i], p, b)
  {
    hide Placeable;
    if Placeable(markers[0], p, b) && forall i :: 0 <= i < |markers[1..]| ==> Placeable(markers[1..][i], p, b) {
      forall i | 0 <= i < |markers| ensures Placeable(markers[i], p, b) {
        assert i > 0 ==> Placeable(markers[1..][i - 1], p, b);
      }
    }
    if forall i :: 0 <= i < |markers| ==> Placeable(markers[i], p, b) {
      forall i | 0 <= i < |markers[1..]| ensures Placeable(markers[1..][i], p, b) {
        assert Placeable(markers[i + 1], p, b);
      }
    }
  }

  /** The reference is one in which every mark can be placed; prepared is what that gives. */
  ghost predicate Placed(s: string, b: Bindings, net: Net, t: Template, prepared: Prepared) {
    && Clean(s) && WrittenAs(s, t) && Shaped(t)
    && var text := SanitizedText(t);
    && net.reference(text).Some?
    && (forall i :: 0 <= i < |t.marks| ==> Placeable(MarkersOf(t.marks, 0)[i], net.reference(text).value, b))
    && Prepare(MarkersOf(t.marks, 0), net.reference(text).value, b, Prepared(text, [], [])) == Ok(prepared)
  }

  ghost predicate SealedInto(prepared: Prepared, net: Net, r: Restored) {
    && net.resolve(prepared.claimText).Some?
    && Restore(prepared.markers, Restored(net.resolve(prepared.claimText).value, [])) == Ok(r)
    && 1 <= |r.target| <= 4096
  }

  /**
   A template is sealed exactly if its text is clean and written out from supported
   expressions, each of its marks can be placed in the reference, the reference resolves, the
   second pass succeeds, and the claim has at most 4096 characters.
   */
  lemma SealedWhen(s: string, b: Bindings, net: Net)
    ensures Seal(s, b, net).Ok? <==> exists t, prepared, r :: Placed(s, b, net, t, prepared) && SealedInto(prepared, net, r)
  {
    hide Clean, WrittenAs, Prepare, Restore, MarkersOf, SanitizedText, Placeable;
    if Sanitize(s).Ok? {
      SanitizedExactly(s, Sanitize(s).value);
    }
    if Seal(s, b, net).Ok? {
      var t :| WrittenAs(s, t) && Shaped(t) && Sanitize(s).value == SanitizedTemplate(t);
      var p := net.reference(SanitizedText(t)).value;
      PreparedExactly(MarkersOf(t.marks, 0), p, b, Prepared(SanitizedText(t), [], []));
      var prepared := Prepare(MarkersOf(t.marks, 0), p, b, Prepared(SanitizedText(t), [], [])).value;
      var r := Restore(prepared.markers, Restored(net.resolve(prepared.claimText).value, [])).value;
      assert Placed(s, b, net, t, prepared) && SealedInto(prepared, net, r);
    }
    forall t, prepared, r | Placed(s, b, net, t, prepared) && SealedInto(prepared, net, r) ensures Seal(s, b, net).Ok? {
      SanitizedExactly(s, SanitizedTemplate(t));
    }
  }
}
