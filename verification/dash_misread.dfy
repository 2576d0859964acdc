/** Sealing and expanding in a concrete run: an accepted template whose claim expands to the wrong URL. */
module DashMisread {
  import opened Wrappers
  import opened DashStrings
  import opened DashMarkers
  import opened DashOverlap
  import opened DashValues
  import opened DashTemplate
  import opened DashSealing
  import opened DashExpansion
  import opened DashRoundTrip

  /** URLs that are taken as they are: all path, nothing to resolve or to normalise. */
  function Verbatim(): Net {
    Net(s => Some(Parts("", s, "")), s => Some(s), s => Some(Parts("", s, "")), s => Some(s))
  }

  lemma CountEmpty(v: string)
    requires v != ""
    ensures Count(v, "") == 0
  {
  }

  lemma VerbatimFollows(t: Template)
    requires Shaped(t) && forall i :: 0 <= i < |t.texts| ==> '$' !in t.texts[i]
    ensures Follows(Verbatim(), t, t.texts)
  {
    hide Weave, AllPlain, AllWords, Settled, Count, FixedMarker, Sentinel;
    forall f: seq<string> | |f| == |t.marks| ensures FollowsAt(Verbatim(), t, t.texts, f) {
      var s := Weave(t.texts, f);
      forall k: nat
        ensures Marked(FixedMarker(k), Parts("", s, "")) == Count(FixedMarker(k), s)
        ensures Sentinel(k) != "" && Marked(Sentinel(k), Parts("", s, "")) == Count(Sentinel(k), s)
      {
        SentinelNonempty(k);
        CountEmpty(FixedMarker(k));
        CountEmpty(Sentinel(k));
      }
    }
  }

  // ---------- reading a template ----------

  lemma ParseChar(c: char, s: string, t: Template)
    requires c != '$' && ParseTemplate(s) == Ok(t) && |t.texts| > 0
    ensures ParseTemplate([c] + s) == Ok(WithText(c, t))
  {
    assert ([c] + s)[1..] == s;
  }

  function Before(a: string, t: Template): Template
    requires |t.texts| > 0
  {
    Template([a + t.texts[0]] + t.texts[1..], t.marks)
  }

  lemma {:induction false} ParseText(a: string, s: string, t: Template)
    requires '$' !in a && ParseTemplate(s) == Ok(t) && |t.texts| > 0
    ensures ParseTemplate(a + s) == Ok(Before(a, t))
  {
    hide ParseTemplate;
    if a == "" {
      assert a + s == s && a + t.texts[0] == t.texts[0];
      assert [t.texts[0]] + t.texts[1..] == t.texts;
    } else {
      ParseText(a[1..], s, t);
      ParseChar(a[0], a[1..] + s, Before(a[1..], t));
      assert [a[0]] + (a[1..] + s) == a + s;
      assert [a[0]] + (a[1..] + t.texts[0]) == a + t.texts[0];
    }
  }

  lemma ParseEmpty()
    ensures ParseTemplate("") == Ok(Template([""], []))
  {
  }

  lemma ParseDollar(s: string, t: Template)
    requires ParseTemplate(s) == Ok(t)
    ensures ParseTemplate("$$" + s) == Ok(WithMark(Dollar, t))
  {
    assert ("$$" + s)[2..] == s;
  }

  lemma ParseUnfolds(s: string, e: string, rest: string, t: Template)
    requires |s| > 1 && s[0] == '$' && s[1] != '$' && Identifier(e).Some? && ParseTemplate(rest) == Ok(t)
    requires var end := Find("$", s[1..]); end >= 0 && s[1..][..end] == e && s[1..][end + 1..] == rest
    ensures ParseTemplate(s) == Ok(WithMark(Slot(e), t))
  {
    hide Identifier, Find;
  }

  lemma ParseSlot(e: string, s: string, t: Template)
    requires Identifier(e).Some? && ParseTemplate(s) == Ok(t)
    ensures ParseTemplate("$" + e + "$" + s) == Ok(WithMark(Slot(e), t))
  {
    hide Identifier, ParseTemplate;
    IdentifierQuiet(e);
    var whole := "$" + e + "$" + s;
    assert whole[1..] == e + ("$" + s) && whole[1] == e[0];
    FindBehind("$", e, "$" + s);
    assert Find("$", "$" + s) == 0;
    assert whole[1..][..|e|] == e && whole[1..][|e| + 1..] == s;
    ParseUnfolds(whole, e, s, t);
  }

  lemma KnownTime()
    ensures Identifier("Time") == Some("Time") && !IsFixed("Time")
    ensures ParseExpression("Time") == Some(Expression("Time", 0, 'd'))
  {
    hide Find;
    NoPercent("Time");
  }

  lemma KnownId()
    ensures Identifier("RepresentationID") == Some("RepresentationID") && IsFixed("RepresentationID")
    ensures ParseExpression("RepresentationID") == Some(Expression("RepresentationID", 0, 'd'))
  {
    hide Find;
    NoPercent("RepresentationID");
  }

  lemma NoPercent(e: string)
    requires '%' !in e
    ensures Find("%", e) == -1
  {
    Found("%", e);
    forall p ensures !OccursAt("%", e, p) {
      if 0 <= p < |e| {
        assert e[p] in e;
        Mismatch("%", e, p, 0);
      }
    }
  }

  // ---------- the template that is misread ----------

  function Hidden(): string { Core() + "1" }

  function Deceptive(): string { "$$" + Hidden() + "$Time$" }

  function Seven(e: string): string { "7" }

  lemma ParseTime()
    ensures ParseTemplate("$Time$") == Ok(Template(["", ""], [Slot("Time")]))
  {
    hide ParseTemplate, Identifier;
    KnownTime();
    ParseEmpty();
    ParseSlot("Time", "", Template([""], []));
    assert "$" + "Time" + "$" + "" == "$Time$";
    assert [""] + [""] == ["", ""] && [Slot("Time")] + [] == [Slot("Time")];
  }

  lemma DeceptiveParsed()
    ensures ParseTemplate(Deceptive()) == Ok(Template(["", Hidden(), ""], [Dollar, Slot("Time")]))
  {
    hide Core, ParseTemplate, Identifier;
    ParseTime();
    EdgesOutside();
    var t := Template(["", ""], [Slot("Time")]);
    ParseText(Hidden(), "$Time$", t);
    assert Hidden() + "" == Hidden();
    assert Before(Hidden(), t) == Template([Hidden(), ""], [Slot("Time")]);
    ParseDollar(Hidden() + "$Time$", Before(Hidden(), t));
    assert "$$" + (Hidden() + "$Time$") == Deceptive();
    assert [""] + [Hidden(), ""] == ["", Hidden(), ""] && [Dollar] + [Slot("Time")] == [Dollar, Slot("Time")];
  }

  lemma DeceptiveSpelled()
    ensures Deceptive() == "$$MERIDIAN_DASH_TEMPLATE_1$Time$"
  {
  }

  lemma CoreNoHyphen()
    ensures '-' !in Core()
  {
  }

  lemma WordSafe(c: char)
    ensures WordChar(c) || c == '$' ==> !UnsafeChar(c)
  {
  }

  lemma DeceptiveChars()
    ensures Inconspicuous(Deceptive())
  {
    hide Core;
    CoreShape();
    CoreWords();
    CoreNoHyphen();
    hide UnsafeChar;
    var s := Deceptive();
    assert |s| == 32 && s[2..25] == Core() && s[25] == '1' && s[26..] == "$Time$" && s[..2] == "$$";
    assert forall i :: 2 <= i < 25 ==> s[i] == Core()[i - 2];
    forall i | 0 <= i < |s| ensures s[i] != '-' && !UnsafeChar(s[i]) && (s[i] == '_' ==> 2 <= i < 25) {
      WordSafe(s[i]);
      if 2 <= i < 25 {
        assert s[i] in Core();
      } else if i >= 26 {
        assert s[i] == "$Time$"[i - 26];
      }
    }
    forall i | 0 <= i < |s| - 1 && s[i] == '_' ensures s[i + 1] != '_' {
      if i < 24 {
        assert s[i + 1] == Core()[i - 1];
      }
    }
  }

  /** No double underscore, no hyphen, nothing unsafe: such a text is accepted. */
  ghost predicate Inconspicuous(s: string) {
    && 0 < |s| <= MAX_TARGET && (forall i :: 0 <= i < |s| ==> s[i] != '-' && !UnsafeChar(s[i]))
    && (forall i :: 0 <= i < |s| - 1 && s[i] == '_' ==> s[i + 1] != '_')
  }

  lemma QuietAccepted(value: string)
    requires Inconspicuous(value)
    ensures Acceptable(value)
  {
    hide FixedCore, UnsafeChar, TemplatePrefix;
    PrefixStarts();
    HyphenThere();
    Found(TemplatePrefix(), value);
    forall p ensures !OccursAt(TemplatePrefix(), value, p) {
      if 0 <= p && p + |TemplatePrefix()| <= |value| {
        if value[p] != '_' {
          Mismatch(TemplatePrefix(), value, p, 0);
        } else {
          Mismatch(TemplatePrefix(), value, p, 1);
        }
      }
    }
    Found(FixedCore(), Lower(value));
    forall p ensures !OccursAt(FixedCore(), Lower(value), p) {
      if 0 <= p && p + |FixedCore()| <= |value| {
        assert Lower(value)[p + 8] == LowerChar(value[p + 8]) != '-';
        Mismatch(FixedCore(), Lower(value), p, 8);
      }
    }
  }

  lemma PrefixStarts()
    ensures |TemplatePrefix()| == 25 && TemplatePrefix()[0] == '_' && TemplatePrefix()[1] == '_'
  {
  }

  lemma HyphenThere()
    ensures |FixedCore()| == 20 && FixedCore()[8] == '-'
  {
  }

  // ---------- three stems in a row ----------

  function Row(a: string, b: string, c: string): string { Stem(a) + Stem(b) + Stem(c) + "__" }

  lemma TwoHeads(t: string, p: nat)
    requires t != "" && t[|t| - 1] != '_' && (forall i :: 0 < i < |t| - 1 && t[i] == '_' ==> t[i + 1] != '_')
    requires p < |t| - 1 && t[p] == '_' && t[p + 1] == '_'
    ensures p == 0
  {
  }

  /** Tags only occur where one of the stems begins. */
  lemma RowStarts(a: string, b: string, c: string, x: string, p: int)
    requires Body(a) && Body(b) && Body(c) && Body(x) && OccursAt(Tag(x), Row(a, b, c), p)
    ensures p == 0 || p == |Stem(a)| || p == |Stem(a)| + |Stem(b)|
    ensures p == 0 ==> a[0] == x[0]
    ensures p == |Stem(a)| ==> b[0] == x[0]
  {
    hide Stem, Tag, Body, Core;
    StemSpelled(a);
    StemSpelled(b);
    StemSpelled(c);
    StemSpelled(x);
    StemPairs(a);
    StemPairs(b);
    StemPairs(c);
    var s, v := Row(a, b, c), Tag(x);
    var w := s[p..p + |v|];
    assert forall k :: 0 <= k < |v| ==> w[k] == s[p + k];
    assert w[0] == '_' && w[1] == '_' && w[25] == x[0];
    assert s[p] == '_' && s[p + 1] == '_' && s[p + 25] == x[0];
    var m, n := |Stem(a)|, |Stem(a)| + |Stem(b)|;
    assert forall k :: 0 <= k < m ==> s[k] == Stem(a)[k];
    assert forall k :: m <= k < n ==> s[k] == Stem(b)[k - m];
    assert forall k :: n <= k < n + |Stem(c)| ==> s[k] == Stem(c)[k - n];
    if p < m {
      TwoHeads(Stem(a), p);
    } else if p < n {
      TwoHeads(Stem(b), p - m);
    } else {
      TwoHeads(Stem(c), p - n);
    }
  }

  lemma RowOnce(a: string, b: string)
    requires Body(a) && Body(b) && a[0] != b[0] && |b| == 1
    ensures NoPair(Tag(a), Row(a, b, b)) && NoPair(Tag(b), Row(a, b, b))
    ensures Tag(a) != "" && Count(Tag(a), Row(a, b, b)) == 1
    ensures Tag(b) != "" && Count(Tag(b), Row(a, b, b)) == 1
  {
    hide Stem, Tag, Body, Core, Row, OccursAt;
    StemSpelled(a);
    StemSpelled(b);
    var s := Row(a, b, b);
    forall p ensures OccursAt(Tag(a), s, p) ==> p == 0 || p == |Stem(a)| + |Stem(b)| {
      if OccursAt(Tag(a), s, p) {
        RowStarts(a, b, b, a, p);
      }
    }
    forall p ensures OccursAt(Tag(b), s, p) ==> p == |Stem(a)| || p == |Stem(a)| + |Stem(b)| {
      if OccursAt(Tag(b), s, p) {
        RowStarts(a, b, b, b, p);
      }
    }
    LastStem(a, b);
    RowSplits(a, b);
    OverlapCounted(Tag(a), s, 0);
    OverlapCounted(Tag(b), s, |Stem(a)|);
  }

  /** The last stem is followed by underscores, but belongs to b. */
  lemma LastStem(a: string, b: string)
    requires Body(a) && Body(b) && a[0] != b[0]
    ensures !OccursAt(Tag(a), Row(a, b, b), |Stem(a)| + |Stem(b)|)
  {
    hide Stem, Tag, Body, Core;
    StemSpelled(a);
    StemSpelled(b);
    var n := |Stem(a)| + |Stem(b)|;
    assert Row(a, b, b)[n + 25] == Stem(b)[25] == b[0];
    Mismatch(Tag(a), Row(a, b, b), n, 25);
  }

  /** A row of stems is made of tags with pieces between them that read like a tag. */
  lemma RowSplits(a: string, b: string)
    requires Body(a) && Body(b)
    ensures Row(a, b, b) == "" + Tag(a) + (Core() + b + Tag(b))
    ensures Row(a, b, b) == (Tag(a) + (Core() + b)) + Tag(b) + ""
    ensures Tag(a) + (Core() + b) == Stem(a) + Stem(b)
    ensures OccursAt(Tag(a), Row(a, b, b), 0) && OccursAt(Tag(b), Row(a, b, b), |Stem(a)|)
  {
    hide Stem, Tag, Body, Core, OccursAt;
    StemInside(a);
    StemInside(b);
    StemSpelled(a);
    var k := Core() + b;
    Ungrouped(Stem(a), k);
    OccursHere(Tag(a), "", k + Tag(b));
    OccursHere(Tag(b), Stem(a), k + "__");
  }

  lemma Ungrouped(t: string, k: string)
    ensures var s := t + ("__" + k) + ("__" + k) + "__";
      && s == "" + (t + "__") + (k + ("__" + k + "__")) && s == ((t + "__") + k) + ("__" + k + "__") + ""
      && s == t + ("__" + k + "__") + (k + "__") && (t + "__") + k == t + ("__" + k)
  {
  }

  // ---------- the run ----------

  lemma DeceptiveText()
    ensures SanitizedText(Template(["", Hidden(), ""], [Dollar, Slot("Time")])) == Row("0", "1", "1")
    ensures Sentinel(0) == Tag("0") && Sentinel(1) == Tag("1") && Body("0") && Body("1")
  {
    hide Tag, Stem, Core;
    IndexBody(0);
    IndexBody(1);
    assert Itoa(0) == "0" && Itoa(1) == "1";
    RowSplits("0", "1");
    WeaveTwo("", Hidden(), "", Sentinel(0), Sentinel(1));
    assert Sentinels(0, 2) == [Sentinel(0), Sentinel(1)];
    assert "" + Tag("0") + (Hidden() + Tag("1") + "") == "" + Tag("0") + (Core() + "1" + Tag("1"));
  }

  lemma WeaveTwo(a: string, b: string, c: string, f: string, g: string)
    ensures Weave([a, b, c], [f, g]) == a + f + (b + g + c)
  {
    assert [a, b, c][1..] == [b, c] && [b, c][1..] == [c];
    assert [f, g][1..] == [g] && [g][1..] == [];
    assert Weave([c], []) == c;
    assert Weave([b, c], [g]) == b + g + Weave([c], []);
  }

  function Wrong(): string { Stem(Literal()) + "$Time$" + (Hidden() + "__") }

  lemma RestoreOther(markers: seq<Marker>, state: Restored, word: string)
    requires markers != [] && !markers[0].fixed && markers[0].sentinel != "" && Count(markers[0].sentinel, state.target) == 1
    requires word == if markers[0].literal then LiteralMarker() else "$" + markers[0].expression + "$"
    ensures Restore(markers, state)
         == Restore(markers[1..], Restored(ReplaceFirst(state.target, markers[0].sentinel, word),
                                           if markers[0].literal then state.expressions else state.expressions + [markers[0].expression]))
  {
    hide Count, ReplaceFirst, LiteralMarker;
  }

  lemma RestoreNone(state: Restored)
    ensures Restore([], state) == Ok(state)
  {
  }

  lemma PrepareOther(markers: seq<Marker>, p: Parts, b: Bindings, state: Prepared)
    requires markers != [] && markers[0].sentinel != "" && Marked(markers[0].sentinel, p) == 1 && Count(markers[0].sentinel, p.host) == 0
    requires !markers[0].literal ==> FixedValue(markers[0].expression, b) == Ok(None)
    ensures Prepare(markers, p, b, state) == Prepare(markers[1..], p, b, state.(markers := state.markers + [markers[0]]))
  {
    hide Count, Marked, FixedValue;
  }

  lemma PrepareNone(p: Parts, b: Bindings, state: Prepared)
    ensures Prepare([], p, b, state) == Ok(state)
  {
  }

  function TwoMarkers(): seq<Marker> { [MarkerOf(Dollar, 0), MarkerOf(Slot("Time"), 1)] }

  /** Both passes accept the text; the second one finds the wrong sentinel. */
  lemma DeceptiveRestored()
    ensures Restore(TwoMarkers(), Restored(Row("0", "1", "1"), [])) == Ok(Restored(Wrong(), ["Time"]))
  {
    hide Tag, Stem, Core, Row, Literal, Count, ReplaceFirst, Find, Spoils, Body, Restore, Wrong;
    DeceptiveText();
    LiteralBody();
    LiteralShape();
    RowOnce("0", "1");
    RowSplits("0", "1");
    NothingBefore("0");
    TagReplaced("", "0", Core() + "1" + Tag("1"), LiteralMarker());
    RowOnce(Literal(), "1");
    RowSplits(Literal(), "1");
    assert ReplaceFirst(Row("0", "1", "1"), Sentinel(0), LiteralMarker()) == Row(Literal(), "1", "1");
    MisplacedSecond();
    var markers := TwoMarkers();
    assert markers[1..] == [MarkerOf(Slot("Time"), 1)] && markers[1..][1..] == [];
    RestoreOther(markers, Restored(Row("0", "1", "1"), []), LiteralMarker());
    RestoreOther(markers[1..], Restored(Row(Literal(), "1", "1"), []), "$Time$");
    RestoreNone(Restored(Wrong(), [] + ["Time"]));
    assert [] + ["Time"] == ["Time"];
  }

  lemma NothingBefore(c: string)
    requires Body(c)
    ensures !Spoils("", c)
  {
    hide Core;
    StemSpelled(c);
  }

  lemma OnlyStem(a: string, b: string, at: nat, e: bool)
    requires a != "" && a[|a| - 1] != '_' && b != "" && b[0] == '_'
    requires at + |b + Under(e)| == |a + b| && (a + b)[at..] == b + Under(e)
    ensures !e && at == |a|
  {
    if e {
      Differ((a + b)[|a| - 1..], b + Under(e), 0);
    }
  }

  lemma MisplacedSecond()
    ensures ReplaceFirst(Row(Literal(), "1", "1"), Sentinel(1), "$Time$") == Wrong()
  {
    hide Tag, Stem, Core, Row, Literal, Count, ReplaceFirst, Find, Body;
    DeceptiveText();
    LiteralBody();
    LiteralShape();
    RowOnce(Literal(), "1");
    RowSplits(Literal(), "1");
    StemPairs(Literal());
    StemSpelled("1");
    var left := Stem(Literal()) + Stem("1");
    assert EndsWith(left, Stem("1") + Under(false)) by { assert Stem("1") + Under(false) == Stem("1"); }
    var at, e := TagMisplaced(left, "1", "", "$Time$");
    OnlyStem(Stem(Literal()), Stem("1"), at, e);
    assert left[..at] == Stem(Literal());
    assert Remnant("1", false) == Hidden() + "__" by { assert "" + Core() == Core(); }
    assert Wrong() == Stem(Literal()) + "$Time$" + Remnant("1", false) + "";
  }

  lemma DeceptivePrepared(p: Parts, b: Bindings)
    requires p == Parts("", Row("0", "1", "1"), "")
    ensures var text := Row("0", "1", "1");
      Prepare(TwoMarkers(), p, b, Prepared(text, [], [])) == Ok(Prepared(text, TwoMarkers(), []))
  {
    hide Tag, Stem, Core, Row, Count, Prepare, ParseExpression;
    DeceptiveText();
    RowOnce("0", "1");
    KnownTime();
    CountEmpty(Tag("0"));
    CountEmpty(Tag("1"));
    var text, markers := Row("0", "1", "1"), TwoMarkers();
    assert markers[1..] == [MarkerOf(Slot("Time"), 1)] && markers[1..][1..] == [];
    PrepareOther(markers, p, b, Prepared(text, [], []));
    PrepareOther(markers[1..], p, b, Prepared(text, [] + [markers[0]], []));
    assert ([] + [markers[0]]) + [markers[1]] == markers;
    PrepareNone(p, b, Prepared(text, markers, []));
  }

  lemma DeceptiveSealed(b: Bindings)
    ensures Seal(Deceptive(), b, Verbatim()) == Ok(Sealed(Claims(Wrong(), ["Time"], []), PublicSuffix(["Time"], 0)))
  {
    hide Tag, Stem, Core, Row, Count, Deceptive, Acceptable, ParseTemplate, SanitizedText, Restore, Prepare, Wrong, PublicSuffix;
    DeceptiveChars();
    QuietAccepted(Deceptive());
    DeceptiveParsed();
    DeceptiveText();
    assert [Dollar, Slot("Time")][1..] == [Slot("Time")] && [Slot("Time")][1..] == [];
    assert MarkersOf([Dollar, Slot("Time")], 0) == TwoMarkers();
    DeceptivePrepared(Parts("", Row("0", "1", "1"), ""), b);
    DeceptiveRestored();
    WrongLength();
  }

  lemma WrongLength()
    ensures Wrong() != "" && |Wrong()| <= MAX_TARGET
  {
  }

  lemma SevenAssigned(number: string -> nat)
    requires number("Time") == 7
    ensures Assigns(["Time"], Seven, number)
  {
    hide ParseExpression;
    KnownTime();
    assert ParseUint("7", 10) == Some(7) by { assert "7"[..0] == ""; }
  }

  /** What the wrong claim expands to. */
  function WrongUrl(): string { Stem(Literal()) + ("7" + (Hidden() + "__")) }

  lemma WrongSubstituted()
    ensures Substitute(Wrong(), ["Time"], ["7"]) == Ok(WrongUrl())
  {
    hide Substitute, Stem, Core, Literal;
    var tail := Hidden() + "__";
    EdgesOutside();
    StemDollar();
    SubstituteNothing(tail);
    SubstituteSlot("Time", tail, ["Time"], ["7"]);
    assert ["Time"][1..] == [] && ["7"][1..] == [];
    SubstituteText(Stem(Literal()), "$" + "Time" + "$" + tail, ["Time"], ["7"]);
    assert Wrong() == Stem(Literal()) + ("$" + "Time" + "$" + tail) by { assert "$" + "Time" + "$" == "$Time$"; }
  }

  lemma StemDollar()
    ensures '$' !in Stem(Literal())
  {
    hide Core, Literal;
    EdgesOutside();
    LiteralChars();
    forall i | 0 <= i < |Stem(Literal())| ensures Stem(Literal())[i] != '$' {
      if 2 <= i < 2 + |Core()| {
        assert Stem(Literal())[i] == Core()[i - 2];
      } else if i >= 2 + |Core()| {
        assert Stem(Literal())[i] == Literal()[i - 2 - |Core()|];
      }
    }
  }

  /** No marker of a dollar is left, so nothing is put back. */
  lemma WrongStays()
    ensures LiteralMarker() != "" && ReplaceAll(WrongUrl(), LiteralMarker(), "$") == WrongUrl()
  {
    hide Stem, Core, Literal, ReplaceAll, Hidden, OccursAt;
    LiteralBody();
    LiteralShape();
    StemSpelled(Literal());
    StemPairs(Literal());
    hide LiteralMarker;
    HiddenChars();
    var v, t, s := LiteralMarker(), Stem(Literal()), WrongUrl();
    NoneReplaced(s);
    assert forall i :: 0 <= i < |t| ==> s[i] == t[i];
    assert s[|t|] == '7' && v[|t|] == '_' && v[0] == '_' && v[1] == '_' && v[2] == 'M';
    assert forall i :: 0 <= i < |Hidden()| ==> s[|t| + 1 + i] == Hidden()[i];
    forall p ensures !OccursAt(v, s, p) {
      if p < 0 {
        NeverNegative(v, s, p);
      } else if p + |v| > |s| {
        TooLong(v, s, p);
      } else {
        if p == 0 {
          Mismatch(v, s, 0, |t|);
        } else if s[p] != '_' {
          Mismatch(v, s, p, 0);
        } else if s[p + 1] != '_' {
          Mismatch(v, s, p, 1);
        } else {
          PairLast(t, Hidden(), p);
        }
      }
    }
  }

  lemma HiddenChars()
    ensures |Hidden()| == 24 && Hidden()[0] != '_' && Hidden()[23] != '_'
    ensures forall i :: 0 <= i < 23 && Hidden()[i] == '_' ==> Hidden()[i + 1] != '_'
    ensures |Stem(Literal())| == 39
  {
    hide Core;
    CoreShape();
    assert forall i :: 0 <= i < 23 ==> Hidden()[i] == Core()[i];
  }

  lemma PairLast(t: string, h: string, p: int)
    requires t != "" && t[|t| - 1] != '_' && (forall i :: 0 < i < |t| - 1 && t[i] == '_' ==> t[i + 1] != '_')
    requires |h| == 24 && h[0] != '_' && h[23] != '_' && (forall i :: 0 <= i < 23 && h[i] == '_' ==> h[i + 1] != '_')
    requires var s := t + ("7" + (h + "__")); 0 < p < |s| - 1 && s[p] == '_' && s[p + 1] == '_'
    ensures p == |t + ("7" + (h + "__"))| - 2
  {
    var s := t + ("7" + (h + "__"));
    assert forall i :: 0 <= i < |t| ==> s[i] == t[i];
    assert s[|t|] == '7';
    assert forall i :: 0 <= i < 24 ==> s[|t| + 1 + i] == h[i];
  }

  /**
   The round trip fails for an accepted template. In the player's hands, with 7 for the
   time, "$$MERIDIAN_DASH_TEMPLATE_1$Time$" is a dollar, the text, and a 7. Sealed and
   expanded with 7 it is the torn marker of the dollar, a 7, and the text with two
   underscores: the text after the dollar was taken for the sentinel of the expression.
   */
  lemma ClaimMisread(b: Bindings)
    ensures Deceptive() == "$$MERIDIAN_DASH_TEMPLATE_1$Time$" && Seal(Deceptive(), b, Verbatim()).Ok?
    ensures Verbatim().resolve(Play(Deceptive(), Seven)) == Some("$" + (Hidden() + "7"))
    ensures var sealed := Seal(Deceptive(), b, Verbatim()).value;
      Expand(sealed.claims, RouteSuffix(Play(sealed.suffix, Seven)), Verbatim()) == Ok(WrongUrl())
    ensures WrongUrl() != "$" + (Hidden() + "7")
  {
    hide Seal, Play, PublicSuffix, Substitute, Wrong, Deceptive, RouteSuffix, Reconstruct, ReplaceAll, LiteralMarker, Core, Literal;
    DeceptiveSpelled();
    DeceptiveSealed(b);
    DeceptivePlayed();
    var number := (id: string) => 7;
    SevenAssigned(number);
    WrongSubstituted();
    assert MapValues(["Time"], Seven) == ["7"] by { assert ["Time"][1..] == []; }
    ValuesInserted(Wrong(), ["Time"], [], Seven, number);
    KnownTime();
    SuffixPlayed(["Time"], Seven, 0);
    WrongStays();
    Differ(WrongUrl(), "$" + (Hidden() + "7"), 0);
  }

  lemma DeceptivePlayed()
    ensures Play(Deceptive(), Seven) == "$" + (Hidden() + "7")
  {
    hide Play, ParseTemplate, Core, Weave;
    DeceptiveParsed();
    TemplateRead(Deceptive(), Seven);
    assert [Dollar, Slot("Time")][1..] == [Slot("Time")] && [Slot("Time")][1..] == [];
    assert PlayedAll([Dollar, Slot("Time")], Seven) == ["$", "7"];
    WeaveTwo("", Hidden(), "", "$", "7");
    assert "" + "$" + (Hidden() + "7" + "") == "$" + (Hidden() + "7");
  }
}
