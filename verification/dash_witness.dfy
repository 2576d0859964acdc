/**
 A template with a fixed value, a player's value and a dollar that meets everything
 asked for the round trip.
 */
module DashWitness {
  import opened Wrappers
  import opened DashStrings
  import opened DashMarkers
  import opened DashOverlap
  import opened DashValues
  import opened DashTemplate
  import opened DashSealing
  import opened DashExpansion
  import opened DashRoundTrip
  import opened DashMisread

  // ---------- three segments of a path ----------

  function Path(x: string, y: string, z: string): string { x + "/" + y + "/" + z }

  lemma SlashFree(v: string, x: string, y: string)
    requires v != "" && '/' !in v && Free(v, x) && Free(v, y)
    ensures Free(v, x + "/" + y)
  {
    hide OccursAt;
    var s := x + "/" + y;
    forall p ensures !OccursAt(v, s, p) {
      if p < 0 {
        NeverNegative(v, s, p);
      } else if p + |v| > |s| {
        TooLong(v, s, p);
      } else if p + |v| <= |x| {
        Leftwards(v, x, "/" + y, "", p);
        assert x + "" == x && x + ("/" + y) == s;
      } else if p <= |x| {
        assert v[|x| - p] in v;
        Mismatch(v, s, p, |x| - p);
      } else {
        OccursShifted(v, x + "/", y, p - |x| - 1);
      }
    }
  }

  lemma OnceBetween(a: string, v: string, b: string, w: string)
    requires v != "" && '/' !in v && Free(v, a) && Free(v, b)
    requires (a == "" || a[|a| - 1] == '/') && (b == "" || b[0] == '/')
    ensures Count(v, a + v + b) == 1 && ReplaceFirst(a + v + b, v, w) == a + w + b
  {
    hide OccursAt, Count, ReplaceFirst;
    var s := a + v + b;
    forall p ensures OccursAt(v, s, p) ==> p == |a| {
      if p < 0 {
        NeverNegative(v, s, p);
      } else if p + |v| > |s| {
        TooLong(v, s, p);
      } else if p + |v| <= |a| {
        Leftwards(v, a, v + b, "", p);
        assert a + "" == a && a + (v + b) == s;
      } else if p < |a| {
        assert v[|a| - 1 - p] in v;
        Mismatch(v, s, p, |a| - 1 - p);
      } else if |a| < p < |a| + |v| {
        var i := |a| + |v| - p;
        assert v[i] in v && s[p + i] == '/';
        Mismatch(v, s, p, i);
      } else if p > |a| {
        OccursShifted(v, a + v, b, p - |a| - |v|);
      }
    }
    FoundOnce(a, v, b, w);
  }

  lemma FreeEmpty(v: string)
    requires v != ""
    ensures Free(v, "")
  {
  }

  lemma InFirst(x: string, y: string, z: string, w: string)
    requires x != "" && '/' !in x && Free(x, y) && Free(x, z)
    ensures Count(x, Path(x, y, z)) == 1 && ReplaceFirst(Path(x, y, z), x, w) == Path(w, y, z)
  {
    hide Count, ReplaceFirst, Free;
    FreeEmpty(x);
    SlashFree(x, y, z);
    SlashFree(x, "", y + "/" + z);
    OnceBetween("", x, "" + "/" + (y + "/" + z), w);
    PathFirst(x, y, z);
    PathFirst(w, y, z);
  }

  lemma PathFirst(x: string, y: string, z: string)
    ensures Path(x, y, z) == "" + x + ("" + "/" + (y + "/" + z))
  {
  }

  lemma InSecond(x: string, y: string, z: string, w: string)
    requires y != "" && '/' !in y && Free(y, x) && Free(y, z)
    ensures Count(y, Path(x, y, z)) == 1 && ReplaceFirst(Path(x, y, z), y, w) == Path(x, w, z)
  {
    hide Count, ReplaceFirst, Free;
    FreeEmpty(y);
    SlashFree(y, x, "");
    SlashFree(y, "", z);
    OnceBetween(x + "/" + "", y, "" + "/" + z, w);
    PathSecond(x, y, z);
    PathSecond(x, w, z);
  }

  lemma PathSecond(x: string, y: string, z: string)
    ensures Path(x, y, z) == (x + "/" + "") + y + ("" + "/" + z)
  {
  }

  lemma InThird(x: string, y: string, z: string, w: string)
    requires z != "" && '/' !in z && Free(z, x) && Free(z, y)
    ensures Count(z, Path(x, y, z)) == 1 && ReplaceFirst(Path(x, y, z), z, w) == Path(x, y, w)
  {
    hide Count, ReplaceFirst, Free;
    FreeEmpty(z);
    SlashFree(z, x, y);
    SlashFree(z, x + "/" + y, "");
    OnceBetween(x + "/" + y + "/" + "", z, "", w);
    PathThird(x, y, z);
    PathThird(x, y, w);
  }

  lemma PathThird(x: string, y: string, z: string)
    ensures Path(x, y, z) == (x + "/" + y + "/" + "") + z + ""
  {
  }

  // ---------- the markers keep apart ----------

  lemma FreeByLength(v: string, s: string)
    requires |s| < |v|
    ensures Free(v, s)
  {
  }

  lemma FreeByFirst(v: string, s: string)
    requires v != "" && v[0] !in s
    ensures Free(v, s)
  {
    forall p ensures !OccursAt(v, s, p) {
      if 0 <= p && p + |v| <= |s| {
        assert s[p] in s;
        Mismatch(v, s, p, 0);
      }
    }
  }

  lemma FreeBySize(v: string, s: string)
    requires |s| == |v| && s != v
    ensures Free(v, s)
  {
    forall p ensures !OccursAt(v, s, p) {
      if p == 0 {
        assert s[0..|v|] == s;
      }
    }
  }

  function S(i: nat): string { Sentinel(i) }

  lemma SentinelSizes()
    ensures |S(0)| == |S(1)| == |S(2)| == 28 && S(0) != S(1) && S(0) != S(2) && S(1) != S(2)
    ensures |LiteralMarker()| == 41 && |FixedMarker(0)| == 23
  {
    hide Core, FixedCore;
    CoreShape();
    FixedCoreShape();
    assert S(0)[25] == '0' && S(1)[25] == '1' && S(2)[25] == '2';
  }

  lemma MarkerChars()
    ensures (forall i: nat :: S(i) != "" && '/' !in S(i) && S(i)[0] == '_' && 'm' !in S(i)) && '/' !in FixedMarker(0)
    ensures FixedMarker(0)[0] == 'm' && '_' !in FixedMarker(0) && 'm' !in LiteralMarker()
  {
    hide Core, FixedCore, Literal;
    forall i: nat ensures S(i) != "" && '/' !in S(i) && S(i)[0] == '_' && 'm' !in S(i) {
      SentinelQuiet(i);
      SentinelStart(i);
      MarkerWords(i);
      assert forall c :: c in S(i) ==> WordChar(c);
    }
    FixedEdges(0);
    MarkerWords(0);
    assert forall c :: c in FixedMarker(0) ==> WordChar(c);
    LiteralQuiet();
  }

  lemma LiteralQuiet()
    ensures 'm' !in LiteralMarker()
  {
    hide Core;
    EdgesOutside();
    LiteralLetters();
    var v := LiteralMarker();
    forall j | 0 <= j < |v| ensures v[j] != 'm' {
      if 2 <= j < 2 + |Core()| {
        assert v[j] == Core()[j - 2];
      } else if 2 + |Core()| <= j < |v| - 2 {
        assert v[j] == Literal()[j - 2 - |Core()|];
      }
    }
  }

  lemma LiteralLetters()
    ensures 'm' !in Literal()
  {
  }

  /** What the markers and values of this template do not contain of each other. */
  lemma Apart()
    ensures Free(S(0), S(1)) && Free(S(0), S(2)) && Free(S(1), S(0)) && Free(S(1), S(2)) && Free(S(2), S(0)) && Free(S(2), S(1))
    ensures Free(S(1), FixedMarker(0)) && Free(S(2), FixedMarker(0)) && Free(S(2), "$Time$")
    ensures Free(FixedMarker(0), S(1)) && Free(FixedMarker(0), S(2)) && Free(FixedMarker(0), "7")
    ensures Free(FixedMarker(0), LiteralMarker()) && Free(FixedMarker(0), "") && Free(LiteralMarker(), "r/7/__") && Free(LiteralMarker(), "")
  {
    hide Free, S, FixedMarker, LiteralMarker;
    SentinelSizes();
    MarkerChars();
    FreeBySize(S(0), S(1));
    FreeBySize(S(0), S(2));
    FreeBySize(S(1), S(0));
    FreeBySize(S(1), S(2));
    FreeBySize(S(2), S(0));
    FreeBySize(S(2), S(1));
    FreeByFirst(S(1), FixedMarker(0));
    FreeByFirst(S(2), FixedMarker(0));
    FreeByLength(S(2), "$Time$");
    FreeByFirst(FixedMarker(0), S(1));
    FreeByFirst(FixedMarker(0), S(2));
    FreeByLength(FixedMarker(0), "7");
    FreeByFirst(FixedMarker(0), LiteralMarker());
    FreeByLength(FixedMarker(0), "");
    FreeByLength(LiteralMarker(), "r/7/__");
    FreeByLength(LiteralMarker(), "");
  }

  // ---------- the template ----------

  function Sample(): string { "$RepresentationID$/$Time$/$$" }

  function Marks(): seq<Mark> { [Slot("RepresentationID"), Slot("Time"), Dollar] }

  function Pieces(): seq<string> { ["", "/", "/", ""] }

  function Bound(): Bindings { Bindings("r", "1") }

  function Chosen(e: string): string { if e == "Time" then "7" else "r" }

  lemma WeaveThree(x: string, y: string, z: string)
    ensures Weave(Pieces(), [x, y, z]) == Path(x, y, z)
  {
    var u, f := Pieces(), [x, y, z];
    assert u[1..] == ["/", "/", ""] && f[1..] == [y, z];
    assert u[1..][1..] == ["/", ""] && f[1..][1..] == [z];
    assert u[1..][1..][1..] == [""] && f[1..][1..][1..] == [];
    assert Weave([""], []) == "";
    assert Weave(["/", ""], [z]) == "/" + z + "";
    assert Weave(["/", "/", ""], [y, z]) == "/" + y + ("/" + z + "");
    assert "" + x + ("/" + y + ("/" + z + "")) == Path(x, y, z);
  }

  lemma SlashBefore(s: string, t: Template)
    requires ParseTemplate(s) == Ok(t) && |t.texts| > 0 && t.texts[0] == ""
    ensures ParseTemplate("/" + s) == Ok(Template(["/"] + t.texts[1..], t.marks))
  {
    hide ParseTemplate;
    ParseText("/", s, t);
    assert "/" + "" == "/";
  }

  function Tail1(): string { "/" + "$$" }

  function Tail2(): string { "/" + ("$" + "Time" + "$" + Tail1()) }

  lemma Tail1Parsed()
    ensures ParseTemplate(Tail1()) == Ok(Template(["/", ""], [Dollar]))
  {
    hide ParseTemplate;
    ParseEmpty();
    ParseDollar("", Template([""], []));
    assert "$$" + "" == "$$";
    assert WithMark(Dollar, Template([""], [])) == Template(["", ""], [Dollar]);
    SlashBefore("$$", Template(["", ""], [Dollar]));
    assert ["/"] + ["", ""][1..] == ["/", ""];
  }

  lemma Tail2Parsed()
    ensures ParseTemplate(Tail2()) == Ok(Template(["/", "/", ""], [Slot("Time"), Dollar]))
  {
    hide ParseTemplate, Identifier, Tail1;
    KnownTime();
    Tail1Parsed();
    var t := Template(["", "/", ""], [Slot("Time"), Dollar]);
    ParseSlot("Time", Tail1(), Template(["/", ""], [Dollar]));
    assert WithMark(Slot("Time"), Template(["/", ""], [Dollar])) == t;
    SlashBefore("$" + "Time" + "$" + Tail1(), t);
    assert ["/"] + t.texts[1..] == ["/", "/", ""];
  }

  lemma SampleParsed()
    ensures ParseTemplate(Sample()) == Ok(Template(Pieces(), Marks()))
  {
    hide ParseTemplate, Identifier, Tail2, Sample, IsFixed, ParseExpression;
    KnownId();
    Tail2Parsed();
    var t := Template(["/", "/", ""], [Slot("Time"), Dollar]);
    ParseSlot("RepresentationID", Tail2(), t);
    SampleShape();
    SampleSpelled();
  }

  lemma SampleShape()
    ensures WithMark(Slot("RepresentationID"), Template(["/", "/", ""], [Slot("Time"), Dollar])) == Template(Pieces(), Marks())
  {
  }

  lemma SampleSpelled()
    ensures "$" + "RepresentationID" + "$" + Tail2() == Sample()
  {
  }

  lemma SampleAccepted()
    ensures Acceptable(Sample())
  {
    hide UnsafeChar;
    SampleChars();
    QuietAccepted(Sample());
  }

  lemma SampleChars()
    ensures forall i :: 0 <= i < |Sample()| ==> Sample()[i] != '-' && Sample()[i] != '_' && !UnsafeChar(Sample()[i])
    ensures |Sample()| == 28
  {
  }

  // ---------- sealing it ----------

  function Sanitary(): string { Path(S(0), S(1), S(2)) }

  lemma SampleSanitary()
    ensures SanitizedText(Template(Pieces(), Marks())) == Sanitary()
  {
    hide Sentinel, Weave, Path;
    WeaveThree(S(0), S(1), S(2));
    assert Sentinels(0, 3) == [S(0), S(1), S(2)];
  }

  /** The marks of the sample, as far as the functions over marks ask. */
  lemma SampleMarks()
    ensures FixedMark(Slot("RepresentationID")) && !FixedMark(Slot("Time")) && !FixedMark(Dollar)
    ensures IsFixed("RepresentationID") && !IsFixed("Time")
    ensures Marks() == [Slot("RepresentationID")] + ([Slot("Time")] + ([Dollar] + []))
  {
    hide Identifier;
    KnownTime();
    KnownId();
  }

  lemma SampleFilled()
    ensures Weave(Pieces(), Filled(Marks(), 0, Chosen)) == Path(FixedMarker(0), "7", LiteralMarker())
  {
    hide FixedMarker, LiteralMarker, Weave, Identifier, Path, FixedMark, IsFixed;
    SampleMarks();
    MarksTail();
    WeaveThree(FixedMarker(0), "7", LiteralMarker());
    assert Filled(Marks()[1..][1..][1..], 1, Chosen) == [];
    assert Filled(Marks()[1..][1..], 1, Chosen) == [LiteralMarker()];
    assert Filled(Marks()[1..], 1, Chosen) == ["7", LiteralMarker()];
    assert Filled(Marks(), 0, Chosen) == [FixedMarker(0), "7", LiteralMarker()];
  }

  lemma SampleExpressions()
    ensures Expressions(Marks()) == ["Time"]
  {
    hide IsFixed;
    SampleMarks();
    MarksTail();
    assert Expressions(Marks()[1..][1..][1..]) == [];
    assert Expressions(Marks()[1..][1..]) == [];
    assert Expressions(Marks()[1..]) == ["Time"];
  }

  lemma MarksTail()
    ensures Marks()[1..] == [Slot("Time"), Dollar] && Marks()[1..][1..] == [Dollar] && Marks()[1..][1..][1..] == []
    ensures Marks()[0] == Slot("RepresentationID") && Marks()[1] == Slot("Time") && Marks()[2] == Dollar
  {
  }

  function Three(): seq<Marker> {
    [FixAt(MarkerOf(Slot("RepresentationID"), 0), 0), MarkerOf(Slot("Time"), 1), MarkerOf(Dollar, 2)]
  }

  lemma PrepareFixed(markers: seq<Marker>, p: Parts, b: Bindings, state: Prepared, v: string)
    requires markers != [] && markers[0].sentinel != "" && Marked(markers[0].sentinel, p) == 1 && !markers[0].literal
    requires FixedValue(markers[0].expression, b) == Ok(Some(v))
    ensures var k := |state.fixedValues|;
      Prepare(markers, p, b, state)
        == Prepare(markers[1..], p, b,
             Prepared(ReplaceFirst(state.claimText, markers[0].sentinel, FixedMarker(k)),
                      state.markers + [FixAt(markers[0], k)], state.fixedValues + [v]))
  {
    hide Count, Marked, FixedValue, ReplaceFirst, FixedMarker;
  }

  lemma SampleBound()
    ensures FixedValue("RepresentationID", Bound()) == Ok(Some("r")) && FixedValue("Time", Bound()) == Ok(None)
    ensures ValidRepresentationId("r")
  {
    hide ParseExpression;
    KnownId();
    KnownTime();
    assert PCharsFrom("r", 1);
  }

  lemma SampleMarked()
    ensures var p := Parts("", Sanitary(), "");
      && Marked(S(0), p) == 1 && Marked(S(1), p) == 1 && Marked(S(2), p) == 1
      && Count(S(0), "") == 0 && Count(S(1), "") == 0 && Count(S(2), "") == 0
    ensures ReplaceFirst(Sanitary(), S(0), FixedMarker(0)) == Path(FixedMarker(0), S(1), S(2))
  {
    hide S, Count, ReplaceFirst, Path, FixedMarker;
    Apart();
    MarkerChars();
    CountEmpty(S(0));
    CountEmpty(S(1));
    CountEmpty(S(2));
    InFirst(S(0), S(1), S(2), FixedMarker(0));
    InSecond(S(0), S(1), S(2), "");
    InThird(S(0), S(1), S(2), "");
  }

  lemma SamplePrepared()
    ensures Prepare(MarkersOf(Marks(), 0), Parts("", Sanitary(), ""), Bound(), Prepared(Sanitary(), [], []))
         == Ok(Prepared(Path(FixedMarker(0), S(1), S(2)), Three(), ["r"]))
  {
    hide Sentinel, Count, Marked, ReplaceFirst, Path, FixedMarker, Prepare, FixedValue, Sanitary;
    SampleMarked();
    SampleBound();
    MarkerChars();
    MarksTail();
    var p, ms := Parts("", Sanitary(), ""), MarkersOf(Marks(), 0);
    assert ms == [MarkerOf(Slot("RepresentationID"), 0), MarkerOf(Slot("Time"), 1), MarkerOf(Dollar, 2)];
    assert ms[1..] == [MarkerOf(Slot("Time"), 1), MarkerOf(Dollar, 2)] && ms[1..][1..] == [MarkerOf(Dollar, 2)] && ms[1..][1..][1..] == [];
    var text := Path(FixedMarker(0), S(1), S(2));
    var fixed := FixAt(ms[0], 0);
    PrepareFixed(ms, p, Bound(), Prepared(Sanitary(), [], []), "r");
    PrepareOther(ms[1..], p, Bound(), Prepared(text, [] + [fixed], [] + ["r"]));
    PrepareOther(ms[1..][1..], p, Bound(), Prepared(text, [] + [fixed] + [ms[1]], [] + ["r"]));
    assert [] + [fixed] + [ms[1]] + [ms[2]] == Three() && [] + ["r"] == ["r"];
    PrepareNone(p, Bound(), Prepared(text, Three(), ["r"]));
  }

  lemma RestoreFixedMark(markers: seq<Marker>, state: Restored)
    requires markers != [] && markers[0].fixed && Count(FixedMarker(markers[0].fixedIndex), state.target) == 1
    ensures Restore(markers, state) == Restore(markers[1..], state)
  {
    hide Count, FixedMarker;
  }

  lemma SampleCounts()
    ensures Count(FixedMarker(0), Path(FixedMarker(0), S(1), S(2))) == 1
    ensures Count(FixedMarker(0), Path(FixedMarker(0), "7", LiteralMarker())) == 1
    ensures Count(S(1), Path(FixedMarker(0), S(1), S(2))) == 1
    ensures ReplaceFirst(Path(FixedMarker(0), S(1), S(2)), S(1), "$Time$") == Path(FixedMarker(0), "$Time$", S(2))
    ensures Count(S(2), Path(FixedMarker(0), "$Time$", S(2))) == 1
    ensures ReplaceFirst(Path(FixedMarker(0), "$Time$", S(2)), S(2), LiteralMarker()) == Path(FixedMarker(0), "$Time$", LiteralMarker())
  {
    hide S, Count, ReplaceFirst, Path, FixedMarker, LiteralMarker, Free;
    Apart();
    MarkerChars();
    FixedStart(0);
    InFirst(FixedMarker(0), S(1), S(2), "");
    InFirst(FixedMarker(0), "7", LiteralMarker(), "");
    InSecond(FixedMarker(0), S(1), S(2), "$Time$");
    InThird(FixedMarker(0), "$Time$", S(2), LiteralMarker());
  }

  lemma SampleRestored()
    ensures Restore(Three(), Restored(Path(FixedMarker(0), S(1), S(2)), []))
         == Ok(Restored(Path(FixedMarker(0), "$Time$", LiteralMarker()), ["Time"]))
  {
    hide Sentinel, Count, ReplaceFirst, Path, FixedMarker, LiteralMarker, Restore;
    SampleCounts();
    MarkerChars();
    var ms := Three();
    assert ms[1..] == [MarkerOf(Slot("Time"), 1), MarkerOf(Dollar, 2)] && ms[1..][1..] == [MarkerOf(Dollar, 2)] && ms[1..][1..][1..] == [];
    RestoreFixedMark(ms, Restored(Path(FixedMarker(0), S(1), S(2)), []));
    assert "$" + "Time" + "$" == "$Time$" && [] + ["Time"] == ["Time"];
    RestoreOther(ms[1..], Restored(Path(FixedMarker(0), S(1), S(2)), []), "$Time$");
    RestoreOther(ms[1..][1..], Restored(Path(FixedMarker(0), "$Time$", S(2)), ["Time"]), LiteralMarker());
    RestoreNone(Restored(Path(FixedMarker(0), "$Time$", LiteralMarker()), ["Time"]));
  }

  lemma SampleSealed()
    ensures Seal(Sample(), Bound(), Verbatim())
         == Ok(Sealed(Claims(Path(FixedMarker(0), "$Time$", LiteralMarker()), ["Time"], ["r"]), PublicSuffix(["Time"], 0)))
  {
    hide Sentinel, Count, ReplaceFirst, Path, FixedMarker, LiteralMarker, Restore, Prepare, Acceptable, ParseTemplate, SanitizedText,
      PublicSuffix, Three, Sanitary, Sample, MarkersOf;
    SampleAccepted();
    SampleParsed();
    SampleSanitary();
    SamplePrepared();
    SampleRestored();
    SampleLength();
  }

  lemma SampleLength()
    ensures var s := Path(FixedMarker(0), "$Time$", LiteralMarker()); s != "" && |s| <= MAX_TARGET
  {
    hide FixedMarker, LiteralMarker;
    SentinelSizes();
  }

  // ---------- what is asked of it ----------

  lemma SamplePutIn(number: string -> nat)
    requires number("Time") == 7
    ensures PutIn(Template(Pieces(), Marks()), Bound(), Chosen, number)
  {
    hide ParseExpression, FixedValue, Identifier, ParsedValue;
    KnownTime();
    KnownId();
    SampleBound();
    SampleExpressions();
    SevenAssigned(number);
    assert Chosen("Time") == Seven("Time");
    forall m | m in Marks() && FixedMark(m) ensures FixedValue(m.expression, Bound()) == Ok(Some(Chosen(m.expression))) {
      assert m == Slot("RepresentationID");
    }
    assert forall e :: ':' !in Chosen(e);
  }

  lemma SampleFixed()
    ensures FixedValues(Marks(), Bound()) == ["r"]
  {
    hide FixedValue, IsFixed, FixedMark;
    SampleMarks();
    SampleBound();
    MarksTail();
    assert FixedValues(Marks()[1..][1..][1..], Bound()) == [];
    assert FixedValues(Marks()[1..][1..], Bound()) == [];
    assert FixedValues(Marks()[1..], Bound()) == [];
  }

  lemma SampleUnspelled()
    ensures Unspelled(Marks(), Pieces(), Bound(), Chosen)
  {
    hide Sentinel, Count, Path, FixedMarker, LiteralMarker, Free, Weave, FixedUnspelled, LiteralsUnspelled, Filled, FixedValues, Pieces,
      Marks;
    PiecesFree();
    SampleFixed();
    SampleFilled();
    SampleCounts();
    SampleClear();
    SampleDollar();
  }

  lemma SampleClear()
    requires |Pieces()| == |Marks()| + 1
    ensures FixedUnspelled(Marks(), 0, Pieces(), [], Chosen)
  {
    hide FixedMarker, LiteralMarker, Free, FixedMark, IsFixed, S, Weave;
    SampleMarks();
    Apart();
    MarksTail();
    var u := Pieces();
    assert u[..1] == [""];
    WeaveOne("");
    assert FixedUnspelled(Marks()[1..][1..][1..], 1, u, [] + ["r"] + ["7"] + [LiteralMarker()], Chosen);
    assert FixedUnspelled(Marks()[1..][1..], 1, u, [] + ["r"] + ["7"], Chosen);
    assert FixedUnspelled(Marks()[1..], 1, u, [] + ["r"], Chosen);
  }

  lemma SampleDollar()
    requires |Pieces()| == |Marks()| + 1
    ensures LiteralsUnspelled("", Pieces(), Marks(), Chosen)
  {
    hide LiteralMarker, Free, S, FixedMarker;
    Apart();
    MarksTail();
    var u := Pieces();
    assert u[1..] == ["/", "/", ""] && u[1..][1..] == ["/", ""] && u[1..][1..][1..] == [""];
    assert "" + "" == "" && "" + "" + "r" == "r" && "r" + "/" + "7" == "r/7" && "r/7" + "/" + "__" == "r/7/__";
    assert LiteralsUnspelled("", u[1..][1..][1..], Marks()[1..][1..][1..], Chosen);
    assert LiteralsUnspelled("r/7", u[1..][1..], Marks()[1..][1..], Chosen);
    assert LiteralsUnspelled("r", u[1..], Marks()[1..], Chosen);
  }

  lemma ShortSpellsNot(x: string, c: string)
    requires |x| <= 1
    ensures !Spells(x, c)
  {
    hide Core;
    CoreShape();
    forall a: bool, e: bool ensures x != Under(a) + Core() + c + Under(e) {
      assert |Under(a) + Core() + c + Under(e)| >= 23;
    }
  }

  lemma SampleNotMisread(j: nat)
    requires j < 3
    ensures !Misread(Pieces(), Marks(), j) && !MisreadFixed(Pieces(), Marks(), j)
  {
    hide Spells, IsFixed, Itoa;
    ShortSpellsNot(Pieces()[j], Itoa(j));
  }

  /** Everything that SealThenExpand asks for holds of one template, binding and player. */
  ghost predicate AllMet(value: string, t: Template, u: seq<string>, b: Bindings, net: Net, player: string -> string,
                         number: string -> nat)
  {
    && Seal(value, b, net).Ok? && ParseTemplate(value) == Ok(t) && Follows(net, t, u) && PrefixFree(u)
    && |Seal(value, b, net).value.claims.template| <= 64 && |Seal(value, b, net).value.claims.fixed| <= 64
    && (forall j :: 0 <= j < |t.marks| ==> !MisreadFixed(t.texts, t.marks, j) && !Misread(u, t.marks, j))
    && PutIn(t, b, player, number) && Unspelled(t.marks, u, b, player)
  }

  lemma AllMetHere(number: string -> nat)
    requires number("Time") == 7
    ensures AllMet(Sample(), Template(Pieces(), Marks()), Pieces(), Bound(), Verbatim(), Chosen, number)
  {
    hide Seal, ParseTemplate, Follows, PrefixFree, MisreadFixed, Misread, PutIn, Unspelled, PublicSuffix, FixedMarker, LiteralMarker, Path,
      Sample, Pieces, Marks, Bound, Verbatim;
    PiecesFree();
    SampleSealed();
    SampleParsed();
    VerbatimFollows(Template(Pieces(), Marks()));
    forall j | 0 <= j < |Marks()| ensures !MisreadFixed(Pieces(), Marks(), j) && !Misread(Pieces(), Marks(), j) {
      SampleNotMisread(j);
    }
    SamplePutIn(number);
    SampleUnspelled();
  }

  /** What SealThenExpand asks for can be met, by a template with a fixed value, a player's value and a dollar. */
  lemma RoundTripMet()
    ensures AllMet(Sample(), Template(Pieces(), Marks()), Pieces(), Bound(), Verbatim(), Chosen, id => 7)
    ensures var sealed := Seal(Sample(), Bound(), Verbatim()).value;
      Expand(sealed.claims, RouteSuffix(Play(sealed.suffix, Chosen)), Verbatim()) == Ok(Play(Sample(), Chosen))
  {
    hide Seal, ParseTemplate, Follows, PrefixFree, MisreadFixed, Misread, PutIn, Unspelled, Expand, Play, RouteSuffix, Sample, Pieces,
      Marks, Bound;
    AllMetHere(id => 7);
    SealThenExpand(Sample(), Bound(), Verbatim(), Pieces(), Chosen, id => 7);
  }

  lemma PiecesFree()
    ensures PrefixFree(Pieces()) && |Pieces()| == |Marks()| + 1 && |Marks()| == 3
    ensures forall i :: 0 <= i < |Pieces()| ==> '$' !in Pieces()[i]
  {
    hide TemplatePrefix;
    PrefixStarts();
    forall i | 0 <= i < |Pieces()| ensures Free(TemplatePrefix(), Pieces()[i]) {
      FreeByLength(TemplatePrefix(), Pieces()[i]);
    }
  }
}
