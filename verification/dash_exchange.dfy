/** Sealing and expanding a template whose representation id reads like the marker of its bandwidth. */
module DashExchange {
  import opened Wrappers
  import opened DashStrings
  import opened DashMarkers
  import opened DashOverlap
  import opened DashValues
  import opened DashTemplate
  import opened DashSealing
  import opened DashExpansion
  import opened DashRoundTrip
  import opened DashMisread
  import opened DashWitness

  // ---------- two segments of a path ----------

  function Pair(x: string, y: string): string { x + "/" + y }

  lemma InLeft(x: string, y: string, w: string)
    requires x != "" && '/' !in x && Free(x, y)
    ensures Count(x, Pair(x, y)) == 1 && ReplaceFirst(Pair(x, y), x, w) == Pair(w, y)
  {
    hide Count, ReplaceFirst, Free;
    FreeEmpty(x);
    SlashFree(x, "", y);
    OnceBetween("", x, "" + "/" + y, w);
    assert Pair(x, y) == "" + x + ("" + "/" + y) && Pair(w, y) == "" + w + ("" + "/" + y);
  }

  lemma InRight(x: string, y: string, w: string)
    requires y != "" && '/' !in y && Free(y, x)
    ensures Count(y, Pair(x, y)) == 1 && ReplaceFirst(Pair(x, y), y, w) == Pair(x, w)
  {
    hide Count, ReplaceFirst, Free;
    FreeEmpty(y);
    SlashFree(y, x, "");
    OnceBetween(x + "/" + "", y, "", w);
    assert Pair(x, y) == (x + "/" + "") + y + "" && Pair(x, w) == (x + "/" + "") + w + "";
  }

  // ---------- the values ----------

  function Second(): string { FixedMarker(1) }

  function Bound(): Bindings { Bindings(Second(), "5") }

  function Put(e: string): string { if e == "Bandwidth" then "5" else Second() }

  lemma SecondSpelled()
    ensures Second() == "meridian-dash-fixed-1-x"
  {
  }

  lemma SecondFacts()
    ensures |Second()| == 23 && |FixedMarker(0)| == 23 && Second() != FixedMarker(0) && ValidRepresentationId(Second())
    ensures '/' !in Second() && '/' !in FixedMarker(0) && Second()[0] == 'm' && FixedMarker(0)[0] == 'm'
    ensures '_' !in Second() && '_' !in FixedMarker(0)
  {
    hide FixedCore;
    FixedCoreShape();
    MarkerWords(0);
    MarkerWords(1);
    FixedEdges(0);
    FixedEdges(1);
    assert Second()[20] == '1' && FixedMarker(0)[20] == '0';
    assert forall c :: c in Second() || c in FixedMarker(0) ==> WordChar(c);
    WordsArePChars(Second(), 0);
  }

  lemma KnownBandwidth()
    ensures Identifier("Bandwidth") == Some("Bandwidth") && IsFixed("Bandwidth")
    ensures ParseExpression("Bandwidth") == Some(Expression("Bandwidth", 0, 'd'))
  {
    hide Find;
    NoPercent("Bandwidth");
  }

  lemma ValuesBound()
    ensures FixedValue("RepresentationID", Bound()) == Ok(Some(Second())) && FixedValue("Bandwidth", Bound()) == Ok(Some("5"))
    ensures ValidRepresentationId("5")
  {
    hide ParseExpression, FixedMarker, ValidRepresentationId;
    KnownId();
    KnownBandwidth();
    SecondFacts();
    FiveValid();
    FiveFormatted();
  }

  lemma FiveFormatted()
    ensures ParseUint("5", 10) == Some(5) && FormatNumber(Expression("Bandwidth", 0, 'd'), 5) == "5"
  {
    assert "5"[..0] == "";
  }

  lemma FiveValid()
    ensures ValidRepresentationId("5")
  {
    assert PCharsFrom("5", 1);
  }

  // ---------- the template ----------

  function Addressed(): string { "$RepresentationID$/$Bandwidth$" }

  function Slots(): seq<Mark> { [Slot("RepresentationID"), Slot("Bandwidth")] }

  function Between(): seq<string> { ["", "/", ""] }

  lemma AddressedAccepted()
    ensures Acceptable(Addressed())
  {
    hide UnsafeChar;
    AddressedChars();
    QuietAccepted(Addressed());
  }

  lemma AddressedChars()
    ensures forall i :: 0 <= i < |Addressed()| ==> Addressed()[i] != '-' && Addressed()[i] != '_' && !UnsafeChar(Addressed()[i])
    ensures |Addressed()| == 30
  {
  }

  function Rest(): string { "/" + ("$" + "Bandwidth" + "$" + "") }

  lemma RestParsed()
    ensures ParseTemplate(Rest()) == Ok(Template(["/", ""], [Slot("Bandwidth")]))
  {
    hide ParseTemplate, Identifier, IsFixed, ParseExpression;
    KnownBandwidth();
    ParseEmpty();
    ParseSlot("Bandwidth", "", Template([""], []));
    assert WithMark(Slot("Bandwidth"), Template([""], [])) == Template(["", ""], [Slot("Bandwidth")]);
    SlashBefore("$" + "Bandwidth" + "$" + "", Template(["", ""], [Slot("Bandwidth")]));
    assert ["/"] + ["", ""][1..] == ["/", ""];
  }

  lemma AddressedParsed()
    ensures ParseTemplate(Addressed()) == Ok(Template(Between(), Slots()))
  {
    hide ParseTemplate, Identifier, Rest, Addressed, IsFixed, ParseExpression;
    KnownId();
    RestParsed();
    ParseSlot("RepresentationID", Rest(), Template(["/", ""], [Slot("Bandwidth")]));
    AddressedJoined();
  }

  lemma AddressedJoined()
    ensures WithMark(Slot("RepresentationID"), Template(["/", ""], [Slot("Bandwidth")])) == Template(Between(), Slots())
    ensures "$" + "RepresentationID" + "$" + Rest() == Addressed()
  {
  }

  lemma SlotsTail()
    ensures Slots()[1..] == [Slot("Bandwidth")] && Slots()[1..][1..] == []
    ensures FixedMark(Slot("RepresentationID")) && FixedMark(Slot("Bandwidth"))
  {
    hide Identifier;
    KnownId();
    KnownBandwidth();
  }

  lemma WeavePair(x: string, y: string)
    ensures Weave(Between(), [x, y]) == Pair(x, y)
  {
    WeaveTwo("", "/", "", x, y);
    assert "" + x + ("/" + y + "") == Pair(x, y);
  }

  // ---------- sealing ----------

  lemma AddressedSanitary()
    ensures SanitizedText(Template(Between(), Slots())) == Pair(S(0), S(1))
  {
    hide Sentinel, Weave, Pair;
    WeavePair(S(0), S(1));
    assert Sentinels(0, 2) == [S(0), S(1)];
  }

  lemma MarkersApart()
    ensures Free(S(0), S(1)) && Free(S(1), S(0)) && Free(S(1), FixedMarker(0))
    ensures Free(FixedMarker(0), Second()) && Free(Second(), FixedMarker(0))
  {
    hide Free, S, FixedMarker;
    SentinelSizes();
    MarkerChars();
    SecondFacts();
    FreeBySize(S(0), S(1));
    FreeBySize(S(1), S(0));
    FreeByFirst(S(1), FixedMarker(0));
    FreeBySize(FixedMarker(0), Second());
    FreeBySize(Second(), FixedMarker(0));
  }

  /** What the counts and replacements of both passes find. */
  lemma AddressedCounts()
    ensures var p := Parts("", Pair(S(0), S(1)), ""); Marked(S(0), p) == 1 && Marked(S(1), p) == 1
    ensures ReplaceFirst(Pair(S(0), S(1)), S(0), FixedMarker(0)) == Pair(FixedMarker(0), S(1))
    ensures ReplaceFirst(Pair(FixedMarker(0), S(1)), S(1), Second()) == Pair(FixedMarker(0), Second())
    ensures Count(FixedMarker(0), Pair(FixedMarker(0), Second())) == 1 && Count(Second(), Pair(FixedMarker(0), Second())) == 1
    ensures ReplaceFirst(Pair(FixedMarker(0), Second()), FixedMarker(0), Second()) == Pair(Second(), Second())
  {
    hide S, Count, ReplaceFirst, Pair, FixedMarker, Free, Second;
    MarkersApart();
    MarkerChars();
    SecondFacts();
    CountEmpty(S(0));
    CountEmpty(S(1));
    InLeft(S(0), S(1), FixedMarker(0));
    InRight(S(0), S(1), "");
    InRight(FixedMarker(0), S(1), Second());
    InLeft(FixedMarker(0), Second(), Second());
    InRight(FixedMarker(0), Second(), "");
  }

  function Two(): seq<Marker> {
    [FixAt(MarkerOf(Slot("RepresentationID"), 0), 0), FixAt(MarkerOf(Slot("Bandwidth"), 1), 1)]
  }

  function One(): Prepared {
    Prepared(Pair(FixedMarker(0), S(1)), [FixAt(MarkerOf(Slot("RepresentationID"), 0), 0)], [Second()])
  }

  lemma SlotMarkers()
    ensures var ms := MarkersOf(Slots(), 0);
      && ms == [MarkerOf(Slot("RepresentationID"), 0), MarkerOf(Slot("Bandwidth"), 1)]
      && ms[1..] == [MarkerOf(Slot("Bandwidth"), 1)] && ms[1..][1..] == []
    ensures MarkerOf(Slot("RepresentationID"), 0).sentinel == S(0) && MarkerOf(Slot("Bandwidth"), 1).sentinel == S(1)
    ensures S(0) != "" && S(1) != ""
  {
    hide Sentinel;
    SlotsTail();
    MarkerChars();
  }

  lemma FirstPrepared()
    ensures var text := Pair(S(0), S(1)); var p := Parts("", text, "");
      Prepare(MarkersOf(Slots(), 0), p, Bound(), Prepared(text, [], []))
        == Prepare([MarkerOf(Slot("Bandwidth"), 1)], p, Bound(), One())
  {
    hide S, Count, Marked, ReplaceFirst, Pair, FixedMarker, Prepare, FixedValue, Second, Bound;
    AddressedCounts();
    ValuesBound();
    SlotMarkers();
    var text := Pair(S(0), S(1));
    PrepareFixed(MarkersOf(Slots(), 0), Parts("", text, ""), Bound(), Prepared(text, [], []), Second());
    assert [] + [FixAt(MarkerOf(Slot("RepresentationID"), 0), 0)] == One().markers && [] + [Second()] == One().fixedValues;
  }

  lemma SecondPrepared(p: Parts)
    requires Marked(S(1), p) == 1
    ensures Prepare([MarkerOf(Slot("Bandwidth"), 1)], p, Bound(), One())
         == Ok(Prepared(Pair(FixedMarker(0), Second()), Two(), [Second(), "5"]))
  {
    hide S, Count, Marked, ReplaceFirst, Pair, FixedMarker, Prepare, FixedValue, Bound;
    AddressedCounts();
    ValuesBound();
    SlotMarkers();
    var ms := [MarkerOf(Slot("Bandwidth"), 1)];
    assert |One().fixedValues| == 1 && ms[1..] == [];
    PrepareFixed(ms, p, Bound(), One(), "5");
    assert One().markers + [FixAt(ms[0], 1)] == Two() && One().fixedValues + ["5"] == [Second(), "5"];
    PrepareNone(p, Bound(), Prepared(Pair(FixedMarker(0), Second()), Two(), [Second(), "5"]));
  }

  lemma AddressedPrepared()
    ensures var text := Pair(S(0), S(1));
      Prepare(MarkersOf(Slots(), 0), Parts("", text, ""), Bound(), Prepared(text, [], []))
        == Ok(Prepared(Pair(FixedMarker(0), Second()), Two(), [Second(), "5"]))
  {
    hide S, Marked, ReplaceFirst, Pair, FixedMarker, Prepare, Bound, Second, Two, One;
    MarkerChars();
    AddressedCounts();
    FirstPrepared();
    SecondPrepared(Parts("", Pair(S(0), S(1)), ""));
  }

  lemma AddressedRestored()
    ensures var state := Restored(Pair(FixedMarker(0), Second()), []); Restore(Two(), state) == Ok(state)
  {
    hide Sentinel, Count, Pair, FixedMarker, Restore;
    AddressedCounts();
    var ms, state := Two(), Restored(Pair(FixedMarker(0), Second()), []);
    assert ms[1..][1..] == [];
    RestoreFixedMark(ms, state);
    RestoreFixedMark(ms[1..], state);
    RestoreNone(state);
  }

  lemma AddressedSealed()
    ensures Seal(Addressed(), Bound(), Verbatim())
         == Ok(Sealed(Claims(Pair(FixedMarker(0), Second()), [], [Second(), "5"]), PublicSuffix([], 0)))
  {
    hide Sentinel, Count, ReplaceFirst, Pair, FixedMarker, Restore, Prepare, Acceptable, ParseTemplate, SanitizedText, PublicSuffix, Two,
      Addressed, MarkersOf, Second;
    AddressedAccepted();
    AddressedParsed();
    AddressedSanitary();
    AddressedPrepared();
    AddressedRestored();
    PairLength();
  }

  lemma PairLength()
    ensures var s := Pair(FixedMarker(0), Second()); s != "" && |s| <= MAX_TARGET
  {
    hide FixedMarker;
    SecondFacts();
  }

  // ---------- expanding ----------

  lemma AddressedMarked()
    ensures var p := Parts("", Pair(FixedMarker(0), Second()), ""); Marked(FixedMarker(0), p) == 1 && Marked(FixedMarker(1), p) == 1
  {
    hide Count, Pair, FixedMarker;
    SecondFacts();
    AddressedCounts();
    CountEmpty(FixedMarker(0));
    CountEmpty(Second());
  }

  /** The first value is put in as it is; then the second takes its place. */
  lemma Swapped()
    ensures var text := Pair(FixedMarker(0), Second());
      RestoreFixed(text, Parts("", text, ""), [Second(), "5"], 0) == Ok(Pair("5", Second()))
  {
    hide Count, ReplaceFirst, Pair, FixedMarker, RestoreFixed, ValidRepresentationId, Second, Marked;
    SecondFacts();
    FiveValid();
    AddressedCounts();
    AddressedMarked();
    SecondIsMarker();
    var a, b := FixedMarker(0), Second();
    var p := Parts("", Pair(a, b), "");
    RestoreOne(Pair(a, b), p, [b, "5"], 0);
    assert [b, "5"][1..] == ["5"];
    RestoreOne(Pair(b, b), p, ["5"], 1);
    assert ["5"][1..] == [];
    FirstOfTwo(b, b, "5");
    RestoreNothing(Pair("5", b), p, 2);
  }

  lemma SecondIsMarker()
    ensures FixedMarker(1) == Second()
  {
  }

  lemma FirstOfTwo(x: string, y: string, w: string)
    requires x != ""
    ensures ReplaceFirst(Pair(x, y), x, w) == Pair(w, y)
  {
    assert Pair(x, y)[..|x|] == x;
    assert Find(x, Pair(x, y)) == 0;
    assert Pair(x, y)[|x|..] == "/" + y && Pair(x, y)[..0] == "";
  }

  lemma RestoreNothing(s: string, p: Parts, k: nat)
    ensures RestoreFixed(s, p, [], k) == Ok(s)
  {
  }

  lemma AddressedExpanded()
    ensures Expand(Claims(Pair(FixedMarker(0), Second()), [], [Second(), "5"]), "", Verbatim()) == Ok(Pair("5", Second()))
  {
    hide FixedMarker, RestoreFixed, LiteralMarker, ReplaceAll, Second, Pair;
    Swapped();
    NoDollarMarker();
  }

  lemma NoDollarMarker()
    ensures LiteralMarker() != "" && ReplaceAll(Pair("5", Second()), LiteralMarker(), "$") == Pair("5", Second())
  {
    hide LiteralMarker, ReplaceAll, FixedMarker;
    SecondFacts();
    SentinelSizes();
    NoneReplaced(Pair("5", Second()));
    FreeByLength(LiteralMarker(), Pair("5", Second()));
  }

  lemma AddressedPlayed()
    ensures Play(Addressed(), Put) == Pair(Second(), "5")
  {
    hide Play, ParseTemplate, Weave, Second, Pair, Addressed;
    AddressedParsed();
    TemplateRead(Addressed(), Put);
    SlotsTail();
    assert PlayedAll(Slots(), Put) == [Second(), "5"];
    WeavePair(Second(), "5");
  }

  /**
   The round trip fails for a valid representation id. Fixed values are put in one after
   the other, and the first may spell the marker of the second: "$RepresentationID$/$Bandwidth$"
   with the id meridian-dash-fixed-1-x and the bandwidth 5 is sealed, and expands to the
   bandwidth followed by the id, where a player reads the id followed by the bandwidth.
   */
  lemma FixedValueMisread()
    ensures Second() == "meridian-dash-fixed-1-x" && ValidRepresentationId(Second())
    ensures Addressed() == "$RepresentationID$/$Bandwidth$" && Seal(Addressed(), Bindings(Second(), "5"), Verbatim()).Ok?
    ensures Verbatim().resolve(Play(Addressed(), Put)) == Some(Second() + "/" + "5")
    ensures var sealed := Seal(Addressed(), Bindings(Second(), "5"), Verbatim()).value;
      Expand(sealed.claims, RouteSuffix(Play(sealed.suffix, Put)), Verbatim()) == Ok("5" + "/" + Second())
    ensures "5" + "/" + Second() != Second() + "/" + "5"
  {
    hide Seal, Play, Expand, FixedMarker, Addressed, ValidRepresentationId, PublicSuffix, RouteSuffix;
    SecondSpelled();
    AddressedSpelled();
    SecondFacts();
    AddressedSealed();
    AddressedExpanded();
    AddressedPlayed();
    SuffixEmpty();
    Differ("5" + "/" + Second(), Second() + "/" + "5", 0);
  }

  lemma AddressedSpelled()
    ensures Addressed() == "$RepresentationID$/$Bandwidth$"
  {
  }

  lemma SuffixEmpty()
    ensures RouteSuffix(Play(PublicSuffix([], 0), Put)) == ""
  {
  }
}
