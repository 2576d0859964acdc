/**
 What sealing a template produces. Its two passes put the markers of the claim in
 place of the sentinels, one after the other, and each marker gets to its place
 exactly if no piece of text before a sentinel reads like the inside of that sentinel.
 */
module DashSealing {
  import opened Wrappers
  import opened DashStrings
  import opened DashMarkers
  import opened DashOverlap
  import opened DashValues
  import opened DashTemplate

  /** What stands at a mark while the template is sealed. */
  datatype Fill = SentinelFill(i: nat) | LiteralFill | FixedFill(k: nat) | VariableFill(e: string)

  function Text(f: Fill): string {
    match f
    case SentinelFill(i) => Sentinel(i)
    case LiteralFill => LiteralMarker()
    case FixedFill(k) => FixedMarker(k)
    case VariableFill(e) => "$" + e + "$"
  }

  function Texts(fs: seq<Fill>): (ts: seq<string>)
    ensures |ts| == |fs|
    ensures forall i :: 0 <= i < |fs| ==> ts[i] == Text(fs[i])
  {
    seq(|fs|, i requires 0 <= i < |fs| => Text(fs[i]))
  }

  // ---------- the fills of the successive texts ----------

  ghost predicate MarksOk(marks: seq<Mark>) {
    forall m :: m in marks && m.Slot? ==> Identifier(m.expression).Some?
  }

  predicate FixedMark(m: Mark) {
    m.Slot? && IsFixed(m.expression)
  }

  function SentinelFills(i: nat, n: nat): (fs: seq<Fill>)
    ensures |fs| == n
    decreases n
  {
    if n == 0 then [] else [SentinelFill(i)] + SentinelFills(i + 1, n - 1)
  }

  function ClaimFill(m: Mark, i: nat, k: nat): Fill {
    if FixedMark(m) then FixedFill(k) else SentinelFill(i)
  }

  function ClaimFills(marks: seq<Mark>, i: nat, k: nat): (fs: seq<Fill>)
    ensures |fs| == |marks|
  {
    if marks == [] then [] else [ClaimFill(marks[0], i, k)] + ClaimFills(marks[1..], i + 1, Next(marks[0], k))
  }

  function SealedFill(m: Mark, k: nat): Fill {
    if m.Dollar? then LiteralFill else if FixedMark(m) then FixedFill(k) else VariableFill(m.expression)
  }

  function Next(m: Mark, k: nat): nat {
    if FixedMark(m) then k + 1 else k
  }

  function SealedFills(marks: seq<Mark>, k: nat): (fs: seq<Fill>)
    ensures |fs| == |marks|
  {
    if marks == [] then [] else [SealedFill(marks[0], k)] + SealedFills(marks[1..], Next(marks[0], k))
  }

  function PreparedMarker(m: Mark, i: nat, k: nat): Marker {
    if FixedMark(m) then FixAt(MarkerOf(m, i), k) else MarkerOf(m, i)
  }

  function PreparedMarkers(marks: seq<Mark>, i: nat, k: nat): seq<Marker> {
    if marks == [] then []
    else [PreparedMarker(marks[0], i, k)] + PreparedMarkers(marks[1..], i + 1, Next(marks[0], k))
  }

  function FixedValues(marks: seq<Mark>, b: Bindings): seq<string> {
    if marks == [] then []
    else if FixedMark(marks[0]) && FixedValue(marks[0].expression, b).Ok? && FixedValue(marks[0].expression, b).value.Some?
    then [FixedValue(marks[0].expression, b).value.value] + FixedValues(marks[1..], b)
    else FixedValues(marks[1..], b)
  }

  function Expressions(marks: seq<Mark>): seq<string> {
    if marks == [] then []
    else if marks[0].Slot? && !IsFixed(marks[0].expression) then [marks[0].expression] + Expressions(marks[1..])
    else Expressions(marks[1..])
  }

  // ---------- the condition ----------

  /**
   Mark j, which is no fixed expression, follows a literal dollar, and the text between
   them reads like the inside of sentinel j: the claim's marker for the dollar then
   completes it to a sentinel that stands before the real one.
   */
  predicate Misread(u: seq<string>, marks: seq<Mark>, j: nat)
    requires |u| == |marks| + 1
  {
    0 < j < |marks| && marks[j - 1].Dollar? && !FixedMark(marks[j]) && Spells(u[j], Itoa(j))
  }

  /** Mark j is a fixed expression that follows a mark which is none, and the text between them reads like sentinel j. */
  predicate MisreadFixed(t: seq<string>, marks: seq<Mark>, j: nat)
    requires |t| == |marks| + 1
  {
    0 < j < |marks| && !FixedMark(marks[j - 1]) && FixedMark(marks[j]) && Spells(t[j], Itoa(j))
  }

  ghost predicate PrefixFree(u: seq<string>) {
    forall i :: 0 <= i < |u| ==> Free(TemplatePrefix(), u[i])
  }

  // ---------- the text on both sides of a fill ----------

  function Left(u: seq<string>, done: seq<Fill>): string
    requires |done| < |u|
  {
    Weave(u[..|done| + 1], Texts(done))
  }

  lemma Around(u: seq<string>, done: seq<Fill>, f: Fill, rest: seq<Fill>)
    requires |u| == |done| + 1 + |rest| + 1
    ensures Weave(u, Texts(done + [f] + rest)) == Left(u, done) + Text(f) + Weave(u[|done| + 1..], Texts(rest))
  {
    hide Weave, Text;
    var fs := done + [f] + rest;
    WeaveSplit(u, Texts(fs), |done|);
    assert Texts(fs)[..|done|] == Texts(done) by {
      assert forall i :: 0 <= i < |done| ==> fs[i] == done[i];
    }
    assert Texts(fs)[|done| + 1..] == Texts(rest) by {
      assert forall i :: 0 <= i < |rest| ==> fs[|done| + 1 + i] == rest[i];
    }
    assert Texts(fs)[|done|] == Text(f);
  }

  /** The text before a fill ends with the fill before it and the piece between them. */
  lemma LeftLast(u: seq<string>, done: seq<Fill>)
    requires 0 < |done| < |u|
    ensures var n := |done|;
      Left(u, done) == Left(u, done[..n - 1]) + Text(done[n - 1]) + u[n]
  {
    hide Weave, Text;
    var n := |done|;
    var before := done[..n - 1];
    WeaveSnoc(u[..n], Texts(before), Text(done[n - 1]), u[n]);
    assert u[..n] + [u[n]] == u[..n + 1];
    assert Texts(before) + [Text(done[n - 1])] == Texts(done);
    assert u[..|before| + 1] == u[..n];
  }

  lemma WeaveOne(x: string)
    ensures Weave([x], []) == x
  {
  }

  lemma LeftFirst(u: seq<string>)
    requires u != []
    ensures Left(u, []) == u[0]
  {
    assert u[..1] == [u[0]] && Texts([]) == [];
  }

  lemma IndexBody(i: nat)
    ensures Body(Itoa(i)) && Sentinel(i) == Tag(Itoa(i)) && Itoa(i)[0] != 'L'
  {
  }

  lemma LiteralBody()
    ensures Body(Literal()) && LiteralMarker() == Tag(Literal())
  {
  }

  /** Whether the text before sentinel i spoils the search for it can be told from the last fill and piece. */
  lemma SpoilsAfter(u: seq<string>, done: seq<Fill>, i: nat)
    requires |done| < |u| && PrefixFree(u)
    requires done != [] && done[|done| - 1].VariableFill? ==> done[|done| - 1].e != "" && '$' !in Core()
    ensures Spoils(Left(u, done), Itoa(i)) <==>
      done != [] && (done[|done| - 1].LiteralFill? || done[|done| - 1].SentinelFill?) && Spells(u[|done|], Itoa(i))
  {
    hide Left, Core, Itoa, Literal, Spoils, Spells, Tag, Body, FixedMarker, LiteralMarker;
    IndexBody(i);
    var n := |done|;
    if n == 0 {
      LeftFirst(u);
      PieceSpoilsNot(u[0], Itoa(i));
    } else {
      LeftLast(u, done);
      var a, f, x := Left(u, done[..n - 1]), done[n - 1], u[n];
      if f.LiteralFill? {
        LiteralBody();
        PieceAfterTag(a, Literal(), x, Itoa(i));
      } else if f.SentinelFill? {
        IndexBody(f.i);
        PieceAfterTag(a, Itoa(f.i), x, Itoa(i));
      } else {
        FillEnds(f, i);
        assert (a + Text(f))[|a + Text(f)| - 1] == Text(f)[|Text(f)| - 1];
        PieceAfterOther(a + Text(f), x, Itoa(i));
      }
    }
  }

  lemma PieceSpoilsNot(x: string, c: string)
    requires Body(c) && Free(TemplatePrefix(), x)
    ensures !Spoils(x, c)
  {
    hide Body, Stem, EndsWith;
    PieceAlone(x, c, false);
    PieceAlone(x, c, true);
  }

  lemma FillEnds(f: Fill, i: nat)
    requires f.VariableFill? || f.FixedFill?
    ensures Text(f) != "" && Text(f)[|Text(f)| - 1] !in Sentinel(i)
  {
    hide Literal;
    SentinelQuiet(i);
  }

  /** The characters of a sentinel: no dollar sign, no lower case, no hyphen. */
  lemma SentinelQuiet(i: nat)
    ensures '$' !in Sentinel(i) && 'x' !in Sentinel(i) && 'm' !in Sentinel(i)
  {
    hide Core;
    EdgesOutside();
    forall j | 0 <= j < |Sentinel(i)| ensures Sentinel(i)[j] != '$' && Sentinel(i)[j] != 'x' && Sentinel(i)[j] != 'm' {
      if 2 <= j < 2 + |Core()| {
        assert Sentinel(i)[j] == Core()[j - 2];
      } else if 2 + |Core()| <= j < |Sentinel(i)| - 2 {
        assert Sentinel(i)[j] == Itoa(i)[j - 2 - |Core()|];
      }
    }
  }

  // ---------- what a misplaced marker leaves behind ----------

  /** Nothing before position n of y can be reached by a search for a sentinel behind y. */
  ghost predicate Guarded(y: string, n: nat) {
    || (y != "" && n <= |y| && (y[|y| - 1] == '$' || y[|y| - 1] == 'x'))
    || (n + 2 <= |y| && y[|y| - 2] == '_' && y[|y| - 1] == '_')
  }

  lemma GuardHolds(y: string, x: string, i: nat, at: int, n: nat)
    requires Guarded(y, n) && StemAt(y + x, Itoa(i), at)
    ensures at >= n
  {
    hide Itoa, Stem, Core;
    IndexBody(i);
    StemPairs(Itoa(i));
    SentinelQuiet(i);
    StemChars(i);
    var t, s := Stem(Itoa(i)), y + x;
    var e: bool :| at + |t + Under(e)| == |s| && s[at..] == t + Under(e);
    assert forall j :: at <= j < |s| ==> s[j] == s[at..][j - at] == (t + Under(e))[j - at];
    if at < |y| - 1 {
      var j := |y| - 1 - at;
      assert s[|y| - 1] == y[|y| - 1] && s[|y| - 2] == y[|y| - 2];
      assert (t + Under(e))[j] == y[|y| - 1];
      StemAnywhere(t, e, j);
    }
    if at == |y| - 1 {
      assert s[at] == t[0];
    }
  }

  lemma StemChars(i: nat)
    ensures Stem(Itoa(i)) != "" && Stem(Itoa(i))[0] == '_'
    ensures '$' !in Stem(Itoa(i)) && 'x' !in Stem(Itoa(i))
  {
    hide Itoa, Core;
    IndexBody(i);
    SentinelQuiet(i);
    StemSpelled(Itoa(i));
    var t := Stem(Itoa(i));
    assert Sentinel(i) == t + "__";
    forall c | c in t ensures c in Sentinel(i) {
    }
  }

  lemma StemAnywhere(t: string, e: bool, j: nat)
    requires forall i :: 0 < i < |t| - 1 && t[i] == '_' ==> t[i + 1] != '_'
    requires t != "" && t[|t| - 1] != '_' && 0 < j < |t + Under(e)|
    requires '$' !in t && 'x' !in t
    ensures var y := t + Under(e); y[j] != '$' && y[j] != 'x' && (j > 1 ==> !(y[j] == '_' && y[j - 1] == '_'))
  {
    if j < |t| {
      assert t[j] in t;
    }
  }

  // ---------- the claim's own markers ----------

  function RestoreWord(m: Mark): string {
    if m.Dollar? then LiteralMarker() else "$" + m.expression + "$"
  }

  function RestoreState(m: Mark, i: nat, state: Restored): Restored {
    if FixedMark(m) then state
    else if m.Dollar? then state.(target := ReplaceFirst(state.target, Sentinel(i), LiteralMarker()))
    else Restored(ReplaceFirst(state.target, Sentinel(i), "$" + m.expression + "$"), state.expressions + [m.expression])
  }

  lemma RestoreStep(marks: seq<Mark>, i: nat, k: nat, state: Restored)
    requires marks != [] && Restore(PreparedMarkers(marks, i, k), state).Ok?
    ensures Restore(PreparedMarkers(marks, i, k), state)
         == Restore(PreparedMarkers(marks[1..], i + 1, Next(marks[0], k)), RestoreState(marks[0], i, state))
    ensures !FixedMark(marks[0]) ==>
      && Sentinel(i) != "" && Count(Sentinel(i), state.target) == 1
      && RestoreState(marks[0], i, state).target == ReplaceFirst(state.target, Sentinel(i), RestoreWord(marks[0]))
  {
    hide Sentinel, IsFixed, Count, ReplaceFirst, FixedMarker;
    SentinelNonempty(i);
    var ms := PreparedMarkers(marks, i, k);
    assert ms[0] == PreparedMarker(marks[0], i, k) && ms[1..] == PreparedMarkers(marks[1..], i + 1, Next(marks[0], k));
  }

  lemma SentinelNonempty(i: nat)
    ensures Sentinel(i) != ""
  {
  }

  lemma RestoreJoin(marks: seq<Mark>, i: nat, state: Restored)
    requires marks != []
    ensures RestoreState(marks[0], i, state).expressions + Expressions(marks[1..]) == state.expressions + Expressions(marks)
  {
    hide ReplaceFirst, IsFixed, Sentinel;
    var m, rest := marks[0], Expressions(marks[1..]);
    if m.Slot? {
      assert (state.expressions + [m.expression]) + rest == state.expressions + ([m.expression] + rest);
    }
  }

  lemma SealedJoin(marks: seq<Mark>, k: nat, done: seq<Fill>)
    requires marks != []
    ensures (done + [SealedFill(marks[0], k)]) + SealedFills(marks[1..], Next(marks[0], k)) == done + SealedFills(marks, k)
    ensures done + SealedFills(marks, k)
         == done + [SealedFill(marks[0], k)] + SealedFills(marks[1..], Next(marks[0], k))
  {
    hide SealedFill, Next;
  }

  lemma ClaimJoin(marks: seq<Mark>, i: nat, k: nat, done: seq<Fill>)
    requires marks != []
    ensures done + ClaimFills(marks, i, k)
         == done + [ClaimFill(marks[0], i, k)] + ClaimFills(marks[1..], i + 1, Next(marks[0], k))
  {
    hide ClaimFill, Next;
  }

  /** No sentinel that the second pass replaces is spoiled by the text before it. */
  ghost predicate InPlace(marks: seq<Mark>, i: nat, k: nat, u: seq<string>, done: seq<Fill>)
    requires |u| == |done| + |marks| + 1
    decreases |marks|
  {
    marks == []
    || ((FixedMark(marks[0]) || !Spoils(Left(u, done), Itoa(i)))
        && InPlace(marks[1..], i + 1, Next(marks[0], k), u, done + [SealedFill(marks[0], k)]))
  }

  lemma GuardedByWord(left: string, m: Mark, n: nat)
    requires n <= |left|
    ensures Guarded(left + RestoreWord(m), n)
  {
    hide Core, Literal;
    LiteralBody();
    StemSpelled(Literal());
  }

  lemma GuardedByRemnant(left: string, c: string, e: bool, n: nat)
    requires n <= |left|
    ensures Guarded(left + Remnant(c, e), n)
  {
    hide Core;
  }

  lemma GuardedByFixed(left: string, k: nat, n: nat)
    requires n <= |left|
    ensures Guarded(left + FixedMarker(k), n)
  {
    hide FixedCore;
  }

  lemma FirstFill(y: string, u: seq<string>, f: Fill, rest: seq<Fill>)
    requires |u| == |rest| + 2
    ensures y + Weave(u, Texts([f] + rest)) == (y + u[0]) + Text(f) + Weave(u[1..], Texts(rest))
  {
    hide Text, Weave;
    assert Texts([f] + rest)[1..] == Texts(rest);
    assert Texts([f] + rest)[0] == Text(f);
    WeaveStep(u, Texts([f] + rest));
    Associates(y, u[0], Text(f), Weave(u[1..], Texts(rest)));
  }

  lemma WeaveStep(texts: seq<string>, fills: seq<string>)
    requires |texts| == |fills| + 1 && fills != []
    ensures Weave(texts, fills) == texts[0] + fills[0] + Weave(texts[1..], fills[1..])
  {
  }

  lemma Associates(a: string, b: string, c: string, d: string)
    ensures a + (b + c + d) == (a + b) + c + d
  {
  }

  /** However the later sentinels are replaced, what is guarded stays. */
  lemma {:induction false} LaterKeeps(marks: seq<Mark>, i: nat, k: nat, y: string, u: seq<string>, n: nat, state: Restored)
    requires |u| == |marks| + 1 && Guarded(y, n)
    requires state.target == y + Weave(u, Texts(ClaimFills(marks, i, k)))
    requires Restore(PreparedMarkers(marks, i, k), state).Ok?
    ensures n <= |y|
    ensures var r := Restore(PreparedMarkers(marks, i, k), state).value; n <= |r.target| && r.target[..n] == y[..n]
    decreases |marks|
  {
    hide Weave, Text, Restore, PreparedMarkers, FixedMark, Count, ReplaceFirst, Itoa, Guarded, RestoreState, Sentinel;
    if marks == [] {
      Unrestored(i, k, state);
      GuardedLength(y, n);
    } else {
      GuardedLength(y, n);
      var m := marks[0];
      var rest := ClaimFills(marks[1..], i + 1, Next(m, k));
      FirstFill(y, u, ClaimFill(m, i, k), rest);
      RestoreStep(marks, i, k, state);
      var next := RestoreState(m, i, state);
      var y1 := LaterStep(marks, i, k, y, u, n, state);
      LaterKeeps(marks[1..], i + 1, Next(m, k), y1, u[1..], n, next);
    }
  }

  lemma GuardedLength(y: string, n: nat)
    requires Guarded(y, n)
    ensures n <= |y|
  {
  }

  lemma Unrestored(i: nat, k: nat, state: Restored)
    ensures Restore(PreparedMarkers([], i, k), state) == Ok(state)
  {
  }

  lemma LaterStep(marks: seq<Mark>, i: nat, k: nat, y: string, u: seq<string>, n: nat, state: Restored) returns (y1: string)
    requires marks != [] && |u| == |marks| + 1 && Guarded(y, n) && n <= |y|
    requires var m := marks[0]; var rest := ClaimFills(marks[1..], i + 1, Next(m, k));
      && state.target == (y + u[0]) + Text(ClaimFill(m, i, k)) + Weave(u[1..], Texts(rest))
      && (!FixedMark(m) ==>
           Sentinel(i) != "" && Count(Sentinel(i), state.target) == 1
           && RestoreState(m, i, state).target == ReplaceFirst(state.target, Sentinel(i), RestoreWord(m)))
    ensures Guarded(y1, n) && n <= |y1| && y1[..n] == y[..n]
    ensures RestoreState(marks[0], i, state).target
         == y1 + Weave(u[1..], Texts(ClaimFills(marks[1..], i + 1, Next(marks[0], k))))
  {
    hide Weave, Count, ReplaceFirst, Itoa, Guarded, Core, FixedMarker, Tag, Spoils, StemAt, LiteralMarker, Body, IsFixed;
    var m, left := marks[0], y + u[0];
    var right := Weave(u[1..], Texts(ClaimFills(marks[1..], i + 1, Next(m, k))));
    if FixedMark(m) {
      y1 := left + FixedMarker(k);
      GuardedByFixed(left, k, n);
    } else {
      IndexBody(i);
      CountedOnce(Sentinel(i), state.target);
      if Spoils(left, Itoa(i)) {
        var at, e := TagMisplaced(left, Itoa(i), right, RestoreWord(m));
        GuardHolds(y, u[0], i, at, n);
        y1 := left[..at] + RestoreWord(m) + Remnant(Itoa(i), e);
        GuardedByRemnant(left[..at] + RestoreWord(m), Itoa(i), e, n);
      } else {
        TagReplaced(left, Itoa(i), right, RestoreWord(m));
        y1 := left + RestoreWord(m);
        GuardedByWord(left, m, n);
      }
    }
  }

  /** A misplaced marker shows: where the text before the sentinel should stand, the marker does. */
  lemma WordShows(left: string, i: nat, m: Mark, at: nat) returns (n: nat)
    requires StemAt(left, Itoa(i), at)
    ensures at + n <= |left| && n <= |RestoreWord(m)| && RestoreWord(m)[..n] != left[at..at + n]
  {
    hide Core, Itoa, Literal, StemAt;
    IndexBody(i);
    StemSpelled(Itoa(i));
    StemSpoils(left, Itoa(i), at);
    var t := Stem(Itoa(i));
    var x := left[at..at + |t|];
    if m.Dollar? {
      LiteralBody();
      StemSpelled(Literal());
      LiteralShape();
      n := 26;
      assert RestoreWord(m)[25] == Stem(Literal())[25] == 'L';
      assert left[at..at + n][25] == x[25] == Itoa(i)[0];
    } else {
      n := 1;
      assert left[at..at + n][0] == x[0];
    }
  }

  lemma {:induction false} RestoreExact(marks: seq<Mark>, i: nat, k: nat, u: seq<string>, done: seq<Fill>, state: Restored)
    requires |u| == |done| + |marks| + 1
    requires state.target == Weave(u, Texts(done + ClaimFills(marks, i, k)))
    requires Restore(PreparedMarkers(marks, i, k), state).Ok?
    ensures var r := Restore(PreparedMarkers(marks, i, k), state).value;
      && r.expressions == state.expressions + Expressions(marks)
      && (r.target == Weave(u, Texts(done + SealedFills(marks, k))) <==> InPlace(marks, i, k, u, done))
    decreases |marks|
  {
    hide Weave, Text, Restore, PreparedMarkers, FixedMark, Count, ReplaceFirst, Itoa, RestoreState, Sentinel, Spoils, Left, Expressions;
    if marks == [] {
      Unrestored(i, k, state);
      assert done + ClaimFills(marks, i, k) == done + SealedFills(marks, k);
      assert state.expressions + [] == state.expressions && Expressions([]) == [] by { NoExpressions(); }
    } else {
      var m := marks[0];
      var next := RestoreState(m, i, state);
      RestoreStep(marks, i, k, state);
      RestoreJoin(marks, i, state);
      RestoreExpressions(marks[1..], i + 1, Next(m, k), next);
      if FixedMark(m) || !Spoils(Left(u, done), Itoa(i)) {
        RestoredRight(marks, i, k, u, done, state);
        SealedJoin(marks, k, done);
        RestoreExact(marks[1..], i + 1, Next(m, k), u, done + [SealedFill(m, k)], next);
      } else {
        RestoredWrong(marks, i, k, u, done, state);
      }
    }
  }

  lemma NoExpressions()
    ensures Expressions([]) == []
  {
  }

  lemma {:induction false} RestoreExpressions(marks: seq<Mark>, i: nat, k: nat, state: Restored)
    requires Restore(PreparedMarkers(marks, i, k), state).Ok?
    ensures Restore(PreparedMarkers(marks, i, k), state).value.expressions == state.expressions + Expressions(marks)
    decreases |marks|
  {
    hide Restore, PreparedMarkers, FixedMark, Count, ReplaceFirst, Itoa, RestoreState, Sentinel, Expressions;
    if marks == [] {
      Unrestored(i, k, state);
      NoExpressions();
      assert state.expressions + [] == state.expressions;
    } else {
      RestoreStep(marks, i, k, state);
      RestoreJoin(marks, i, state);
      RestoreExpressions(marks[1..], i + 1, Next(marks[0], k), RestoreState(marks[0], i, state));
    }
  }

  lemma RestoredRight(marks: seq<Mark>, i: nat, k: nat, u: seq<string>, done: seq<Fill>, state: Restored)
    requires marks != [] && |u| == |done| + |marks| + 1
    requires state.target == Weave(u, Texts(done + ClaimFills(marks, i, k)))
    requires !FixedMark(marks[0]) ==>
      && Sentinel(i) != "" && Count(Sentinel(i), state.target) == 1 && !Spoils(Left(u, done), Itoa(i))
      && RestoreState(marks[0], i, state).target == ReplaceFirst(state.target, Sentinel(i), RestoreWord(marks[0]))
    ensures RestoreState(marks[0], i, state).target
         == Weave(u, Texts((done + [SealedFill(marks[0], k)]) + ClaimFills(marks[1..], i + 1, Next(marks[0], k))))
  {
    hide Weave, Count, ReplaceFirst, Itoa, Core, Tag, Spoils, Left, Body, IsFixed, LiteralMarker, FixedMarker;
    var m, rest := marks[0], ClaimFills(marks[1..], i + 1, Next(marks[0], k));
    ClaimJoin(marks, i, k, done);
    Around(u, done, ClaimFill(m, i, k), rest);
    Around(u, done, SealedFill(m, k), rest);
    if !FixedMark(m) {
      IndexBody(i);
      CountedOnce(Sentinel(i), state.target);
      TagReplaced(Left(u, done), Itoa(i), Weave(u[|done| + 1..], Texts(rest)), RestoreWord(m));
    }
  }

  lemma RestoredWrong(marks: seq<Mark>, i: nat, k: nat, u: seq<string>, done: seq<Fill>, state: Restored)
    requires marks != [] && |u| == |done| + |marks| + 1 && !FixedMark(marks[0]) && Spoils(Left(u, done), Itoa(i))
    requires state.target == Weave(u, Texts(done + ClaimFills(marks, i, k)))
    requires Sentinel(i) != "" && Count(Sentinel(i), state.target) == 1
    requires RestoreState(marks[0], i, state).target == ReplaceFirst(state.target, Sentinel(i), RestoreWord(marks[0]))
    requires Restore(PreparedMarkers(marks[1..], i + 1, Next(marks[0], k)), RestoreState(marks[0], i, state)).Ok?
    ensures Restore(PreparedMarkers(marks[1..], i + 1, Next(marks[0], k)), RestoreState(marks[0], i, state)).value.target
         != Weave(u, Texts(done + SealedFills(marks, k)))
  {
    hide Weave, Count, ReplaceFirst, Itoa, Spoils, Left, IsFixed, RestoreWord, RestoreState, Restore, PreparedMarkers, Sentinel;
    var m, rest := marks[0], ClaimFills(marks[1..], i + 1, Next(marks[0], k));
    ClaimJoin(marks, i, k, done);
    Around(u, done, ClaimFill(m, i, k), rest);
    SealedJoin(marks, k, done);
    Around(u, done, SealedFill(m, k), SealedFills(marks[1..], Next(m, k)));
    NeverRight(marks[1..], i, Next(m, k), Left(u, done), u[|done| + 1..], m, RestoreState(m, i, state),
               Weave(u, Texts(done + SealedFills(marks, k))));
  }

  /** Once one marker is misplaced, the text in front of it never comes out right. */
  lemma NeverRight(rest: seq<Mark>, i: nat, k: nat, left: string, u: seq<string>, m: Mark, next: Restored, s: string)
    requires |u| == |rest| + 1 && Spoils(left, Itoa(i)) && left <= s
    requires var all := left + Sentinel(i) + Weave(u, Texts(ClaimFills(rest, i + 1, k)));
      Sentinel(i) != "" && Count(Sentinel(i), all) == 1 && next.target == ReplaceFirst(all, Sentinel(i), RestoreWord(m))
    requires Restore(PreparedMarkers(rest, i + 1, k), next).Ok?
    ensures Restore(PreparedMarkers(rest, i + 1, k), next).value.target != s
  {
    hide Weave, Count, ReplaceFirst, Itoa, Core, Tag, Spoils, Body, RestoreWord, Restore, PreparedMarkers, StemAt, Remnant, Guarded;
    var right := Weave(u, Texts(ClaimFills(rest, i + 1, k)));
    IndexBody(i);
    CountedOnce(Sentinel(i), left + Sentinel(i) + right);
    var at, e := TagMisplaced(left, Itoa(i), right, RestoreWord(m));
    var n := WordShows(left, i, m, at);
    var y := left[..at] + RestoreWord(m) + Remnant(Itoa(i), e);
    GuardedByRemnant(left[..at] + RestoreWord(m), Itoa(i), e, at + n);
    LaterKeeps(rest, i + 1, k, y, u, at + n, next);
    PrefixesDiffer(Restore(PreparedMarkers(rest, i + 1, k), next).value.target, left, s, at, n, RestoreWord(m), y);
  }

  lemma PrefixesDiffer(r: string, left: string, s: string, at: nat, n: nat, w: string, y: string)
    requires at + n <= |left| && n <= |w| && w[..n] != left[at..at + n] && left <= s
    requires left[..at] + w <= y && at + n <= |r| && r[..at + n] == y[..at + n]
    ensures r != s
  {
    var j :| 0 <= j < n && w[..n][j] != left[at..at + n][j];
    assert r[..at + n][at + j] == y[..at + n][at + j];
    assert (left[..at] + w)[at + j] == w[j];
    Differ(r, s, at + j);
  }

  // ---------- the fixed expressions get their markers ----------

  lemma MarkFixed(m: Mark, b: Bindings)
    requires m.Slot? && Identifier(m.expression).Some? && FixedValue(m.expression, b).Ok?
    ensures FixedMark(m) <==> FixedValue(m.expression, b).value.Some?
  {
  }

  function StepState(m: Mark, i: nat, b: Bindings, state: Prepared): Prepared {
    var k := |state.fixedValues|;
    if FixedMark(m) && FixedValue(m.expression, b).Ok? && FixedValue(m.expression, b).value.Some? then
      Prepared(ReplaceFirst(state.claimText, Sentinel(i), FixedMarker(k)), state.markers + [PreparedMarker(m, i, k)],
               state.fixedValues + [FixedValue(m.expression, b).value.value])
    else state.(markers := state.markers + [MarkerOf(m, i)])
  }

  lemma PrepareStep(marks: seq<Mark>, i: nat, p: Parts, b: Bindings, state: Prepared)
    requires marks != [] && MarksOk(marks) && Prepare(MarkersOf(marks, i), p, b, state).Ok?
    ensures Prepare(MarkersOf(marks, i), p, b, state)
         == Prepare(MarkersOf(marks[1..], i + 1), p, b, StepState(marks[0], i, b, state))
    ensures FixedMark(marks[0]) ==> FixedValue(marks[0].expression, b).Ok? && FixedValue(marks[0].expression, b).value.Some?
    ensures Sentinel(i) != "" && Marked(Sentinel(i), p) == 1
  {
    hide Sentinel, Marked, FixedMark, FixedValue, Identifier, Count, ReplaceFirst, FixedMarker;
    var m := marks[0];
    var ms := MarkersOf(marks, i);
    assert ms[0] == MarkerOf(m, i) && ms[1..] == MarkersOf(marks[1..], i + 1);
    if m.Slot? {
      assert FixedValue(m.expression, b).Ok?;
      MarkFixed(m, b);
    } else {
      NotFixed(m);
    }
  }

  lemma NotFixed(m: Mark)
    requires m.Dollar?
    ensures !FixedMark(m)
  {
  }

  /** Every sentinel is counted once in the parts of the reference. */
  lemma {:induction false} SentinelsMarked(marks: seq<Mark>, i: nat, p: Parts, b: Bindings, state: Prepared)
    requires MarksOk(marks) && Prepare(MarkersOf(marks, i), p, b, state).Ok?
    ensures forall j :: i <= j < i + |marks| ==> Sentinel(j) != "" && Marked(Sentinel(j), p) == 1
    decreases |marks|
  {
    hide Sentinel, Marked, Prepare, MarkersOf, StepState, Identifier, FixedMark, FixedValue;
    if marks != [] {
      PrepareStep(marks, i, p, b, state);
      SentinelsMarked(marks[1..], i + 1, p, b, StepState(marks[0], i, b, state));
    }
  }

  ghost predicate Sparse(i: nat, n: nat, s: string) {
    forall j :: i <= j < i + n ==> NoPair(Sentinel(j), s)
  }

  /** A fixed marker has no character in common with the edges of a sentinel, so putting it in makes no new sentinel. */
  lemma NoPairKept(i: nat, a: string, v: string, b: string, k: nat)
    requires NoPair(Sentinel(i), a + v + b)
    ensures NoPair(Sentinel(i), a + FixedMarker(k) + b)
  {
    hide Sentinel, FixedMarker, OccursAt;
    var t, w := Sentinel(i), FixedMarker(k);
    forall p, q | OccursAt(t, a + w + b, p) && OccursAt(t, a + w + b, q) && p < q ensures q < p + |t| {
      var p1 := if p + |t| <= |a| then p else p - |w| + |v|;
      var q1 := if q + |t| <= |a| then q else q - |w| + |v|;
      OutsideFixed(i, a, v, b, k, p);
      OutsideFixed(i, a, v, b, k, q);
      SentinelNonempty(i);
      assert OccursAt(t, a + v + b, p1) && OccursAt(t, a + v + b, q1);
    }
  }

  lemma OutsideFixed(i: nat, a: string, v: string, b: string, k: nat, p: int)
    ensures var t, w := Sentinel(i), FixedMarker(k);
      OccursAt(t, a + w + b, p) ==>
      || (p + |t| <= |a| && OccursAt(t, a + v + b, p))
      || (p >= |a| + |w| && OccursAt(t, a + v + b, p - |w| + |v|))
  {
    hide Core;
    SentinelQuiet(i);
    FixedEdges(k);
    hide Sentinel, FixedMarker;
    var t, w, s := Sentinel(i), FixedMarker(k), a + FixedMarker(k) + b;
    if 0 <= p && p + |t| <= |s| {
      if p + |t| <= |a| {
        Leftwards(t, a, w + b, v + b, p);
        assert a + (w + b) == s && a + (v + b) == a + v + b;
      } else if p >= |a| + |w| {
        OccursShifted(t, a + w, b, p - |a + w|);
        OccursShifted(t, a + v, b, p - |a + w|);
      } else {
        SentinelStart(i);
        InsideFixed(t, w, a, b, p);
      }
    }
  }

  lemma Leftwards(t: string, a: string, x: string, y: string, p: nat)
    requires p + |t| <= |a|
    ensures OccursAt(t, a + x, p) == OccursAt(t, a + y, p)
  {
    assert (a + x)[p..p + |t|] == a[p..p + |t|] == (a + y)[p..p + |t|];
  }

  lemma SentinelStart(i: nat)
    ensures Sentinel(i) != "" && Sentinel(i)[0] == '_'
  {
  }

  lemma FixedEdges(k: nat)
    ensures var w := FixedMarker(k); w != "" && w[0] == 'm' && w[|w| - 1] == 'x' && '_' !in w
  {
    hide FixedCore;
    FixedCoreShape();
    var w := FixedMarker(k);
    forall j | 0 <= j < |w| ensures w[j] != '_' {
      if j < 20 {
        assert w[j] == FixedCore()[j];
      } else {
        assert w[j] == (Itoa(k) + "-x")[j - 20];
      }
    }
  }

  lemma InsideFixed(t: string, w: string, a: string, b: string, p: nat)
    requires t != "" && t[0] == '_' && w != "" && w[0] !in t && w[|w| - 1] !in t && '_' !in w
    requires p < |a| + |w| && |a| < p + |t|
    ensures !OccursAt(t, a + w + b, p)
  {
    var s := a + w + b;
    if p <= |a| {
      assert s[|a|] == w[0];
      if |a| < |s| {
        assert t[|a| - p] in t;
        Mismatch(t, s, p, |a| - p);
      }
    } else {
      assert s[p] == w[p - |a|];
      Mismatch(t, s, p, 0);
    }
  }

  /** No sentinel of a fixed expression is spoiled by the text before it in the first pass. */
  ghost predicate FixedInPlace(marks: seq<Mark>, i: nat, k: nat, t: seq<string>, done: seq<Fill>)
    requires |t| == |done| + |marks| + 1
    decreases |marks|
  {
    marks == []
    || ((FixedMark(marks[0]) ==> !Spoils(Left(t, done), Itoa(i)))
        && FixedInPlace(marks[1..], i + 1, Next(marks[0], k), t, done + [ClaimFill(marks[0], i, k)]))
  }

  lemma SentinelJoin(i: nat, n: nat, done: seq<Fill>)
    requires n > 0
    ensures done + SentinelFills(i, n) == done + [SentinelFill(i)] + SentinelFills(i + 1, n - 1)
    ensures SentinelFills(i, n) == [SentinelFill(i)] + SentinelFills(i + 1, n - 1)
  {
  }

  ghost predicate Fixable(marks: seq<Mark>, b: Bindings) {
    forall m :: m in marks && FixedMark(m) ==> FixedValue(m.expression, b).Ok? && FixedValue(m.expression, b).value.Some?
  }

  /** Whatever happens to the text, the markers and the fixed values come out in order. */
  lemma {:induction false} PreparedList(marks: seq<Mark>, i: nat, p: Parts, b: Bindings, state: Prepared)
    requires MarksOk(marks) && Prepare(MarkersOf(marks, i), p, b, state).Ok?
    ensures var r := Prepare(MarkersOf(marks, i), p, b, state).value;
      && r.markers == state.markers + PreparedMarkers(marks, i, |state.fixedValues|)
      && r.fixedValues == state.fixedValues + FixedValues(marks, b) && Fixable(marks, b)
    decreases |marks|
  {
    hide Sentinel, Marked, FixedMark, FixedValue, Identifier, Count, ReplaceFirst, FixedMarker, Prepare;
    if marks == [] {
      Unprepared(i, p, b, state);
      assert state.markers + [] == state.markers && state.fixedValues + [] == state.fixedValues;
    } else {
      var m, k := marks[0], |state.fixedValues|;
      var next := StepState(m, i, b, state);
      PrepareStep(marks, i, p, b, state);
      PreparedList(marks[1..], i + 1, p, b, next);
      assert next.markers + PreparedMarkers(marks[1..], i + 1, |next.fixedValues|) == state.markers + PreparedMarkers(marks, i, k);
      assert next.fixedValues + FixedValues(marks[1..], b) == state.fixedValues + FixedValues(marks, b);
    }
  }

  lemma Unprepared(i: nat, p: Parts, b: Bindings, state: Prepared)
    ensures Prepare(MarkersOf([], i), p, b, state) == Ok(state)
  {
  }

  lemma StepCounts(m: Mark, i: nat, b: Bindings, state: Prepared)
    requires FixedMark(m) ==> FixedValue(m.expression, b).Ok? && FixedValue(m.expression, b).value.Some?
    ensures |StepState(m, i, b, state).fixedValues| == Next(m, |state.fixedValues|)
    ensures StepState(m, i, b, state).claimText
         == if FixedMark(m) then ReplaceFirst(state.claimText, Sentinel(i), FixedMarker(|state.fixedValues|)) else state.claimText
  {
    hide FixedValue, ReplaceFirst;
  }

  lemma SparseKept(i: nat, n: nat, a: string, v: string, b: string, k: nat)
    requires Sparse(i, n, a + v + b)
    ensures Sparse(i, n, a + FixedMarker(k) + b)
  {
    hide Sentinel, FixedMarker, NoPair;
    forall j | i <= j < i + n ensures NoPair(Sentinel(j), a + FixedMarker(k) + b) {
      NoPairKept(j, a, v, b, k);
    }
  }

  lemma FixedShows(left: string, i: nat, k: nat, at: nat)
    requires StemAt(left, Itoa(i), at)
    ensures at + 1 <= |left| && 1 <= |FixedMarker(k)| && FixedMarker(k)[..1] != left[at..at + 1]
  {
    hide Core, Itoa, StemAt, FixedMarker;
    FixedEdges(k);
    IndexBody(i);
    StemSpelled(Itoa(i));
    StemSpoils(left, Itoa(i), at);
    var x := left[at..at + |Stem(Itoa(i))|];
    assert left[at..at + 1][0] == x[0] == '_';
  }

  /** The text after the first pass, from a state whose sentinels do not occur side by side. */
  lemma {:induction false} PreparedKeeps(marks: seq<Mark>, i: nat, y: string, t: seq<string>, n: nat, p: Parts, b: Bindings,
                                         state: Prepared)
    requires |t| == |marks| + 1 && Guarded(y, n) && MarksOk(marks) && Sparse(i, |marks|, state.claimText)
    requires state.claimText == y + Weave(t, Texts(SentinelFills(i, |marks|)))
    requires Prepare(MarkersOf(marks, i), p, b, state).Ok?
    ensures n <= |y|
    ensures var r := Prepare(MarkersOf(marks, i), p, b, state).value; n <= |r.claimText| && r.claimText[..n] == y[..n]
    decreases |marks|
  {
    hide Weave, Text, Prepare, MarkersOf, FixedMark, Itoa, Guarded, StepState, Sentinel, NoPair, FixedValue, Identifier, Sparse;
    GuardedLength(y, n);
    if marks == [] {
      Unprepared(i, p, b, state);
    } else {
      var m := marks[0];
      var rest := SentinelFills(i + 1, |marks| - 1);
      FirstFill(y, t, SentinelFill(i), rest);
      PrepareStep(marks, i, p, b, state);
      StepCounts(m, i, b, state);
      var next := StepState(m, i, b, state);
      var y1 := PreparedLater(m, i, |marks|, y, t, n, b, state);
      PreparedKeeps(marks[1..], i + 1, y1, t[1..], n, p, b, next);
    }
  }

  lemma SentinelsGuard(left: string, i: nat, n: nat)
    requires n <= |left|
    ensures Guarded(left + Sentinel(i), n)
  {
    hide Core;
  }

  lemma PreparedLater(m: Mark, i: nat, count: nat, y: string, t: seq<string>, n: nat, b: Bindings, state: Prepared)
    returns (y1: string)
    requires count > 0 && |t| == count + 1 && Guarded(y, n) && n <= |y| && Sparse(i, count, state.claimText)
    requires var rest := SentinelFills(i + 1, count - 1); var next := StepState(m, i, b, state);
      && state.claimText == (y + t[0]) + Text(SentinelFill(i)) + Weave(t[1..], Texts(rest))
      && next.claimText
           == (if FixedMark(m) then ReplaceFirst(state.claimText, Sentinel(i), FixedMarker(|state.fixedValues|)) else state.claimText)
    ensures Guarded(y1, n) && n <= |y1| && y1[..n] == y[..n]
    ensures var next := StepState(m, i, b, state);
      && next.claimText == y1 + Weave(t[1..], Texts(SentinelFills(i + 1, count - 1)))
      && Sparse(i + 1, count - 1, next.claimText)
  {
    hide Weave, ReplaceFirst, Itoa, Guarded, Core, FixedMarker, Tag, Spoils, StemAt, Body, IsFixed, StepState, NoPair;
    var left, k := y + t[0], |state.fixedValues|;
    var right := Weave(t[1..], Texts(SentinelFills(i + 1, count - 1)));
    IndexBody(i);
    if !FixedMark(m) {
      y1 := left + Sentinel(i);
      SentinelsGuard(left, i, n);
    } else if Spoils(left, Itoa(i)) {
      var at, e := TagMisplaced(left, Itoa(i), right, FixedMarker(k));
      GuardHolds(y, t[0], i, at, n);
      y1 := left[..at] + FixedMarker(k) + Remnant(Itoa(i), e);
      GuardedByRemnant(left[..at] + FixedMarker(k), Itoa(i), e, n);
      MisplacedSparse(i, count, left, right, k);
    } else {
      TagReplaced(left, Itoa(i), right, FixedMarker(k));
      y1 := left + FixedMarker(k);
      GuardedByFixed(left, k, n);
      SparseKept(i + 1, count - 1, left, Sentinel(i), right, k);
    }
  }

  /** Wherever a sentinel is found, replacing it by a fixed marker keeps the others apart. */
  lemma MisplacedSparse(i: nat, count: nat, left: string, right: string, k: nat)
    requires count > 0 && Sparse(i, count, left + Sentinel(i) + right)
    ensures Sparse(i + 1, count - 1, ReplaceFirst(left + Sentinel(i) + right, Sentinel(i), FixedMarker(k)))
  {
    hide Sentinel, FixedMarker, NoPair;
    var s, v := left + Sentinel(i) + right, Sentinel(i);
    Found(v, s);
    OccursHere(v, left, right);
    var at := Find(v, s);
    assert s == s[..at] + v + s[at + |v|..];
    SparseKept(i + 1, count - 1, s[..at], v, s[at + |v|..], k);
  }

  lemma {:induction false} PrepareExact(marks: seq<Mark>, i: nat, t: seq<string>, done: seq<Fill>, p: Parts, b: Bindings, state: Prepared)
    requires |t| == |done| + |marks| + 1 && MarksOk(marks) && Sparse(i, |marks|, state.claimText)
    requires state.claimText == Weave(t, Texts(done + SentinelFills(i, |marks|)))
    requires Prepare(MarkersOf(marks, i), p, b, state).Ok?
    ensures var k := |state.fixedValues|;
      Prepare(MarkersOf(marks, i), p, b, state).value.claimText == Weave(t, Texts(done + ClaimFills(marks, i, k)))
      <==> FixedInPlace(marks, i, k, t, done)
    decreases |marks|
  {
    hide Weave, Text, Prepare, MarkersOf, FixedMark, Itoa, StepState, Sentinel, NoPair, FixedValue, Identifier, Sparse, Spoils, Left;
    var k := |state.fixedValues|;
    if marks == [] {
      Unprepared(i, p, b, state);
      assert done + SentinelFills(i, 0) == done + ClaimFills(marks, i, k);
    } else {
      var m := marks[0];
      var next := StepState(m, i, b, state);
      PrepareStep(marks, i, p, b, state);
      StepCounts(m, i, b, state);
      if FixedMark(m) && Spoils(Left(t, done), Itoa(i)) {
        PreparedWrong(marks, i, t, done, p, b, state);
      } else {
        PreparedRight(marks, i, t, done, b, state);
        ClaimJoin(marks, i, k, done);
        assert (done + [ClaimFill(m, i, k)]) + ClaimFills(marks[1..], i + 1, Next(m, k)) == done + ClaimFills(marks, i, k);
        PrepareExact(marks[1..], i + 1, t, done + [ClaimFill(m, i, k)], p, b, next);
      }
    }
  }

  lemma PreparedRight(marks: seq<Mark>, i: nat, t: seq<string>, done: seq<Fill>, b: Bindings, state: Prepared)
    requires marks != [] && |t| == |done| + |marks| + 1 && Sparse(i, |marks|, state.claimText)
    requires state.claimText == Weave(t, Texts(done + SentinelFills(i, |marks|)))
    requires FixedMark(marks[0]) ==> !Spoils(Left(t, done), Itoa(i))
    requires StepState(marks[0], i, b, state).claimText
          == (if FixedMark(marks[0]) then ReplaceFirst(state.claimText, Sentinel(i), FixedMarker(|state.fixedValues|)) else state.claimText)
    ensures var k := |state.fixedValues|; var next := StepState(marks[0], i, b, state);
      && next.claimText == Weave(t, Texts((done + [ClaimFill(marks[0], i, k)]) + SentinelFills(i + 1, |marks| - 1)))
      && Sparse(i + 1, |marks| - 1, next.claimText)
  {
    hide Weave, ReplaceFirst, Itoa, Core, FixedMarker, Tag, Spoils, Body, IsFixed, StepState, NoPair, Left;
    var m, k, rest := marks[0], |state.fixedValues|, SentinelFills(i + 1, |marks| - 1);
    SentinelJoin(i, |marks|, done);
    Around(t, done, SentinelFill(i), rest);
    Around(t, done, ClaimFill(m, i, k), rest);
    if FixedMark(m) {
      var right := Weave(t[|done| + 1..], Texts(rest));
      IndexBody(i);
      TagReplaced(Left(t, done), Itoa(i), right, FixedMarker(k));
      SparseKept(i + 1, |marks| - 1, Left(t, done), Sentinel(i), right, k);
    }
  }

  lemma PreparedWrong(marks: seq<Mark>, i: nat, t: seq<string>, done: seq<Fill>, p: Parts, b: Bindings, state: Prepared)
    requires marks != [] && |t| == |done| + |marks| + 1 && MarksOk(marks) && Sparse(i, |marks|, state.claimText)
    requires state.claimText == Weave(t, Texts(done + SentinelFills(i, |marks|)))
    requires FixedMark(marks[0]) && Spoils(Left(t, done), Itoa(i))
    requires StepState(marks[0], i, b, state).claimText == ReplaceFirst(state.claimText, Sentinel(i), FixedMarker(|state.fixedValues|))
    requires Prepare(MarkersOf(marks[1..], i + 1), p, b, StepState(marks[0], i, b, state)).Ok?
    ensures Prepare(MarkersOf(marks[1..], i + 1), p, b, StepState(marks[0], i, b, state)).value.claimText
         != Weave(t, Texts(done + ClaimFills(marks, i, |state.fixedValues|)))
  {
    hide Weave, ReplaceFirst, Itoa, Core, FixedMarker, Tag, Spoils, Body, IsFixed, StepState, NoPair, Left, Prepare, MarkersOf,
      StemAt, Remnant, Guarded, Identifier;
    var m, k, rest := marks[0], |state.fixedValues|, SentinelFills(i + 1, |marks| - 1);
    var left, right := Left(t, done), Weave(t[|done| + 1..], Texts(rest));
    SentinelJoin(i, |marks|, done);
    Around(t, done, SentinelFill(i), rest);
    ClaimJoin(marks, i, k, done);
    Around(t, done, ClaimFill(m, i, k), ClaimFills(marks[1..], i + 1, Next(m, k)));
    IndexBody(i);
    var at, e := TagMisplaced(left, Itoa(i), right, FixedMarker(k));
    FixedShows(left, i, k, at);
    var y := left[..at] + FixedMarker(k) + Remnant(Itoa(i), e);
    GuardedByRemnant(left[..at] + FixedMarker(k), Itoa(i), e, at + 1);
    MisplacedSparse(i, |marks|, left, right, k);
    PreparedKeeps(marks[1..], i + 1, y, t[|done| + 1..], at + 1, p, b, StepState(m, i, b, state));
    var r := Prepare(MarkersOf(marks[1..], i + 1), p, b, StepState(m, i, b, state)).value.claimText;
    PrefixesDiffer(r, left, Weave(t, Texts(done + ClaimFills(marks, i, k))), at, 1, FixedMarker(k), y);
  }

  // ---------- the condition on the pieces of text ----------

  /** The fill before mark i, as the second pass leaves it. */
  ghost predicate SealedBefore(all: seq<Mark>, i: nat, done: seq<Fill>) {
    i <= |all| && |done| == i
    && (i > 0 ==>
          var f, m := done[i - 1], all[i - 1];
          !f.SentinelFill? && (f.LiteralFill? <==> m.Dollar?) && (f.VariableFill? ==> m.Slot? && f.e == m.expression))
  }

  lemma {:induction false} InPlaceIff(all: seq<Mark>, i: nat, k: nat, u: seq<string>, done: seq<Fill>)
    requires |u| == |all| + 1 && PrefixFree(u) && MarksOk(all) && SealedBefore(all, i, done)
    ensures InPlace(all[i..], i, k, u, done) <==> forall j :: i <= j < |all| ==> !Misread(u, all, j)
    decreases |all| - i
  {
    hide Left, Spoils, Spells, Itoa, IsFixed, PrefixFree, Identifier, Misread;
    if i < |all| {
      var m := all[i];
      assert all[i..][0] == m && all[i..][1..] == all[i + 1..];
      InPlaceIff(all, i + 1, Next(m, k), u, done + [SealedFill(m, k)]);
      MisreadAt(all, i, u, done);
    }
  }

  lemma MisreadAt(all: seq<Mark>, i: nat, u: seq<string>, done: seq<Fill>)
    requires |u| == |all| + 1 && PrefixFree(u) && MarksOk(all) && SealedBefore(all, i, done) && i < |all|
    ensures Misread(u, all, i) <==> !FixedMark(all[i]) && Spoils(Left(u, done), Itoa(i))
  {
    hide Left, Spoils, Spells, Itoa, IsFixed, PrefixFree, Core, Identifier;
    EdgesOutside();
    if i > 0 && all[i - 1].Slot? {
      assert all[i - 1] in all;
      IdentifierThere(all[i - 1].expression);
    }
    SpoilsAfter(u, done, i);
  }

  lemma IdentifierThere(e: string)
    requires Identifier(e).Some?
    ensures e != ""
  {
    ExpressionQuiet(e);
  }

  /** The fill before mark i, as the first pass leaves it. */
  ghost predicate ClaimBefore(all: seq<Mark>, i: nat, done: seq<Fill>) {
    i <= |all| && |done| == i
    && (i > 0 ==>
          var f, m := done[i - 1], all[i - 1];
          (f.FixedFill? || f.SentinelFill?) && (f.FixedFill? <==> FixedMark(m)))
  }

  lemma {:induction false} FixedInPlaceIff(all: seq<Mark>, i: nat, k: nat, t: seq<string>, done: seq<Fill>)
    requires |t| == |all| + 1 && PrefixFree(t) && ClaimBefore(all, i, done)
    ensures FixedInPlace(all[i..], i, k, t, done) <==> forall j :: i <= j < |all| ==> !MisreadFixed(t, all, j)
    decreases |all| - i
  {
    hide Left, Spoils, Spells, Itoa, IsFixed, PrefixFree, MisreadFixed;
    if i < |all| {
      var m := all[i];
      assert all[i..][0] == m && all[i..][1..] == all[i + 1..];
      FixedInPlaceIff(all, i + 1, Next(m, k), t, done + [ClaimFill(m, i, k)]);
      MisreadFixedAt(all, i, t, done);
    }
  }

  lemma MisreadFixedAt(all: seq<Mark>, i: nat, t: seq<string>, done: seq<Fill>)
    requires |t| == |all| + 1 && PrefixFree(t) && ClaimBefore(all, i, done) && i < |all|
    ensures MisreadFixed(t, all, i) <==> FixedMark(all[i]) && Spoils(Left(t, done), Itoa(i))
  {
    hide Left, Spoils, Spells, Itoa, IsFixed, PrefixFree, Core;
    SpoilsAfter(t, done, i);
  }
}
