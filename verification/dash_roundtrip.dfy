/**
 The round trip of a DASH template: seal it, let the player substitute into the
 public suffix, expand the claim.
 */
module DashRoundTrip {
  import opened Wrappers
  import opened DashStrings
  import opened DashMarkers
  import opened DashOverlap
  import opened DashValues
  import opened DashTemplate
  import opened DashSealing
  import opened DashExpansion

  // ---------- what is asked of net/url ----------

  predicate WordChar(c: char) {
    'a' <= c <= 'z' || 'A' <= c <= 'Z' || Digit(c) || c == '-' || c == '_'
  }

  /** Letters, digits, hyphens and underscores. */
  predicate Word(f: string) {
    f != "" && forall i :: 0 <= i < |f| ==> WordChar(f[i])
  }

  /** What is accepted as a representation id, whatever its length: path characters, escaped or not, and no dot segment. */
  predicate Plain(f: string) {
    f != "" && f != "." && f != ".." && PCharsFrom(f, 0)
  }

  /** The mark is outside the first segment of a relative reference, where a colon would end a scheme. */
  predicate Sheltered(texts: seq<string>, i: nat)
    requires i < |texts|
  {
    exists j :: 0 <= j <= i && ('/' in texts[j] || '?' in texts[j])
  }

  predicate NoUpper(f: string) {
    forall i :: 0 <= i < |f| ==> !('A' <= f[i] <= 'Z')
  }

  ghost predicate AllPlain(texts: seq<string>, fs: seq<string>)
    requires |texts| == |fs| + 1
  {
    forall i :: 0 <= i < |fs| ==> Plain(fs[i]) && (':' in fs[i] ==> Sheltered(texts, i))
  }

  ghost predicate AllWords(fs: seq<string>) {
    forall i :: 0 <= i < |fs| ==> Word(fs[i])
  }

  /** Fills that normalising a URL does not touch; only fixed expressions can stand in a host, which is put in lower case. */
  ghost predicate Settled(marks: seq<Mark>, fs: seq<string>)
    requires |marks| == |fs|
  {
    forall i :: 0 <= i < |fs| ==> (Word(fs[i]) || fs[i] == "$") && (FixedMark(marks[i]) ==> NoUpper(fs[i]))
  }

  /** The parts of a URL contain each fixed marker as often as its text does. */
  ghost predicate ReadsFixed(p: Parts, text: string) {
    forall k: nat :: Marked(FixedMarker(k), p) == Count(FixedMarker(k), text)
  }

  ghost predicate ReadsSentinels(p: Parts, text: string) {
    forall k: nat :: Sentinel(k) != "" && Marked(Sentinel(k), p) == Count(Sentinel(k), text)
  }

  ghost predicate FollowsAt(net: Net, t: Template, u: seq<string>, f: seq<string>)
    requires Shaped(t) && |u| == |t.texts| && |f| == |t.marks|
  {
    && (AllPlain(t.texts, f) ==> net.resolve(Weave(t.texts, f)) == net.normalize(Weave(u, f)))
    && (Settled(t.marks, f) ==> net.normalize(Weave(u, f)) in {None, Some(Weave(u, f))})
    && (AllWords(f) ==>
          && net.parts(Weave(u, f)).Some? && ReadsFixed(net.parts(Weave(u, f)).value, Weave(u, f))
          && (net.reference(Weave(t.texts, f)).Some? ==>
                ReadsSentinels(net.reference(Weave(t.texts, f)).value, Weave(t.texts, f))))
  }

  /**
   The law of net/url: whatever plain fills stand at the marks, resolving changes only
   the pieces of text between them, from those of t to those of u, and then normalises.
   */
  ghost predicate Follows(net: Net, t: Template, u: seq<string>) {
    && Shaped(t) && |u| == |t.texts| && (forall i :: 0 <= i < |u| ==> '$' !in u[i])
    && forall f: seq<string> :: |f| == |t.marks| ==> FollowsAt(net, t, u, f)
  }

  lemma WordPlain(f: string)
    requires Word(f)
    ensures Plain(f) && ':' !in f
  {
    assert WordChar(f[0]);
    WordsArePChars(f, 0);
  }

  lemma {:induction false} WordsArePChars(s: string, offset: nat)
    requires offset <= |s| && forall i :: 0 <= i < |s| ==> WordChar(s[i])
    ensures PCharsFrom(s, offset)
    decreases |s| - offset
  {
    if offset < |s| {
      assert WordChar(s[offset]);
      WordsArePChars(s, offset + 1);
    }
  }

  lemma WordsPlain(texts: seq<string>, fs: seq<string>)
    requires AllWords(fs) && |texts| == |fs| + 1
    ensures AllPlain(texts, fs)
  {
    hide Word, Plain;
    forall i | 0 <= i < |fs| ensures Plain(fs[i]) && ':' !in fs[i] {
      WordPlain(fs[i]);
    }
  }

  lemma MarkerWords(k: nat)
    ensures Word(Sentinel(k)) && Word(LiteralMarker()) && Word(FixedMarker(k)) && NoUpper(FixedMarker(k))
  {
    hide Core, FixedCore, Literal;
    CoreWords();
    forall i | 0 <= i < |Sentinel(k)| ensures WordChar(Sentinel(k)[i]) {
      assert Sentinel(k) == "__" + Core() + Itoa(k) + "__";
    }
    forall i | 0 <= i < |FixedMarker(k)| ensures WordChar(FixedMarker(k)[i]) && !('A' <= FixedMarker(k)[i] <= 'Z') {
      assert FixedMarker(k) == FixedCore() + Itoa(k) + "-x";
    }
  }

  lemma CoreWords()
    ensures forall i :: 0 <= i < |Core()| ==> WordChar(Core()[i])
    ensures forall i :: 0 <= i < |Literal()| ==> WordChar(Literal()[i])
    ensures forall i :: 0 <= i < |FixedCore()| ==> WordChar(FixedCore()[i]) && !('A' <= FixedCore()[i] <= 'Z')
  {
  }

  lemma ValueWord(e: string, v: string)
    requires ParsedValue(e, v).Some?
    ensures Word(v)
  {
    hide ParseExpression, ParseUint;
    var x := ParseExpression(e).value;
    assert Lexical(x.verb, v);
  }

  // ---------- the sealed claim ----------

  lemma {:induction false} SentinelTexts(i: nat, n: nat)
    ensures Texts(SentinelFills(i, n)) == Sentinels(i, n)
    decreases n
  {
    hide Sentinel;
    if n > 0 {
      SentinelTexts(i + 1, n - 1);
      TextsCons(SentinelFill(i), SentinelFills(i + 1, n - 1));
    }
  }

  lemma TextsCons(f: Fill, fs: seq<Fill>)
    ensures Texts([f] + fs) == [Text(f)] + Texts(fs)
  {
    hide Text;
  }

  lemma {:induction false} SentinelWords(i: nat, n: nat)
    ensures AllWords(Sentinels(i, n))
    decreases n
  {
    hide Sentinel, Word;
    if n > 0 {
      SentinelWords(i + 1, n - 1);
      MarkerWords(i);
    }
  }

  lemma {:induction false} ClaimWords(marks: seq<Mark>, i: nat, k: nat)
    ensures AllWords(Texts(ClaimFills(marks, i, k))) && Settled(marks, Texts(ClaimFills(marks, i, k)))
    decreases |marks|
  {
    hide Sentinel, FixedMarker, Word, NoUpper, FixedMark;
    if marks != [] {
      var f := ClaimFill(marks[0], i, k);
      var rest := ClaimFills(marks[1..], i + 1, Next(marks[0], k));
      ClaimWords(marks[1..], i + 1, Next(marks[0], k));
      MarkerWords(i);
      MarkerWords(k);
      assert Texts(ClaimFills(marks, i, k)) == [Text(f)] + Texts(rest) by { TextsCons(f, rest); }
    }
  }

  /** An accepted template has no marker's head in its pieces of text. */
  lemma AcceptedTexts(value: string, player: string -> string)
    requires Acceptable(value) && ParseTemplate(value).Ok?
    ensures PrefixFree(ParseTemplate(value).value.texts) && MarksOk(ParseTemplate(value).value.marks)
    ensures Shaped(ParseTemplate(value).value)
  {
    hide TemplatePrefix, Play, ParseTemplate, Weave, Identifier, FixedCore;
    var t := ParseTemplate(value).value;
    TemplateRead(value, player);
    Found(TemplatePrefix(), value);
    WeaveTextsFree(TemplatePrefix(), t.texts, SpelledAll(t.marks));
  }

  lemma SealSteps(value: string, b: Bindings, net: Net)
    requires Seal(value, b, net).Ok?
    ensures Acceptable(value) && ParseTemplate(value).Ok?
    ensures var t := ParseTemplate(value).value;
      var text := SanitizedText(t);
      && net.reference(text).Some?
      && var p := net.reference(text).value;
      && Prepare(MarkersOf(t.marks, 0), p, b, Prepared(text, [], [])).Ok?
      && var prepared := Prepare(MarkersOf(t.marks, 0), p, b, Prepared(text, [], [])).value;
      && net.resolve(prepared.claimText).Some?
      && Restore(prepared.markers, Restored(net.resolve(prepared.claimText).value, [])).Ok?
      && var r := Restore(prepared.markers, Restored(net.resolve(prepared.claimText).value, [])).value;
      Seal(value, b, net).value == Sealed(Claims(r.target, r.expressions, prepared.fixedValues), PublicSuffix(r.expressions, 0))
  {
    hide Acceptable, ParseTemplate, SanitizedText, Prepare, Restore, PublicSuffix;
  }

  lemma SanitizedSparse(t: Template, p: Parts, b: Bindings)
    requires Shaped(t) && MarksOk(t.marks)
    requires Prepare(MarkersOf(t.marks, 0), p, b, Prepared(SanitizedText(t), [], [])).Ok?
    requires ReadsSentinels(p, SanitizedText(t))
    ensures Sparse(0, |t.marks|, SanitizedText(t))
  {
    hide Sentinel, Marked, Prepare, MarkersOf, Identifier, Count, SanitizedText, NoPair;
    SentinelsMarked(t.marks, 0, p, b, Prepared(SanitizedText(t), [], []));
    forall j | 0 <= j < |t.marks| ensures NoPair(Sentinel(j), SanitizedText(t)) {
      assert Marked(Sentinel(j), p) == Count(Sentinel(j), SanitizedText(t));
      CountedOnce(Sentinel(j), SanitizedText(t));
    }
  }

  /** The text that is resolved has each marker in its place, if no piece before a fixed expression reads like its sentinel. */
  lemma ClaimTextRight(t: Template, p: Parts, b: Bindings)
    requires Shaped(t) && MarksOk(t.marks) && PrefixFree(t.texts)
    requires Prepare(MarkersOf(t.marks, 0), p, b, Prepared(SanitizedText(t), [], [])).Ok?
    requires ReadsSentinels(p, SanitizedText(t))
    ensures var r := Prepare(MarkersOf(t.marks, 0), p, b, Prepared(SanitizedText(t), [], [])).value;
      && r.markers == PreparedMarkers(t.marks, 0, 0) && r.fixedValues == FixedValues(t.marks, b) && Fixable(t.marks, b)
      && (r.claimText == Weave(t.texts, Texts(ClaimFills(t.marks, 0, 0)))
          <==> forall j :: 0 <= j < |t.marks| ==> !MisreadFixed(t.texts, t.marks, j))
  {
    hide Sentinel, Marked, Prepare, MarkersOf, Identifier, Count, Weave, MisreadFixed, PrefixFree, FixedValues, PreparedMarkers, Sparse,
      ReadsSentinels, Texts;
    SanitizedSparse(t, p, b);
    SentinelTexts(0, |t.marks|);
    var state := Prepared(SanitizedText(t), [], []);
    assert [] + SentinelFills(0, |t.marks|) == SentinelFills(0, |t.marks|);
    assert [] + ClaimFills(t.marks, 0, 0) == ClaimFills(t.marks, 0, 0);
    PrepareExact(t.marks, 0, t.texts, [], p, b, state);
    assert t.marks[0..] == t.marks;
    FixedInPlaceIff(t.marks, 0, 0, t.texts, []);
    PreparedList(t.marks, 0, p, b, state);
    assert [] + PreparedMarkers(t.marks, 0, 0) == PreparedMarkers(t.marks, 0, 0);
    assert [] + FixedValues(t.marks, b) == FixedValues(t.marks, b);
  }

  lemma ClaimRestored(marks: seq<Mark>, u: seq<string>)
    requires |u| == |marks| + 1 && MarksOk(marks) && PrefixFree(u)
    requires Restore(PreparedMarkers(marks, 0, 0), Restored(Weave(u, Texts(ClaimFills(marks, 0, 0))), [])).Ok?
    ensures var r := Restore(PreparedMarkers(marks, 0, 0), Restored(Weave(u, Texts(ClaimFills(marks, 0, 0))), [])).value;
      && r.expressions == Expressions(marks)
      && (r.target == Weave(u, Texts(SealedFills(marks, 0))) <==> forall j :: 0 <= j < |marks| ==> !Misread(u, marks, j))
  {
    hide Identifier, Weave, Misread, PrefixFree, PreparedMarkers, Texts, Restore, Expressions;
    var state := Restored(Weave(u, Texts(ClaimFills(marks, 0, 0))), []);
    assert [] + ClaimFills(marks, 0, 0) == ClaimFills(marks, 0, 0);
    assert [] + SealedFills(marks, 0) == SealedFills(marks, 0);
    assert [] + Expressions(marks) == Expressions(marks);
    RestoreExact(marks, 0, 0, u, [], state);
    assert marks[0..] == marks;
    InPlaceIff(marks, 0, 0, u, []);
  }

  /**
   When the claim is right. A template that is sealed at all is sealed into its
   resolved texts with every marker in its place, if and only if no text between a
   literal dollar and the next expression or dollar reads like the inside of the
   sentinel of that mark: MERIDIAN_DASH_TEMPLATE_ and its number, with at most one
   underscore on either side.
   */
  lemma SealedExactly(value: string, b: Bindings, net: Net, u: seq<string>)
    requires Seal(value, b, net).Ok? && ParseTemplate(value).Ok?
    requires Follows(net, ParseTemplate(value).value, u) && PrefixFree(u)
    requires var t := ParseTemplate(value).value; forall j :: 0 <= j < |t.marks| ==> !MisreadFixed(t.texts, t.marks, j)
    ensures var marks := ParseTemplate(value).value.marks; var sealed := Seal(value, b, net).value;
      && (sealed.claims.target == Weave(u, Texts(SealedFills(marks, 0))) <==> forall j :: 0 <= j < |marks| ==> !Misread(u, marks, j))
      && sealed.claims.template == Expressions(marks) && sealed.claims.fixed == FixedValues(marks, b)
      && sealed.suffix == PublicSuffix(Expressions(marks), 0) && Fixable(marks, b)
  {
    hide Identifier, Weave, Misread, MisreadFixed, PrefixFree, PreparedMarkers, Texts, Restore, Expressions, Prepare, MarkersOf, Seal,
      ParseTemplate, ReadsFixed, ReadsSentinels, PublicSuffix, FixedValues, AllPlain, AllWords, Settled, Acceptable, Fixable;
    var t := ParseTemplate(value).value;
    SealSteps(value, b, net);
    AcceptedTexts(value, x => "");
    var p := net.reference(SanitizedText(t)).value;
    SentinelWords(0, |t.marks|);
    assert FollowsAt(net, t, u, Sentinels(0, |t.marks|));
    ClaimTextRight(t, p, b);
    ClaimWords(t.marks, 0, 0);
    WordsPlain(t.texts, Texts(ClaimFills(t.marks, 0, 0)));
    assert FollowsAt(net, t, u, Texts(ClaimFills(t.marks, 0, 0)));
    ClaimRestored(t.marks, u);
  }

  // ---------- the fixed values ----------

  ghost predicate FixedAs(marks: seq<Mark>, b: Bindings, value: string -> string) {
    forall m :: m in marks && FixedMark(m) ==> FixedValue(m.expression, b) == Ok(Some(value(m.expression)))
  }

  /** Left of no fixed expression do the texts, with the values in, spell its marker. */
  ghost predicate FixedUnspelled(marks: seq<Mark>, k: nat, u: seq<string>, done: seq<string>, value: string -> string)
    requires |u| == |done| + |marks| + 1
    decreases |marks|
  {
    marks == []
    || ((FixedMark(marks[0]) ==> Free(FixedMarker(k), Weave(u[..|done| + 1], done)))
        && FixedUnspelled(marks[1..], Next(marks[0], k), u, done + [UnfixedAt(marks[0], value)], value))
  }

  lemma FixedFirst(left: string, k: nat, right: string)
    requires Free(FixedMarker(k), left)
    ensures Find(FixedMarker(k), left + FixedMarker(k) + right) == |left|
  {
    hide OccursAt;
    var v, s := FixedMarker(k), left + FixedMarker(k) + right;
    FixedStart(k);
    Found(v, s);
    OccursHere(v, left, right);
    forall p ensures OccursAt(v, s, p) ==> p >= |left| {
      if p < 0 {
        NeverNegative(v, s, p);
      } else if p + |v| <= |left| {
        Leftwards(v, left, v + right, "", p);
        assert left + "" == left && left + (v + right) == s;
      } else if p < |left| {
        assert v[|left| - p] != 'm';
        assert s[|left|] == v[0];
        Mismatch(v, s, p, |left| - p);
      }
    }
  }

  lemma NeverNegative(v: string, s: string, p: int)
    ensures OccursAt(v, s, p) ==> 0 <= p
  {
  }

  lemma FixedStart(k: nat)
    ensures var v := FixedMarker(k); v != "" && v[0] == 'm' && forall i :: 0 < i < |v| ==> v[i] != 'm'
  {
    hide FixedCore;
    FixedCoreShape();
    var v := FixedMarker(k);
    forall i | 0 < i < |v| ensures v[i] != 'm' {
      if i < 20 {
        assert v[i] == FixedCore()[i];
      } else {
        assert v[i] == (Itoa(k) + "-x")[i - 20];
      }
    }
  }

  lemma AroundString(u: seq<string>, done: seq<string>, f: string, rest: seq<string>)
    requires |u| == |done| + 1 + |rest| + 1
    ensures Weave(u, done + [f] + rest) == Weave(u[..|done| + 1], done) + f + Weave(u[|done| + 1..], rest)
  {
    hide Weave;
    var fs := done + [f] + rest;
    WeaveSplit(u, fs, |done|);
    assert fs[..|done|] == done && fs[|done| + 1..] == rest;
  }

  lemma FixedReplaced(u: seq<string>, done: seq<string>, k: nat, rest: seq<string>, v: string)
    requires |u| == |done| + 1 + |rest| + 1 && Free(FixedMarker(k), Weave(u[..|done| + 1], done))
    ensures ReplaceFirst(Weave(u, done + [FixedMarker(k)] + rest), FixedMarker(k), v) == Weave(u, done + [v] + rest)
  {
    hide Weave, FixedMarker, Free, ReplaceFirst;
    var left, right := Weave(u[..|done| + 1], done), Weave(u[|done| + 1..], rest);
    AroundString(u, done, FixedMarker(k), rest);
    AroundString(u, done, v, rest);
    FixedFirst(left, k, right);
    Replaced(left, FixedMarker(k), right, v);
  }

  lemma {:induction false} FixedRestored(marks: seq<Mark>, k: nat, u: seq<string>, done: seq<string>, b: Bindings,
                                         value: string -> string, p: Parts)
    requires |u| == |done| + |marks| + 1 && FixedAs(marks, b, value) && MarksOk(marks)
    requires forall j :: k <= j < k + |FixedValues(marks, b)| ==> Marked(FixedMarker(j), p) == 1
    requires FixedUnspelled(marks, k, u, done, value)
    ensures RestoreFixed(Weave(u, done + Filled(marks, k, value)), p, FixedValues(marks, b), k)
         == Ok(Weave(u, done + Unfixed(marks, value)))
    decreases |marks|
  {
    hide Weave, FixedMarker, Free, ReplaceFirst, Marked, FixedMark, FixedValue, Identifier, ValidRepresentationId, RestoreFixed,
      LiteralMarker, FixedAs, FixedValues, Filled, Unfixed, UnfixedAt;
    if marks == [] {
      FilledNothing(k, value);
      NothingRestored(Weave(u, done + []), p, b, k);
    } else {
      var m, rest := marks[0], marks[1..];
      FixedSplit(marks, b, value);
      var next := done + [UnfixedAt(m, value)];
      FixedJoin(marks, k, done, value);
      FixedRestored(rest, Next(m, k), u, next, b, value, p);
      if FixedMark(m) {
        FixedReplaced(u, done, k, Filled(rest, k + 1, value), value(m.expression));
        RestoreOne(Weave(u, done + Filled(marks, k, value)), p, FixedValues(marks, b), k);
      }
    }
  }

  lemma FilledNothing(k: nat, value: string -> string)
    ensures Filled([], k, value) == [] && Unfixed([], value) == []
  {
  }

  lemma FixedJoin(marks: seq<Mark>, k: nat, done: seq<string>, value: string -> string)
    requires marks != []
    ensures var m := marks[0]; var next := done + [UnfixedAt(m, value)];
      && next + Unfixed(marks[1..], value) == done + Unfixed(marks, value)
      && (!FixedMark(m) ==> done + Filled(marks, k, value) == next + Filled(marks[1..], Next(m, k), value))
      && (FixedMark(m) ==>
            Next(m, k) == k + 1 && m.Slot? && UnfixedAt(m, value) == value(m.expression)
            && done + Filled(marks, k, value) == done + [FixedMarker(k)] + Filled(marks[1..], k + 1, value)
            && next + Filled(marks[1..], k + 1, value) == done + [value(m.expression)] + Filled(marks[1..], k + 1, value))
  {
    hide FixedMarker, LiteralMarker, IsFixed, Filled, Unfixed;
    var m := marks[0];
    FirstFills(marks, k, value);
    JoinOne(done, UnfixedAt(m, value), Unfixed(marks[1..], value));
    JoinOne(done, FilledAt(m, k, value), Filled(marks[1..], Next(m, k), value));
  }

  lemma FirstFills(marks: seq<Mark>, k: nat, value: string -> string)
    requires marks != []
    ensures Filled(marks, k, value) == [FilledAt(marks[0], k, value)] + Filled(marks[1..], Next(marks[0], k), value)
    ensures Unfixed(marks, value) == [UnfixedAt(marks[0], value)] + Unfixed(marks[1..], value)
  {
    hide FilledAt, UnfixedAt, Next;
  }

  lemma JoinOne(done: seq<string>, f: string, rest: seq<string>)
    ensures done + ([f] + rest) == (done + [f]) + rest
  {
  }

  lemma NothingRestored(s: string, p: Parts, b: Bindings, k: nat)
    ensures RestoreFixed(s, p, FixedValues([], b), k) == Ok(s)
  {
  }

  lemma RestoreOne(s: string, p: Parts, fixed: seq<string>, k: nat)
    requires fixed != [] && ValidRepresentationId(fixed[0]) && Marked(FixedMarker(k), p) == 1
    ensures RestoreFixed(s, p, fixed, k) == RestoreFixed(ReplaceFirst(s, FixedMarker(k), fixed[0]), p, fixed[1..], k + 1)
  {
  }

  lemma FixedSplit(marks: seq<Mark>, b: Bindings, value: string -> string)
    requires marks != [] && FixedAs(marks, b, value) && MarksOk(marks)
    ensures FixedAs(marks[1..], b, value) && MarksOk(marks[1..])
    ensures FixedMark(marks[0]) ==>
      && FixedValues(marks, b) == [value(marks[0].expression)] + FixedValues(marks[1..], b)
      && ValidRepresentationId(value(marks[0].expression))
    ensures !FixedMark(marks[0]) ==> FixedValues(marks, b) == FixedValues(marks[1..], b)
  {
    hide FixedValue, Identifier, ValidRepresentationId, IsFixed;
    assert marks[0] in marks;
    if FixedMark(marks[0]) {
      FixedValueValid(marks[0].expression, b);
    }
  }

  // ---------- the literal dollars ----------

  /**
   Between two literal dollars, the texts with the values in do not spell the marker
   of a literal dollar, not even with the first underscores of the next one.
   */
  ghost predicate LiteralsUnspelled(text: string, u: seq<string>, marks: seq<Mark>, value: string -> string)
    requires |u| == |marks| + 1
    decreases |marks|
  {
    if marks == [] then Free(LiteralMarker(), text + u[0])
    else if marks[0].Dollar? then
      Free(LiteralMarker(), text + u[0] + "__") && LiteralsUnspelled("", u[1..], marks[1..], value)
    else LiteralsUnspelled(text + u[0] + value(marks[0].expression), u[1..], marks[1..], value)
  }

  lemma LiteralFound(text: string, rest: string)
    ensures var at := Find(LiteralMarker(), text + LiteralMarker() + rest);
      && (Free(LiteralMarker(), text + "__") ==> at == |text|)
      && (!Free(LiteralMarker(), text + "__") ==> 0 <= at < |text|)
  {
    hide OccursAt, Literal, Core, Stem;
    LiteralBody();
    StemSpelled(Literal());
    hide LiteralMarker;
    var v, s := LiteralMarker(), text + LiteralMarker() + rest;
    assert v == "__" + v[2..] by { assert v[..2] == "__"; }
    Found(v, s);
    OccursHere(v, text, rest);
    assert s == (text + "__") + (v[2..] + rest);
    forall p ensures p < |text| ==> (OccursAt(v, s, p) <==> OccursAt(v, text + "__", p)) {
      if p < 0 {
        NeverNegative(v, s, p);
        NeverNegative(v, text + "__", p);
      } else if p + |v| <= |text| + 2 {
        Leftwards(v, text + "__", v[2..] + rest, "", p);
        assert (text + "__") + "" == text + "__";
      } else if p < |text| {
        TooLong(v, text + "__", p);
        LiteralApart(text, rest, p);
      }
    }
    forall p ensures OccursAt(v, text + "__", p) ==> p < |text| {
      if p >= |text| {
        TooLong(v, text + "__", p);
      }
    }
  }

  lemma TooLong(v: string, s: string, p: int)
    requires p + |v| > |s|
    ensures !OccursAt(v, s, p)
  {
  }

  lemma LiteralApart(text: string, rest: string, p: nat)
    requires p < |text| && p + |LiteralMarker()| > |text| + 2
    ensures !OccursAt(LiteralMarker(), text + LiteralMarker() + rest, p)
  {
    hide OccursAt, Literal, Core, Stem;
    LiteralBody();
    StemSpelled(Literal());
    hide LiteralMarker;
    var v := LiteralMarker();
    var d := |text| - p;
    TagBorder(Literal(), d);
    if OccursAt(v, text + v + rest, p) {
      Halves(v, text, rest, p);
    }
  }

  lemma ReplaceAllStep(s: string, v: string, w: string)
    requires v != "" && Find(v, s) >= 0
    ensures var at := Find(v, s);
      at + |v| <= |s| && ReplaceAll(s, v, w) == s[..at] + w + ReplaceAll(s[at + |v|..], v, w)
  {
    hide Find;
  }

  lemma LiteralStart()
    ensures LiteralMarker() != "" && LiteralMarker()[0] == '_'
  {
  }

  /** Putting the dollars back puts them in their places exactly if the texts between them spell no marker. */
  lemma {:induction false} DollarsRestored(text: string, u: seq<string>, marks: seq<Mark>, value: string -> string)
    requires |u| == |marks| + 1
    ensures LiteralMarker() != ""
    ensures ReplaceAll(text + Weave(u, Unfixed(marks, value)), LiteralMarker(), "$") == text + Weave(u, PlayedAll(marks, value))
       <==> LiteralsUnspelled(text, u, marks, value)
    decreases |marks|
  {
    hide LiteralMarker, ReplaceAll, Free, Weave;
    LiteralStart();
    if marks == [] {
      WeaveOne(u[0]);
      assert u == [u[0]];
      NoneReplaced(text + u[0]);
    } else {
      var m := marks[0];
      var rest, played := Weave(u[1..], Unfixed(marks[1..], value)), Weave(u[1..], PlayedAll(marks[1..], value));
      WeaveStep(u, Unfixed(marks, value));
      WeaveStep(u, PlayedAll(marks, value));
      if m.Dollar? {
        DollarsRestored("", u[1..], marks[1..], value);
        assert "" + rest == rest && "" + played == played;
        DollarStep(text + u[0], rest, played);
        assert text + Weave(u, Unfixed(marks, value)) == (text + u[0]) + LiteralMarker() + rest;
        assert text + Weave(u, PlayedAll(marks, value)) == (text + u[0]) + "$" + played;
      } else {
        var v := value(m.expression);
        DollarsRestored(text + u[0] + v, u[1..], marks[1..], value);
        assert text + Weave(u, Unfixed(marks, value)) == (text + u[0] + v) + rest;
        assert text + Weave(u, PlayedAll(marks, value)) == (text + u[0] + v) + played;
      }
    }
  }

  lemma DollarStep(text: string, rest: string, played: string)
    ensures LiteralMarker() != ""
    ensures ReplaceAll(text + LiteralMarker() + rest, LiteralMarker(), "$") == text + "$" + played
       <==> Free(LiteralMarker(), text + "__") && ReplaceAll(rest, LiteralMarker(), "$") == played
  {
    hide LiteralMarker, ReplaceAll, Free;
    LiteralStart();
    LiteralFound(text, rest);
    var v, s := LiteralMarker(), text + LiteralMarker() + rest;
    var at := Find(v, s);
    ReplaceAllStep(s, v, "$");
    if Free(v, text + "__") {
      assert s[..at] == text && s[at + |v|..] == rest;
      var r := ReplaceAll(rest, v, "$");
      assert (text + "$" + r)[|text| + 1..] == r && (text + "$" + played)[|text| + 1..] == played;
    } else {
      Found(v, s);
      assert s[at] == s[at..at + |v|][0] == '_';
      Differ(ReplaceAll(s, v, "$"), text + "$" + played, at);
    }
  }

  lemma NoneReplaced(s: string)
    ensures LiteralMarker() != ""
    ensures ReplaceAll(s, LiteralMarker(), "$") == s <==> Free(LiteralMarker(), s)
  {
    hide LiteralMarker, OccursAt, Free;
    LiteralStart();
    var v := LiteralMarker();
    Found(v, s);
    var at := Find(v, s);
    if at >= 0 {
      ReplaceAllStep(s, v, "$");
      FoundStart(v, s, at);
      Differ(ReplaceAll(s, v, "$"), s, at);
      NotFree(v, s, at);
    } else {
      NowhereFree(v, s);
    }
  }

  lemma FoundStart(v: string, s: string, at: nat)
    requires v != "" && OccursAt(v, s, at)
    ensures at < |s| && s[at] == v[0]
  {
    assert s[at] == s[at..at + |v|][0];
  }

  lemma NotFree(v: string, s: string, at: int)
    requires OccursAt(v, s, at)
    ensures !Free(v, s)
  {
  }

  lemma NowhereFree(v: string, s: string)
    requires Find(v, s) < 0
    ensures Free(v, s)
  {
    Found(v, s);
  }

  // ---------- from the claim to the player's text ----------

  /** What follows the token in the route the player asks for. */
  function RouteSuffix(played: string): string {
    if played == "" then "" else played[1..]
  }

  lemma Reconstructed(u: seq<string>, marks: seq<Mark>, fixed: seq<string>, value: string -> string, number: string -> nat)
    requires |u| == |marks| + 1 && forall i :: 0 <= i < |u| ==> '$' !in u[i]
    requires |Expressions(marks)| <= 64 && Assigns(Expressions(marks), value, number)
    ensures var claims := Claims(Weave(u, Texts(SealedFills(marks, 0))), Expressions(marks), fixed);
      Reconstruct(claims, RouteSuffix(Play(PublicSuffix(Expressions(marks), 0), value)))
        == Ok(Weave(u, Filled(marks, 0, value)))
  {
    hide Weave, Filled, Identifier, ParsedValue, Substitute, Play, PublicSuffix, Texts, SealedFills, Reconstruct, Expressions,
      MapValues, Segments, SuffixOf, RouteSuffix;
    var ex := Expressions(marks);
    Substituted(marks, 0, u, value);
    SuffixPlayed(ex, value, 0);
    ValuesInserted(Weave(u, Texts(SealedFills(marks, 0))), ex, fixed, value, number);
  }

  lemma ValuesInserted(target: string, ex: seq<string>, fixed: seq<string>, value: string -> string, number: string -> nat)
    requires |ex| <= 64 && Assigns(ex, value, number)
    requires Substitute(target, ex, MapValues(ex, value)).Ok?
    ensures Reconstruct(Claims(target, ex, fixed), RouteSuffix(SuffixOf(Segments(ex, value, 0))))
         == Substitute(target, ex, MapValues(ex, value))
  {
    hide Identifier, ParsedValue, Substitute, Split, Values, Segments, SuffixOf;
    if ex == [] {
      SubstitutedNothing(target, MapValues(ex, value));
      NoSegments(value);
    } else {
      SegmentsHaveNoSlash(ex, value, number, 0);
      SplitJoined(Segments(ex, value, 0));
      ValuesRead(ex, value, number, 0, map[], []);
      SegmentNonempty(ex, value);
      assert [] + MapValues(ex, value) == MapValues(ex, value);
    }
  }

  lemma NoSegments(value: string -> string)
    ensures SuffixOf(Segments([], value, 0)) == ""
  {
  }

  lemma SegmentNonempty(ex: seq<string>, value: string -> string)
    requires ex != []
    ensures SuffixOf(Segments(ex, value, 0)) != "" && SuffixOf(Segments(ex, value, 0))[1..] != ""
  {
  }

  lemma SubstitutedNothing(target: string, values: seq<string>)
    requires values == []
    ensures Substitute(target, [], values).Ok? ==> Substitute(target, [], values) == Ok(target)
  {
  }

  // ---------- the round trip ----------

  /**
   The values a player and the binding put in: numbers where the player chooses, the
   binding's own where they are fixed, and no colon in the first segment of a relative
   reference.
   */
  ghost predicate PutIn(t: Template, b: Bindings, player: string -> string, number: string -> nat)
    requires Shaped(t)
  {
    && Assigns(Expressions(t.marks), player, number) && FixedAs(t.marks, b, player)
    && forall i :: 0 <= i < |t.marks| && FixedMark(t.marks[i]) && ':' in player(t.marks[i].expression) ==> Sheltered(t.texts, i)
  }

  /** Texts and values together spell no marker where it could be taken for one of the claim's own. */
  ghost predicate Unspelled(marks: seq<Mark>, u: seq<string>, b: Bindings, player: string -> string)
    requires |u| == |marks| + 1
  {
    && (forall k :: 0 <= k < |FixedValues(marks, b)| ==> Count(FixedMarker(k), Weave(u, Filled(marks, 0, player))) == 1)
    && FixedUnspelled(marks, 0, u, [], player)
    && LiteralsUnspelled("", u, marks, player)
  }

  lemma {:induction false} ExpressionIn(marks: seq<Mark>, e: string)
    requires Slot(e) in marks && !IsFixed(e)
    ensures e in Expressions(marks)
  {
    hide IsFixed;
    if marks[0] != Slot(e) {
      ExpressionIn(marks[1..], e);
    }
  }

  lemma SlotWord(t: Template, b: Bindings, player: string -> string, number: string -> nat, m: Mark)
    requires Shaped(t) && PutIn(t, b, player, number) && MarksOk(t.marks) && m in t.marks && m.Slot?
    ensures !FixedMark(m) ==> Word(player(m.expression)) && ':' !in player(m.expression)
    ensures Plain(player(m.expression))
  {
    hide Word, Identifier, ParsedValue, PCharsFrom, FixedValue;
    if FixedMark(m) {
      FixedValueValid(m.expression, b);
    } else {
      assert Slot(m.expression) == m;
      ExpressionIn(t.marks, m.expression);
      ValueWord(m.expression, player(m.expression));
      WordPlain(player(m.expression));
    }
  }

  lemma {:induction false} PlayedAt(marks: seq<Mark>, player: string -> string, i: nat)
    requires i < |marks|
    ensures PlayedAll(marks, player)[i] == Played(marks[i], player)
  {
    hide Played;
    if i > 0 {
      PlayedAt(marks[1..], player, i - 1);
    }
  }

  /** What a player fills in is plain, with colons only where they do no harm. */
  lemma PlayedPlain(t: Template, b: Bindings, player: string -> string, number: string -> nat)
    requires Shaped(t) && PutIn(t, b, player, number) && MarksOk(t.marks)
    ensures AllPlain(t.texts, PlayedAll(t.marks, player))
    ensures (forall m :: m in t.marks ==> !FixedMark(m)) ==> Settled(t.marks, PlayedAll(t.marks, player))
  {
    hide Word, Plain, FixedMark, NoUpper, MarksOk, Sheltered, Assigns, FixedAs, PlayedAll;
    var fs := PlayedAll(t.marks, player);
    DollarPlain();
    forall i | 0 <= i < |t.marks|
      ensures Plain(fs[i]) && (':' in fs[i] ==> Sheltered(t.texts, i)) && (!FixedMark(t.marks[i]) ==> Word(fs[i]) || fs[i] == "$")
    {
      PlayedAt(t.marks, player, i);
      if t.marks[i].Slot? {
        SlotWord(t, b, player, number, t.marks[i]);
      }
    }
  }

  lemma DollarPlain()
    ensures Plain("$")
  {
    assert PCharsFrom("$", 1);
  }

  lemma {:induction false} FilledWords(marks: seq<Mark>, k: nat, t: Template, b: Bindings, player: string -> string,
                                       number: string -> nat)
    requires Shaped(t) && PutIn(t, b, player, number) && MarksOk(t.marks) && forall m :: m in marks ==> m in t.marks
    ensures AllWords(Filled(marks, k, player))
    decreases |marks|
  {
    hide Word, Plain, FixedMark, PutIn, LiteralMarker, FixedMarker, MarksOk;
    if marks != [] {
      FilledWords(marks[1..], Next(marks[0], k), t, b, player, number);
      MarkerWords(k);
      if marks[0].Slot? {
        SlotWord(t, b, player, number, marks[0]);
      }
    }
  }

  lemma {:induction false} NothingFixed(marks: seq<Mark>, b: Bindings, value: string -> string)
    requires FixedValues(marks, b) == [] && FixedAs(marks, b, value)
    ensures forall k: nat :: Filled(marks, k, value) == Unfixed(marks, value)
    ensures forall m :: m in marks ==> !FixedMark(m)
  {
    hide FixedValue, FixedMark, LiteralMarker;
    if marks != [] {
      assert marks[0] in marks && !FixedMark(marks[0]);
      NothingFixed(marks[1..], b, value);
    }
  }

  function AsResult<T>(x: Option<T>): Result<T> {
    match x
    case None => Err
    case Some(v) => Ok(v)
  }

  /** The text that expanding a right claim normalises is the player's own text. */
  lemma ExpandedText(t: Template, u: seq<string>, b: Bindings, net: Net, player: string -> string, number: string -> nat)
    requires Follows(net, t, u) && MarksOk(t.marks) && |FixedValues(t.marks, b)| <= 64
    requires PutIn(t, b, player, number) && Unspelled(t.marks, u, b, player)
    ensures var text := Weave(u, Filled(t.marks, 0, player));
      && RestoreFixedClaims(text, FixedValues(t.marks, b), net) == Ok(Weave(u, Unfixed(t.marks, player)))
      && LiteralMarker() != ""
      && ReplaceAll(Weave(u, Unfixed(t.marks, player)), LiteralMarker(), "$") == Weave(u, PlayedAll(t.marks, player))
  {
    hide Weave, Identifier, FixedValues, FixedMark, Filled, Unfixed, PlayedAll, RestoreFixed, LiteralMarker, ReplaceAll, MarksOk, FixedAs,
      Assigns, FixedMarker, Marked, Count, FixedUnspelled, LiteralsUnspelled, AllPlain, AllWords, Settled, Plain, ReadsSentinels;
    var marks, fixed := t.marks, FixedValues(t.marks, b);
    var text := Weave(u, Filled(marks, 0, player));
    FilledWords(marks, 0, t, b, player, number);
    assert FollowsAt(net, t, u, Filled(marks, 0, player));
    assert [] + Filled(marks, 0, player) == Filled(marks, 0, player);
    assert [] + Unfixed(marks, player) == Unfixed(marks, player);
    if fixed == [] {
      NothingFixed(marks, b, player);
    } else {
      FixedRestored(marks, 0, u, [], b, player, net.parts(text).value);
    }
    DollarsRestored("", u, marks, player);
    assert "" + Weave(u, Unfixed(marks, player)) == Weave(u, Unfixed(marks, player));
    assert "" + Weave(u, PlayedAll(marks, player)) == Weave(u, PlayedAll(marks, player));
  }

  lemma ExpandedAs(t: Template, u: seq<string>, b: Bindings, net: Net, player: string -> string, number: string -> nat)
    requires Follows(net, t, u) && MarksOk(t.marks)
    requires |Expressions(t.marks)| <= 64 && |FixedValues(t.marks, b)| <= 64
    requires PutIn(t, b, player, number) && Unspelled(t.marks, u, b, player)
    ensures var claims := Claims(Weave(u, Texts(SealedFills(t.marks, 0))), Expressions(t.marks), FixedValues(t.marks, b));
      Expand(claims, RouteSuffix(Play(PublicSuffix(claims.template, 0), player)), net)
        == AsResult(net.resolve(Weave(t.texts, PlayedAll(t.marks, player))))
  {
    hide Weave, Identifier, PublicSuffix, Play, FixedValues, FixedMark, SealedFills, Texts, Expressions, Filled, Unfixed, PlayedAll,
      Reconstruct, RouteSuffix, RestoreFixedClaims, LiteralMarker, ReplaceAll, Assigns, MarksOk, FixedAs, Unspelled, AllPlain, AllWords,
      Settled, Plain, ReadsSentinels, ReadsFixed;
    var marks, fixed := t.marks, FixedValues(t.marks, b);
    Reconstructed(u, marks, fixed, player, number);
    ExpandedText(t, u, b, net, player, number);
    PlayedPlain(t, b, player, number);
    assert FollowsAt(net, t, u, PlayedAll(marks, player));
    if fixed == [] {
      NothingFixed(marks, b, player);
    }
  }

  /**
   Sealing commutes with the player's substitution. Whatever values the player puts
   into the public suffix, expanding the claim gives what resolving the original
   template with the same values gives (or fails where that fails), unless a piece of
   text is misread as a sentinel while sealing, or texts and values together spell a
   marker.
   */
  lemma SealThenExpand(value: string, b: Bindings, net: Net, u: seq<string>, player: string -> string, number: string -> nat)
    requires Seal(value, b, net).Ok? && ParseTemplate(value).Ok?
    requires Follows(net, ParseTemplate(value).value, u) && PrefixFree(u)
    requires var t := ParseTemplate(value).value;
      forall j :: 0 <= j < |t.marks| ==> !MisreadFixed(t.texts, t.marks, j) && !Misread(u, t.marks, j)
    requires var sealed := Seal(value, b, net).value; |sealed.claims.template| <= 64 && |sealed.claims.fixed| <= 64
    requires var t := ParseTemplate(value).value; PutIn(t, b, player, number) && Unspelled(t.marks, u, b, player)
    ensures var sealed := Seal(value, b, net).value;
      Expand(sealed.claims, RouteSuffix(Play(sealed.suffix, player)), net) == AsResult(net.resolve(Play(value, player)))
  {
    hide Weave, PublicSuffix, ParseTemplate, Play, FixedValues, FixedMark, SealedFills, Texts, Expressions, Expand, Seal, RouteSuffix,
      MarksOk, Follows, Misread, MisreadFixed, PrefixFree, Unspelled, PutIn, Fixable;
    TemplateRead(value, player);
    SealedExactly(value, b, net, u);
    ExpandedAs(ParseTemplate(value).value, u, b, net, player, number);
  }
}
