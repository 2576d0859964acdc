/**
 Searching for a marker where it stands. Two occurrences of a tag can only share its
 outer underscores, so a search that counts a tag once may still find it too early:
 exactly when the text before it ends like the tag itself.
 */
module DashOverlap {
  import opened DashStrings
  import opened DashMarkers

  // ---------- occurrences that overlap ----------

  /** No two occurrences stand side by side; they overlap, if there are several. */
  ghost predicate NoPair(v: string, s: string) {
    forall p, q :: OccursAt(v, s, p) && OccursAt(v, s, q) && p < q ==> q < p + |v|
  }

  lemma CountSome(v: string, s: string, p: int)
    requires v != "" && OccursAt(v, s, p)
    ensures Count(v, s) >= 1
  {
    Found(v, s);
  }

  /** A count of one means that all occurrences overlap. */
  lemma CountedOnce(v: string, s: string)
    requires v != "" && Count(v, s) == 1
    ensures NoPair(v, s)
  {
    Found(v, s);
    var i := Find(v, s);
    var rest := s[i + |v|..];
    assert Count(v, s) == 1 + Count(v, rest);
    assert s[..i + |v|] + rest == s;
    forall p, q | OccursAt(v, s, p) && OccursAt(v, s, q) && p < q ensures q < p + |v| {
      if q >= i + |v| {
        OccursShifted(v, s[..i + |v|], rest, q - i - |v|);
        CountSome(v, rest, q - i - |v|);
      }
    }
  }

  lemma OverlapCounted(v: string, s: string, p: int)
    requires v != "" && NoPair(v, s) && OccursAt(v, s, p)
    ensures Count(v, s) == 1
  {
    Found(v, s);
    var i := Find(v, s);
    var rest := s[i + |v|..];
    assert s[..i + |v|] + rest == s;
    forall q ensures !OccursAt(v, rest, q) {
      if q >= 0 {
        OccursShifted(v, s[..i + |v|], rest, q);
      }
    }
    Found(v, rest);
    assert Count(v, rest) == 0;
  }

  predicate EndsWith(s: string, x: string) {
    |x| <= |s| && s[|s| - |x|..] == x
  }

  /** The head of a tag that its own closing underscores may complete. */
  function Stem(c: string): string { "__" + Core() + c }

  function Under(yes: bool): string { if yes then "_" else "" }

  /** The text before a tag ends like the tag, short of one or two underscores that the tag itself supplies. */
  predicate Spoils(left: string, c: string) {
    EndsWith(left, Stem(c) + Under(false)) || EndsWith(left, Stem(c) + Under(true))
  }

  // ---------- the spelling of tags ----------

  lemma StemSpelled(c: string)
    requires Body(c)
    ensures Tag(c) == Stem(c) + "__" && |Stem(c)| == 25 + |c| && |c| > 0
    ensures Stem(c)[0] == '_' && Stem(c)[1] == '_' && Stem(c)[2] == 'M'
    ensures Stem(c)[2..] == Core() + c && Stem(c)[1..] == "_" + Core() + c && TemplatePrefix() <= Stem(c)
    ensures Stem(c)[25] == c[0] && Stem(c)[..25] == TemplatePrefix()
  {
    hide Literal;
    LiteralUnderscores();
  }

  /** No two underscores stand next to each other in a stem, except the first two. */
  lemma StemPairs(c: string)
    requires Body(c)
    ensures forall i :: 0 < i < |Stem(c)| - 1 && Stem(c)[i] == '_' ==> Stem(c)[i + 1] != '_'
    ensures Stem(c) != "" && Stem(c)[|Stem(c)| - 1] != '_'
  {
    hide Core, Literal;
    CoreShape();
    LiteralUnderscores();
    var t := Stem(c);
    assert forall i :: 2 <= i < 25 ==> t[i] == Core()[i - 2];
    assert forall i :: 25 <= i < |t| ==> t[i] == c[i - 25];
    forall i | 0 < i < |t| - 1 && t[i] == '_' ensures t[i + 1] != '_' {
      if i == 1 {
      } else if i < 24 {
        assert t[i] == Core()[i - 2] && t[i + 1] == Core()[i - 1];
      } else if i == 24 {
        assert t[25] == c[0];
      } else {
        assert t[i] == c[i - 25] && t[i + 1] == c[i - 24];
      }
    }
  }

  lemma LiteralUnderscores()
    ensures Literal() != "" && Literal()[0] != '_' && Literal()[|Literal()| - 1] != '_'
    ensures forall i :: 0 <= i < |Literal()| - 1 && Literal()[i] == '_' ==> Literal()[i + 1] != '_'
  {
  }

  lemma Differ(a: string, b: string, i: nat)
    requires i < |a| && i < |b| && a[i] != b[i]
    ensures a != b
  {
  }

  /** A tag continues itself only after its stem. */
  lemma TagBorder(c: string, d: nat)
    requires Body(c) && 0 < d < |Stem(c)|
    ensures d < |Tag(c)| && Tag(c)[d..] != Tag(c)[..|Tag(c)| - d]
  {
    hide Stem, Tag, Body;
    StemSpelled(c);
    StemPairs(c);
    var v, t := Tag(c), Stem(c);
    if t[d] != '_' {
      Differ(v[d..], v[..|v| - d], 0);
    } else {
      Differ(v[d..], v[..|v| - d], 1);
    }
  }

  // ---------- where a tag is found ----------

  lemma OccursHere(v: string, a: string, b: string)
    ensures OccursAt(v, a + v + b, |a|)
  {
  }

  lemma Halves(v: string, left: string, right: string, p: nat)
    requires p < |left| < p + |v| && OccursAt(v, left + v + right, p)
    ensures var d := |left| - p; left[p..] == v[..d] && v[d..] == v[..|v| - d]
  {
    var s := left + v + right;
    var d := |left| - p;
    var w := s[p..p + |v|];
    assert forall k :: 0 <= k < |v| ==> w[k] == s[p + k];
    assert forall k :: 0 <= k < d ==> v[k] == left[p + k];
    assert forall k :: d <= k < |v| ==> v[k] == v[k - d];
  }

  /** The text before the tag from position at on: the stem, and an underscore if there is one more character. */
  ghost predicate StemAt(left: string, c: string, at: int) {
    0 <= at && exists e: bool :: at + |Stem(c) + Under(e)| == |left| && left[at..] == Stem(c) + Under(e)
  }

  lemma StemSpoils(left: string, c: string, at: int)
    requires StemAt(left, c, at)
    ensures Spoils(left, c) && at < |left| && at + |Stem(c)| <= |left| && left[at..at + |Stem(c)|] == Stem(c)
  {
    hide Stem;
    var e: bool :| at + |Stem(c) + Under(e)| == |left| && left[at..] == Stem(c) + Under(e);
    assert left[at..at + |Stem(c)|] == left[at..][..|Stem(c)|];
    StemLong(c);
  }

  lemma StemLong(c: string)
    ensures |Stem(c)| > 0
  {
  }

  /**
   Where a search finds a tag whose occurrences overlap: at its place, unless the text
   before it spoils the search, and then at the stem that this text ends with.
   */
  lemma TagFirst(left: string, c: string, right: string)
    requires Body(c) && NoPair(Tag(c), left + Tag(c) + right)
    ensures var at := Find(Tag(c), left + Tag(c) + right);
      && (!Spoils(left, c) ==> at == |left|) && (Spoils(left, c) ==> StemAt(left, c, at))
  {
    hide Body, Tag, Stem, Spoils, StemAt;
    var v, s := Tag(c), left + Tag(c) + right;
    Found(v, s);
    OccursHere(v, left, right);
    var at := Find(v, s);
    if at < |left| {
      Halves(v, left, right, at);
      Early(left, c, at);
      StemSpoils(left, c, at);
    }
    if Spoils(left, c) {
      SpoiledEarly(left, c, right);
    }
  }

  lemma Early(left: string, c: string, at: nat)
    requires Body(c) && at < |left| < at + |Tag(c)|
    requires var d := |left| - at; left[at..] == Tag(c)[..d] && Tag(c)[d..] == Tag(c)[..|Tag(c)| - d]
    ensures StemAt(left, c, at)
  {
    hide Body, Tag, Stem;
    StemSpelled(c);
    var d, t := |left| - at, Stem(c);
    if d < |t| {
      TagBorder(c, d);
    } else {
      var e := d == |t| + 1;
      assert Tag(c)[..d] == t + Under(e);
      assert at + |t + Under(e)| == |left| && left[at..] == t + Under(e);
    }
  }

  /** With a stem before it, the tag reads on in its own underscores. */
  lemma ReadsOn(l: string, k: string, e: bool, right: string)
    ensures (l + ("__" + k + Under(e))) + ("__" + k + "__") + right == l + ("__" + k + "__") + (Under(e) + k + "__" + right)
  {
    assert Under(e) + "__" == "__" + Under(e);
    assert (l + ("__" + k + Under(e))) + ("__" + k + "__") + right == l + "__" + k + (Under(e) + "__") + (k + "__" + right);
  }

  lemma StemInside(c: string)
    requires Body(c)
    ensures Stem(c) == "__" + Stem(c)[2..] && Tag(c) == "__" + Stem(c)[2..] + "__"
    ensures Stem(c)[2..] == Core() + c
  {
  }

  lemma SpoiledEarly(left: string, c: string, right: string)
    requires Body(c) && Spoils(left, c)
    ensures exists p :: p < |left| && OccursAt(Tag(c), left + Tag(c) + right, p)
  {
    hide Body, Tag, Stem, OccursAt;
    StemInside(c);
    var e := !EndsWith(left, Stem(c) + Under(false));
    var p := |left| - |Stem(c) + Under(e)|;
    assert left == left[..p] + (Stem(c) + Under(e));
    ReadsOn(left[..p], Stem(c)[2..], e, right);
    OccursHere(Tag(c), left[..p], Under(e) + Stem(c)[2..] + "__" + right);
  }

  /** Replacing a tag that the text before it does not spoil replaces it where it stands. */
  lemma TagReplaced(left: string, c: string, right: string, w: string)
    requires Body(c) && NoPair(Tag(c), left + Tag(c) + right) && !Spoils(left, c)
    ensures ReplaceFirst(left + Tag(c) + right, Tag(c), w) == left + w + right
  {
    hide Body, Tag, Stem, Spoils;
    TagFirst(left, c, right);
    Replaced(left, Tag(c), right, w);
  }

  /** What is left of a tag whose opening underscores went with a replacement before it. */
  function Remnant(c: string, e: bool): string {
    Under(e) + Core() + c + "__"
  }

  /** Otherwise it is put too early, and the tail of the tag itself is left over. */
  lemma TagMisplaced(left: string, c: string, right: string, w: string) returns (at: nat, e: bool)
    requires Body(c) && NoPair(Tag(c), left + Tag(c) + right) && Spoils(left, c)
    ensures StemAt(left, c, at) && at + |Stem(c) + Under(e)| == |left| && left[at..] == Stem(c) + Under(e) && at < |left|
    ensures ReplaceFirst(left + Tag(c) + right, Tag(c), w) == left[..at] + w + Remnant(c, e) + right
  {
    hide Body, Tag, Stem, Spoils, Core, OccursAt;
    TagFirst(left, c, right);
    StemInside(c);
    var k := Stem(c)[2..];
    at := Find(Tag(c), left + Tag(c) + right);
    e :| at + |Stem(c) + Under(e)| == |left| && left[at..] == Stem(c) + Under(e);
    assert left == left[..at] + (Stem(c) + Under(e));
    ReadsOn(left[..at], k, e, right);
    Replaced(left[..at], Tag(c), Under(e) + k + "__" + right, w);
    Regrouped(left[..at] + w, Under(e), Core(), c, right);
  }

  lemma Replaced(a: string, v: string, b: string, w: string)
    requires Find(v, a + v + b) == |a|
    ensures ReplaceFirst(a + v + b, v, w) == a + w + b
  {
    var s := a + v + b;
    assert s[..|a|] == a && s[|a| + |v|..] == b;
  }

  lemma Regrouped(a: string, u: string, k: string, c: string, right: string)
    ensures a + (u + (k + c) + "__" + right) == a + (u + k + c + "__") + right
  {
  }

  // ---------- the text before a tag, made of a fill and a piece of text ----------

  /** A piece of text that reads like the inside of a tag, with or without an underscore at its ends. */
  predicate Spells(x: string, c: string) {
    exists a: bool, e: bool :: x == Under(a) + Core() + c + Under(e)
  }

  lemma EndOccurs(x: string, y: string, v: string)
    requires v <= y
    ensures EndsWith(x, y) ==> OccursAt(v, x, |x| - |y|)
  {
    if EndsWith(x, y) {
      assert x == x[..|x| - |y|] + v + y[|v|..];
    }
  }

  lemma PieceAlone(x: string, c: string, e: bool)
    requires Body(c) && Free(TemplatePrefix(), x)
    ensures !EndsWith(x, Stem(c) + Under(e))
  {
    hide Stem, Body, TemplatePrefix;
    StemSpelled(c);
    EndOccurs(x, Stem(c) + Under(e), TemplatePrefix());
  }

  /** A suffix that reaches over x into what stands before it. */
  lemma Reaches(a: string, x: string, y: string)
    requires EndsWith(a + x, y)
    ensures |y| <= |x| ==> EndsWith(x, y)
    ensures |y| > |x| ==> var m := |y| - |x|; m <= |a| && x == y[m..] && forall k :: 0 <= k < m ==> y[k] == a[|a| - m + k]
  {
    var s := a + x;
    var tail := s[|s| - |y|..];
    if |y| <= |x| {
      assert x[|x| - |y|..] == tail;
    } else {
      var m := |y| - |x|;
      assert tail[m..] == x;
      forall k | 0 <= k < m ensures y[k] == a[|a| - m + k] {
        assert tail[k] == a[|a| - m + k];
      }
    }
  }

  lemma ReachesBack(a: string, x: string, y: string, m: nat)
    requires m <= |a| && m <= |y| && x == y[m..] && a[|a| - m..] == y[..m]
    ensures EndsWith(a + x, y)
  {
    var s := a + x;
    assert s[|s| - |y|..] == a[|a| - m..] + x;
    assert y == y[..m] + y[m..];
  }

  /** A piece after a fill whose last character is in no marker spoils nothing. */
  lemma PieceAfterOther(a: string, x: string, c: string)
    requires Body(c) && Free(TemplatePrefix(), x)
    requires a != "" && a[|a| - 1] !in Tag(c)
    ensures !Spoils(a + x, c)
  {
    hide Body, Stem, Tag;
    StemSpelled(c);
    forall e: bool ensures !EndsWith(a + x, Stem(c) + Under(e)) {
      PieceAlone(x, c, e);
      NotReached(a, x, Stem(c) + Under(e), Tag(c));
    }
  }

  lemma NotReached(a: string, x: string, y: string, v: string)
    requires a != "" && a[|a| - 1] !in v && y <= v && !EndsWith(x, y)
    ensures !EndsWith(a + x, y)
  {
    if |x| < |y| <= |a + x| {
      var s, m := a + x, |y| - |x|;
      assert v[m - 1] in v;
      Differ(s[|s| - |y|..], y, m - 1);
    } else if |y| <= |x| {
      assert (a + x)[|a + x| - |y|..] == x[|x| - |y|..];
    }
  }

  /** A piece after a tag spoils the search for the next tag exactly if it reads like its inside. */
  lemma PieceAfterTag(a: string, b: string, x: string, c: string)
    requires Body(b) && Body(c) && Free(TemplatePrefix(), x)
    ensures Spoils(a + Tag(b) + x, c) <==> Spells(x, c)
  {
    hide Body, Core, Stem, EndsWith, Tag, Free;
    forall e: bool ensures EndsWith(a + Tag(b) + x, Stem(c) + Under(e)) <==> (
      x == Under(false) + Core() + c + Under(e) || x == Under(true) + Core() + c + Under(e))
    {
      TagThenPiece(a, b, x, c, e);
    }
  }

  lemma TagThenPiece(a: string, b: string, x: string, c: string, e: bool)
    requires Body(b) && Body(c) && Free(TemplatePrefix(), x)
    ensures EndsWith(a + Tag(b) + x, Stem(c) + Under(e)) <==> (
      x == Under(false) + Core() + c + Under(e) || x == Under(true) + Core() + c + Under(e))
  {
    hide Body, Core, Stem, Tag, Free, EndsWith;
    StemSpelled(c);
    var f, t, y := a + Tag(b), Stem(c), Stem(c) + Under(e);
    TagEnd(a, b);
    assert y[2..] == t[2..] + Under(e) && y[1..] == t[1..] + Under(e);
    assert Under(false) + Core() + c == t[2..] && Under(true) + Core() + c == t[1..];
    if EndsWith(f + x, y) {
      Shared(f, x, c, e);
    }
    if x == t[2..] + Under(e) {
      ReachesBack(f, x, y, 2);
    }
    if x == t[1..] + Under(e) {
      ReachesBack(f, x, y, 1);
    }
  }

  lemma TagEnd(a: string, b: string)
    requires Body(b)
    ensures var f := a + Tag(b);
      |f| >= 3 && f[|f| - 1] == '_' && f[|f| - 2] == '_' && f[|f| - 3] != '_' && f[|f| - 2..] == "__" && f[|f| - 1..] == "_"
  {
    hide Body, Stem, Tag;
    StemSpelled(b);
    StemPairs(b);
    var f := a + Tag(b);
    assert f == a + Stem(b) + "__";
  }

  /** One or two underscores of the tag are shared, and the piece is the rest. */
  lemma Shared(f: string, x: string, c: string, e: bool)
    requires Body(c) && Free(TemplatePrefix(), x) && EndsWith(f + x, Stem(c) + Under(e))
    requires |f| >= 3 && f[|f| - 1] == '_' && f[|f| - 2] == '_'
    ensures x == (Stem(c) + Under(e))[1..] || x == (Stem(c) + Under(e))[2..]
  {
    hide Body, Stem, Free, EndsWith;
    var y := Stem(c) + Under(e);
    Reaches(f, x, y);
    PieceAlone(x, c, e);
    StemPairs(c);
    var m := |y| - |x|;
    if m >= 3 {
      FarApart(Stem(c), e, m);
    }
  }

  lemma FarApart(t: string, e: bool, m: int)
    requires forall i :: 0 < i < |t| - 1 && t[i] == '_' ==> t[i + 1] != '_'
    requires t != "" && t[|t| - 1] != '_' && 3 <= m <= |t + Under(e)|
    ensures var y := t + Under(e); !(y[m - 1] == '_' && y[m - 2] == '_')
  {
  }
}
