/** Searching and replacing in strings, and texts woven from pieces and fills. */
module DashStrings {

  ghost predicate OccursAt(v: string, s: string, p: int) {
    0 <= p && p + |v| <= |s| && s[p..p + |v|] == v
  }

  ghost predicate Free(v: string, s: string) {
    forall p :: !OccursAt(v, s, p)
  }

  ghost predicate OnlyAt(v: string, s: string, at: int) {
    forall p :: OccursAt(v, s, p) ==> p == at
  }

  lemma OccursShifted(v: string, a: string, s: string, p: int)
    requires 0 <= p
    ensures OccursAt(v, a + s, |a| + p) == OccursAt(v, s, p)
  {
    if p + |v| <= |s| {
      assert (a + s)[|a| + p..|a| + p + |v|] == s[p..p + |v|];
    }
  }

  /** One character that differs is enough. */
  lemma Mismatch(v: string, s: string, p: nat, i: nat)
    requires i < |v| && p + i < |s| && s[p + i] != v[i]
    ensures !OccursAt(v, s, p)
  {
    if p + |v| <= |s| {
      assert s[p..p + |v|][i] != v[i];
    }
  }

  lemma OccursLonger(v: string, a: string, s: string, b: string, p: int)
    ensures OccursAt(v, s, p) ==> OccursAt(v, a + s + b, |a| + p)
  {
    if 0 <= p && p + |v| <= |s| {
      assert (a + s + b)[|a| + p..|a| + p + |v|] == s[p..p + |v|];
    }
  }

  lemma FreePart(v: string, a: string, s: string, b: string)
    requires Free(v, a + s + b)
    ensures Free(v, s)
  {
    forall p ensures !OccursAt(v, s, p) {
      OccursLonger(v, a, s, b, p);
    }
  }

  // ---------- index, count and replace ----------

  /** The first position of v in s, or -1. */
  function Find(v: string, s: string): (i: int)
    ensures -1 <= i && (i >= 0 ==> i + |v| <= |s|)
  {
    if |s| < |v| then -1
    else if s[..|v|] == v then 0
    else if s == "" then -1
    else
      var i := Find(v, s[1..]);
      if i < 0 then -1 else i + 1
  }

  lemma {:induction false} Found(v: string, s: string)
    ensures Find(v, s) >= 0 ==> OccursAt(v, s, Find(v, s))
    ensures forall p :: OccursAt(v, s, p) ==> 0 <= Find(v, s) <= p
  {
    if |s| >= |v| && s[..|v|] != v && s != "" {
      Found(v, s[1..]);
      OccursTail(v, s);
    }
  }

  lemma OccursTail(v: string, s: string)
    requires s != "" && !OccursAt(v, s, 0)
    ensures forall p :: OccursAt(v, s, p) ==> p > 0 && OccursAt(v, s[1..], p - 1)
    ensures forall p :: OccursAt(v, s[1..], p) ==> OccursAt(v, s, p + 1)
  {
    assert s[..1] + s[1..] == s;
    forall p | OccursAt(v, s, p) ensures p > 0 && OccursAt(v, s[1..], p - 1) {
      OccursShifted(v, s[..1], s[1..], p - 1);
    }
    forall p | OccursAt(v, s[1..], p) ensures OccursAt(v, s, p + 1) {
      OccursShifted(v, s[..1], s[1..], p);
    }
  }

  predicate Contains(s: string, v: string) {
    Find(v, s) >= 0
  }

  /** The number of occurrences that do not overlap, counted from the left. */
  function Count(v: string, s: string): (n: nat)
    requires v != ""
    decreases |s|
  {
    var i := Find(v, s);
    if i < 0 then 0 else 1 + Count(v, s[i + |v|..])
  }

  function ReplaceFirst(s: string, v: string, w: string): string {
    var i := Find(v, s);
    if i < 0 then s else s[..i] + w + s[i + |v|..]
  }

  function ReplaceAll(s: string, v: string, w: string): string
    requires v != ""
    decreases |s|
  {
    var i := Find(v, s);
    if i < 0 then s else s[..i] + w + ReplaceAll(s[i + |v|..], v, w)
  }

  /** A string that occurs at one place only is counted once and replaced there. */
  lemma FoundOnce(a: string, v: string, b: string, w: string)
    requires v != "" && OnlyAt(v, a + v + b, |a|)
    ensures Find(v, a + v + b) == |a|
    ensures Count(v, a + v + b) == 1
    ensures ReplaceFirst(a + v + b, v, w) == a + w + b
  {
    var s := a + v + b;
    Found(v, s);
    Found(v, b);
    assert OccursAt(v, s, |a|);
    assert s[|a| + |v|..] == b;
    assert s[..|a|] == a;
    assert Free(v, b) by {
      forall p ensures !OccursAt(v, b, p) {
        if OccursAt(v, b, p) {
          OccursShifted(v, a + v, b, p);
        }
      }
    }
    assert Find(v, b) == -1;
    assert Count(v, b) == 0;
  }

  // ---------- decimal indices ----------

  predicate Digit(c: char) {
    '0' <= c <= '9'
  }

  function Itoa(n: nat): (s: string)
    ensures s != "" && forall i :: 0 <= i < |s| ==> Digit(s[i])
  {
    if n < 10 then [('0' as int + n) as char] else Itoa(n / 10) + [('0' as int + n % 10) as char]
  }

  lemma {:induction false} ItoaInjective(m: nat, n: nat)
    requires Itoa(m) == Itoa(n)
    ensures m == n
  {
    var s := Itoa(m);
    var last := s[|s| - 1];
    assert m >= 10 <==> |Itoa(m)| > 1;
    assert n >= 10 <==> |Itoa(n)| > 1;
    if m >= 10 {
      assert Itoa(m / 10) == s[..|s| - 1] == Itoa(n / 10);
      ItoaInjective(m / 10, n / 10);
      assert last as int - '0' as int == m % 10 == n % 10;
    } else {
      assert last as int - '0' as int == m == n;
    }
  }

  // ---------- woven texts ----------

  /** texts[0] fills[0] texts[1] fills[1] ... texts[n]. */
  function Weave(texts: seq<string>, fills: seq<string>): string
    requires |texts| == |fills| + 1
  {
    if fills == [] then texts[0] else texts[0] + fills[0] + Weave(texts[1..], fills[1..])
  }

  lemma {:induction false} WeaveSplit(texts: seq<string>, fills: seq<string>, j: nat)
    requires |texts| == |fills| + 1 && j < |fills|
    ensures Weave(texts, fills)
         == Weave(texts[..j + 1], fills[..j]) + fills[j] + Weave(texts[j + 1..], fills[j + 1..])
  {
    if j == 0 {
      assert texts[..1] == [texts[0]];
    } else {
      WeaveSplit(texts[1..], fills[1..], j - 1);
      var a, b := texts[..j + 1], fills[..j];
      assert texts[1..][..j] == a[1..];
      assert fills[1..][..j - 1] == b[1..];
      assert texts[1..][j..] == texts[j + 1..];
      assert fills[1..][j..] == fills[j + 1..];
      assert Weave(a, b) == a[0] + b[0] + Weave(a[1..], b[1..]);
    }
  }

  lemma {:induction false} WeaveSnoc(texts: seq<string>, fills: seq<string>, f: string, t: string)
    requires |texts| == |fills| + 1
    ensures Weave(texts + [t], fills + [f]) == Weave(texts, fills) + f + t
  {
    var ts, fs := texts + [t], fills + [f];
    WeaveSplit(ts, fs, |fills|);
    assert ts[..|fills| + 1] == texts && fs[..|fills|] == fills;
    assert ts[|fills| + 1..] == [t] && fs[|fills| + 1..] == [];
  }

  /** Every text is a part of the woven string. */
  lemma {:induction false} WeaveTextsFree(v: string, texts: seq<string>, fills: seq<string>)
    requires |texts| == |fills| + 1 && Free(v, Weave(texts, fills))
    ensures forall i :: 0 <= i < |texts| ==> Free(v, texts[i])
  {
    if fills == [] {
      assert forall i :: 0 <= i < |texts| ==> texts[i] == texts[0];
    } else {
      var rest := Weave(texts[1..], fills[1..]);
      assert "" + texts[0] + (fills[0] + rest) == Weave(texts, fills);
      FreePart(v, "", texts[0], fills[0] + rest);
      assert texts[0] + fills[0] + rest + "" == Weave(texts, fills);
      FreePart(v, texts[0] + fills[0], rest, "");
      WeaveTextsFree(v, texts[1..], fills[1..]);
      forall i | 0 <= i < |texts| ensures Free(v, texts[i]) {
        assert i > 0 ==> texts[i] == texts[1..][i - 1];
      }
    }
  }
}
