/** Scanning a text from a position, and the pieces that a scan reads. */
module TextSpans {
  import opened Wrappers

  /** The length of the leading run of characters of a class. */
  function Lead(text: string, kind: char -> bool): (n: nat)
    ensures n <= |text|
  {
    if text == "" || !kind(text[0]) then 0 else 1 + Lead(text[1..], kind)
  }

  predicate All(text: string, kind: char -> bool) {
    forall i :: 0 <= i < |text| ==> kind(text[i])
  }

  /** The same letter in either case, or the same character. */
  predicate SameLetter(a: char, b: char) {
    a == b || ('a' <= a <= 'z' && a as int == b as int + 32) || ('A' <= a <= 'Z' && b as int == a as int + 32)
  }

  /** A word in any letter case. */
  predicate Spelled(s: string, word: string) {
    |s| == |word| && forall i :: 0 <= i < |s| ==> SameLetter(s[i], word[i])
  }

  /** A text that cannot continue a run of the class. */
  predicate Stops(text: string, kind: char -> bool) {
    text == "" || !kind(text[0])
  }

  lemma {:induction false} LeadIs(run: string, rest: string, kind: char -> bool)
    requires All(run, kind) && Stops(rest, kind)
    ensures Lead(run + rest, kind) == |run|
    decreases |run|
  {
    if run == "" {
      assert run + rest == rest;
    } else {
      assert (run + rest)[1..] == run[1..] + rest;
      LeadIs(run[1..], rest, kind);
    }
  }

  lemma {:induction false} LeadParts(text: string, kind: char -> bool)
    ensures All(text[..Lead(text, kind)], kind) && Stops(text[Lead(text, kind)..], kind)
    decreases |text|
  {
    if text != "" && kind(text[0]) {
      var n := Lead(text[1..], kind);
      LeadParts(text[1..], kind);
      assert text[..n + 1] == [text[0]] + text[1..][..n];
      assert text[n + 1..] == text[1..][n..];
    }
  }

  /** The leading run of a class and what follows it. */
  function Take(text: string, kind: char -> bool): (string, string) {
    (text[..Lead(text, kind)], text[Lead(text, kind)..])
  }

  lemma TakeSound(text: string, kind: char -> bool)
    ensures var (run, rest) := Take(text, kind); text == run + rest && All(run, kind) && Stops(rest, kind)
  {
    LeadParts(text, kind);
  }

  lemma TakeIs(run: string, rest: string, kind: char -> bool)
    requires All(run, kind) && Stops(rest, kind)
    ensures Take(run + rest, kind) == (run, rest)
  {
    LeadIs(run, rest, kind);
    Cut(run, rest);
  }

  /** What follows an expected first character. */
  function Expect(text: string, c: char): Option<string> {
    if text != "" && text[0] == c then Some(text[1..]) else None
  }

  lemma ExpectSound(text: string, c: char)
    ensures Expect(text, c).Some? ==> text == [c] + Expect(text, c).value
  {
  }

  lemma ExpectIs(c: char, rest: string)
    ensures Expect([c] + rest, c) == Some(rest)
  {
  }

  lemma TakeAt(value: string, i: nat, kind: char -> bool)
    requires i <= |value|
    ensures var j := i + Lead(value[i..], kind); j <= |value| && Take(value[i..], kind) == (value[i..j], value[j..])
  {
    var j := i + Lead(value[i..], kind);
    assert value[i..][..j - i] == value[i..j] && value[i..][j - i..] == value[j..];
  }

  lemma ExpectAt(value: string, i: nat, c: char)
    requires i <= |value|
    ensures Expect(value[i..], c) == if i < |value| && value[i] == c then Some(value[i + 1..]) else None
  {
    if i < |value| {
      assert value[i..][1..] == value[i + 1..];
    }
  }

  lemma Cut(a: string, b: string)
    ensures (a + b)[..|a|] == a && (a + b)[|a|..] == b
  {
  }

  /** A text with the stretch between two offsets replaced. */
  function Spliced(text: string, start: nat, end: nat, insert: string): string
    requires start <= end <= |text|
  {
    text[..start] + insert + text[end..]
  }

  lemma SplicedParts(a: string, b: string, c: string, insert: string)
    ensures Spliced(a + b + c, |a|, |a| + |b|, insert) == a + insert + c
  {
    assert (a + b + c)[..|a|] == a;
    assert (a + b + c)[|a| + |b|..] == c;
  }

  /** The end of the run of a class that starts at an offset. */
  method SkipRun(value: string, offset: nat, kind: char -> bool) returns (end: nat)
    requires offset <= |value|
    ensures offset <= end <= |value| && end == offset + Lead(value[offset..], kind)
  {
    end := offset;
    while end < |value| && kind(value[end])
      invariant offset <= end <= |value|
      invariant Lead(value[offset..], kind) == end - offset + Lead(value[end..], kind)
    {
      assert value[end..][1..] == value[end + 1..];
      end := end + 1;
    }
  }
}
